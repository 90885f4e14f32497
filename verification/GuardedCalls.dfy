/** The guarded calls of one process: which ledger operation each runs under, at which
    provider, and how far it has come. An operation's name is its call's latch token. */
module GuardedCalls {
  import opened Basics
  import P = ProviderLatch

  type OpId = P.Token
  type ProviderId = nat

  /** Inside `generate`, or back from it and decided whether to finish the operation. */
  datatype Phase = InCall | WillFinish | WillKeep

  datatype Calls = Calls(at: map<OpId, ProviderId>, open: map<OpId, Phase>, latches: map<ProviderId, P.World>)

  function Start(providers: set<ProviderId>): Calls
  {
    Calls(map[], map[], map p | p in providers :: P.Idle)
  }

  function CallOf(c: Calls, op: OpId): Option<P.Call>
  {
    if op in c.at && c.at[op] in c.latches && op in c.latches[c.at[op]].calls then Some(c.latches[c.at[op]].calls[op]) else None
  }

  // ---------------------------------------------------------------------------- steps

  function Opened(c: Calls, op: OpId, p: ProviderId): Calls
  {
    c.(at := c.at[op := p], open := c.open[op := InCall])
  }

  predicate Inside(c: Calls, op: OpId, p: ProviderId)
  {
    op in c.open && c.open[op].InCall? && op in c.at && c.at[op] == p
  }

  /** A step of a provider; a call starts only for an operation inside its guarded call. */
  predicate CanStep(c: Calls, p: ProviderId, e: P.Event)
  {
    p in c.latches && P.Enabled(c.latches[p], e) && (e.Generate? ==> Inside(c, e.t, p))
  }

  function Stepped(c: Calls, p: ProviderId, e: P.Event): Calls
    requires CanStep(c, p, e)
  {
    c.(latches := c.latches[p := P.Next(c.latches[p], e)])
  }

  /** How `generate` may come back: by any exception outside the provider's errors at any
      time, refused before a call was made, or as its call reports. */
  predicate CanReturn(c: Calls, op: OpId, o: P.Outcome)
  {
    && op in c.open && c.open[op].InCall? && op in c.at && c.at[op] in c.latches
    && (o.OtherRaised? || match CallOf(c, op)
          case None => o == P.RequestFailed(false) || o.ContractFailed?
          case Some(call) => P.Reports(call, o))
  }

  /** The decision looks at the provider's latch as it is now. */
  function Returned(c: Calls, op: OpId, o: P.Outcome): Calls
    requires CanReturn(c, op, o)
  {
    c.(open := c.open[op := if P.FinishesAfter(o, c.latches[c.at[op]].latch.Some?) then WillFinish else WillKeep])
  }

  function Closed(c: Calls, op: OpId): Calls { c.(open := c.open - {op}) }

  // -------------------------------------------------------------- what may be at the model

  /** The operation's request may yet be sent. */
  predicate Sendable(c: Calls, op: OpId)
  {
    match CallOf(c, op)
    case Some(call) => P.MaySend(call)
    case None => op in c.open && c.open[op].InCall? && op in c.at && c.at[op] in c.latches && !P.Stuck(c.latches[c.at[op]])
  }

  predicate Unanswered(c: Calls, op: OpId) { CallOf(c, op).Some? && P.Unanswered(CallOf(c, op).value) }

  /** The operation's request thread was left by an exception outside `Exception`. */
  predicate Escaped(c: Calls, op: OpId) { CallOf(c, op).Some? && P.EscapedThread(CallOf(c, op).value) }

  // ------------------------------------------------------------------------ invariant

  /** Nothing is still to come: no call was made, or its thread ended otherwise than by
      losing the transport. */
  predicate Over(c: Calls, op: OpId)
  {
    match CallOf(c, op)
    case None => true
    case Some(call) => call.thread.Ended? && !call.thread.ending.Lost?
  }

  ghost predicate LatchesHold(latches: map<ProviderId, P.World>)
  {
    forall p | p in latches :: P.Inv(latches[p])
  }

  /** A call stands at the provider its operation was opened at. */
  ghost predicate Placed(at: map<OpId, ProviderId>, latches: map<ProviderId, P.World>)
  {
    forall p, t | p in latches && t in latches[p].calls :: t in at && at[t] == p
  }

  ghost predicate DecidedAreOver(c: Calls)
  {
    forall op | op in c.open && c.open[op].WillFinish? :: Over(c, op)
  }

  ghost predicate Inv(c: Calls)
  {
    LatchesHold(c.latches) && Placed(c.at, c.latches) && c.open.Keys <= c.at.Keys && DecidedAreOver(c)
  }

  lemma StartKeepsInv(providers: set<ProviderId>)
    ensures Inv(Start(providers))
    ensures forall op :: !Sendable(Start(providers), op) && !Unanswered(Start(providers), op)
  {
  }

  lemma OpenSame(c: Calls, op: OpId, p: ProviderId, o: OpId)
    requires Inv(c) && op !in c.at
    ensures CallOf(Opened(c, op, p), o) == CallOf(c, o)
    ensures Sendable(Opened(c, op, p), o) ==> o == op || Sendable(c, o)
  {
    if o == op && p in c.latches { assert op !in c.latches[p].calls; }
  }

  lemma OpenKeepsInv(c: Calls, op: OpId, p: ProviderId)
    requires Inv(c) && op !in c.at
    ensures Inv(Opened(c, op, p))
  {
    var c' := Opened(c, op, p);
    assert Placed(c'.at, c'.latches);
    forall o | o in c'.open && c'.open[o].WillFinish? ensures Over(c', o) {
      assert o in c.open && Over(c, o);
      OpenSame(c, op, p, o);
    }
  }

  lemma StuckStays(w: P.World, e: P.Event)
    requires P.Inv(w) && P.Enabled(w, e) && P.Stuck(w)
    ensures P.Stuck(P.Next(w, e))
  {
    assert P.CallInv(w.latch, w.latch.value, w.calls[w.latch.value]);
  }

  /** One provider step, seen from one of its calls. */
  lemma CallStep(w: P.World, e: P.Event, t: OpId)
    requires P.Inv(w) && P.Enabled(w, e) && t in w.calls
    ensures t in P.Next(w, e).calls
    ensures P.MaySend(P.Next(w, e).calls[t]) ==> P.MaySend(w.calls[t])
    ensures P.Unanswered(P.Next(w, e).calls[t]) ==> P.Unanswered(w.calls[t]) || P.MaySend(w.calls[t])
    ensures w.calls[t].thread.Ended? ==> P.Next(w, e).calls[t].thread == w.calls[t].thread
  {
  }

  /** A provider step starts at most the call of an operation inside its guarded call. */
  lemma StepSees(c: Calls, p: ProviderId, e: P.Event, op: OpId)
    requires Inv(c) && CanStep(c, p, e)
    ensures var c' := Stepped(c, p, e);
            if CallOf(c, op).Some? && c.at[op] == p then
              op in c.latches[p].calls && op in c'.latches[p].calls
              && CallOf(c, op).value == c.latches[p].calls[op] && CallOf(c', op) == Some(c'.latches[p].calls[op])
            else CallOf(c', op) == CallOf(c, op)
                 || (CallOf(c, op).None? && e.Generate? && e.t == op && Inside(c, op, p)
                     && c.latches[p].latch.None? && CallOf(c', op) == Some(P.Call(P.Fresh, P.InWait, false, false)))
  {
  }

  /** What may be sent only shrinks, and what becomes unanswered was sendable. */
  lemma StepShrinks(c: Calls, p: ProviderId, e: P.Event, op: OpId)
    requires Inv(c) && CanStep(c, p, e)
    ensures Sendable(Stepped(c, p, e), op) ==> Sendable(c, op)
    ensures Unanswered(Stepped(c, p, e), op) ==> Unanswered(c, op) || Sendable(c, op)
    ensures Escaped(c, op) ==> Escaped(Stepped(c, p, e), op)
    ensures op in c.open && c.open[op].WillFinish? ==> Over(Stepped(c, p, e), op)
  {
    var w := c.latches[p];
    StepSees(c, p, e, op);
    if CallOf(c, op).Some? && c.at[op] == p {
      CallStep(w, e, op);
    } else if P.Stuck(w) {
      StuckStays(w, e);
    }
  }

  lemma StepPlaces(c: Calls, p: ProviderId, e: P.Event)
    requires Placed(c.at, c.latches) && CanStep(c, p, e)
    ensures Placed(c.at, Stepped(c, p, e).latches)
  {
  }

  lemma StepKeepsInv(c: Calls, p: ProviderId, e: P.Event)
    requires Inv(c) && CanStep(c, p, e)
    ensures Inv(Stepped(c, p, e))
  {
    P.StepKeepsInv(c.latches[p], e);
    StepPlaces(c, p, e);
    forall op | op in c.open && c.open[op].WillFinish? ensures Over(Stepped(c, p, e), op) {
      StepShrinks(c, p, e, op);
    }
  }

  /** Coming back or closing changes no call, and lets nothing more be sent. */
  lemma SameCalls(c: Calls, open: map<OpId, Phase>, x: OpId)
    requires forall op | op in open && open[op].InCall? :: op in c.open && c.open[op].InCall?
    ensures CallOf(c.(open := open), x) == CallOf(c, x)
    ensures Sendable(c.(open := open), x) ==> Sendable(c, x)
  {
  }

  lemma ReturnKeepsInv(c: Calls, op: OpId, o: P.Outcome)
    requires Inv(c) && CanReturn(c, op, o)
    ensures Inv(Returned(c, op, o))
  {
    var c' := Returned(c, op, o);
    forall x | x in c'.open && c'.open[x].WillFinish? ensures Over(c', x) {
      SameCalls(c, c'.open, x);
      assert x == op || x in c.open;
    }
  }

  lemma CloseKeepsInv(c: Calls, op: OpId)
    requires Inv(c)
    ensures Inv(Closed(c, op))
  {
    var c' := Closed(c, op);
    forall x | x in c'.open && c'.open[x].WillFinish? ensures Over(c', x) {
      SameCalls(c, c'.open, x);
    }
  }

  /** An operation about to be finished is not sent any more, and its request is unanswered
      exactly if its thread escaped. */
  lemma FinishedIsOverIff(c: Calls, op: OpId)
    requires Inv(c) && op in c.open && c.open[op].WillFinish?
    ensures !Sendable(c, op) && (Unanswered(c, op) <==> Escaped(c, op))
  {
    assert Over(c, op);
  }

  /** The guarded provider finishes exactly when the latch is clear and `generate` came back
      by itself, without a call or from one whose thread ended otherwise than by losing the
      transport. */
  lemma DecisionIff(c: Calls, op: OpId, o: P.Outcome)
    requires Inv(c) && CanReturn(c, op, o)
    ensures Returned(c, op, o).open[op].WillFinish?
       <==> c.latches[c.at[op]].latch.None? && !o.OtherRaised?
            && match CallOf(c, op)
               case None => o.ContractFailed?
               case Some(call) => call.caller.Left? && call.thread.Ended? && !call.thread.ending.Lost?
  {
  }

  // ------------------------------------------------------------------- runs of providers

  datatype At = At(provider: ProviderId, step: P.Event)

  ghost predicate CanRun(c: Calls, steps: seq<At>)
    decreases |steps|
  {
    steps == [] || (CanStep(c, steps[0].provider, steps[0].step) && CanRun(Stepped(c, steps[0].provider, steps[0].step), steps[1..]))
  }

  ghost function Run(c: Calls, steps: seq<At>): Calls
    requires CanRun(c, steps)
    decreases |steps|
  {
    if steps == [] then c else Run(Stepped(c, steps[0].provider, steps[0].step), steps[1..])
  }

  function AtOne(p: ProviderId, es: seq<P.Event>): seq<At>
  {
    seq(|es|, i requires 0 <= i < |es| => At(p, es[i]))
  }

  /** A provider's own run is possible here if it starts no call but of its operations inside. */
  lemma {:induction false} OneProvider(c: Calls, p: ProviderId, es: seq<P.Event>)
    requires p in c.latches && P.Possible(c.latches[p], es)
    requires forall i | 0 <= i < |es| && es[i].Generate? :: Inside(c, es[i].t, p)
    ensures CanRun(c, AtOne(p, es)) && Run(c, AtOne(p, es)) == c.(latches := c.latches[p := P.After(c.latches[p], es)])
    decreases |es|
  {
    if es == [] {
      assert c.latches[p := c.latches[p]] == c.latches;
    } else {
      var c' := Stepped(c, p, es[0]);
      OneProvider(c', p, es[1..]);
      assert AtOne(p, es)[1..] == AtOne(p, es[1..]);
      assert c'.latches[p := P.After(c'.latches[p], es[1..])] == c.latches[p := P.After(c.latches[p], es)];
    }
  }

  /** Whatever providers do, only what was sendable becomes unanswered. */
  lemma {:induction false} RunShrinks(c: Calls, steps: seq<At>, op: OpId)
    requires Inv(c) && CanRun(c, steps)
    ensures Inv(Run(c, steps)) && Run(c, steps).at == c.at
    ensures Unanswered(Run(c, steps), op) ==> Unanswered(c, op) || Sendable(c, op)
    decreases |steps|
  {
    if steps != [] {
      StepKeepsInv(c, steps[0].provider, steps[0].step);
      StepShrinks(c, steps[0].provider, steps[0].step, op);
      RunShrinks(Stepped(c, steps[0].provider, steps[0].step), steps[1..], op);
    }
  }

  /** A sendable request can be sent: its provider has a run that ends with it unanswered. */
  lemma SendableIsSent(c: Calls, op: OpId) returns (steps: seq<At>)
    requires Inv(c) && Sendable(c, op)
    ensures CanRun(c, steps) && Unanswered(Run(c, steps), op)
  {
    var p := c.at[op];
    var w := c.latches[p];
    var es: seq<P.Event>;
    if CallOf(c, op).Some? {
      es := P.SendRun(w, op);
    } else {
      es := P.StartRun(w, op);
    }
    OneProvider(c, p, es);
    steps := AtOne(p, es);
  }
}
