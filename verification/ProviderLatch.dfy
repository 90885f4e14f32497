/** `OpenAICompatibleProvider.generate`: the race between a caller that gives up at its
    deadline and the request thread it started, and the token-checked latch both clear. */
module ProviderLatch {
  import opened Basics

  type Token = nat

  datatype Reply = Body | HttpError | BadContract

  /** How the request thread left its `try`: returned before sending, got an answer, lost
      the transport, or was left by an exception that is no `Exception`. */
  datatype Ending = NotSent | Answered(reply: Reply) | Lost | Escaped

  /** One constructor per point between two shared-memory accesses of the thread. */
  datatype ThreadPc =
    | Fresh        // before the first look at the deadline event
    | Looked       // before the first look at the clock
    | Announcing   // before setting `request_started`
    | Announced    // before the last look at clock and event
    | Sending      // about to call urlopen
    | Waiting      // urlopen was called
    | Unwinding(ending: Ending)   // in `finally`, before the latch
    | Ended(ending: Ending)       // completed is set

  datatype CallerPc = InWait | Expired | Decided(confirmed: bool) | TimedOut(confirmed: bool) | Left

  datatype Call = Call(thread: ThreadPc, caller: CallerPc, expired: bool, started: bool)
  datatype World = World(latch: Option<Token>, calls: map<Token, Call>)

  datatype Event =
    | Generate(t: Token)
    | Thread(t: Token, late: bool, ending: Ending)
    | Caller(t: Token)
    | CallerLeaves(t: Token)

  predicate ClearsLatch(e: Ending) { !e.Lost? }

  function ThreadStep(c: Call, late: bool, ending: Ending): Call
  {
    match c.thread
    case Fresh => c.(thread := if c.expired then Unwinding(NotSent) else Looked)
    case Looked => c.(thread := if late || c.expired then Unwinding(NotSent) else Announcing)
    case Announcing => c.(thread := Announced, started := true)
    case Announced => c.(thread := if late || c.expired then Unwinding(NotSent) else Sending)
    case Sending => c.(thread := Waiting)
    case Waiting => c.(thread := Unwinding(ending))
    case Unwinding(e) => c.(thread := Ended(e))
    case Ended(_) => c
  }

  function CallerStep(c: Call): Call
  {
    match c.caller
    case InWait => c.(caller := Expired, expired := true)
    case Expired => c.(caller := Decided(!c.started))
    case Decided(confirmed) => c.(caller := TimedOut(confirmed))
    case _ => c
  }

  predicate Enabled(w: World, e: Event)
  {
    match e
    case Generate(t) => t !in w.calls
    case Thread(t, _, ending) => t in w.calls && (w.calls[t].thread.Waiting? ==> !ending.NotSent?)
    case Caller(t) => t in w.calls
    case CallerLeaves(t) => t in w.calls && w.calls[t].caller.InWait? && w.calls[t].thread.Ended?
  }

  function Release(latch: Option<Token>, t: Token): Option<Token>
  {
    if latch == Some(t) then None else latch
  }

  function Next(w: World, e: Event): World
    requires Enabled(w, e)
  {
    match e
    case Generate(t) =>
      if w.latch.Some? then w
      else World(Some(t), w.calls[t := Call(Fresh, InWait, false, false)])
    case Thread(t, late, ending) =>
      var c := w.calls[t];
      World(if c.thread.Unwinding? && ClearsLatch(c.thread.ending) then Release(w.latch, t) else w.latch,
            w.calls[t := ThreadStep(c, late, ending)])
    case Caller(t) =>
      var c := w.calls[t];
      World(if c.caller == Decided(true) then Release(w.latch, t) else w.latch,
            w.calls[t := CallerStep(c)])
    case CallerLeaves(t) => w.(calls := w.calls[t := w.calls[t].(caller := Left)])
  }

  ghost predicate Possible(w: World, es: seq<Event>)
    decreases |es|
  {
    es == [] || (Enabled(w, es[0]) && Possible(Next(w, es[0]), es[1..]))
  }

  ghost function After(w: World, es: seq<Event>): World
    requires Possible(w, es)
    decreases |es|
  {
    if es == [] then w else After(Next(w, es[0]), es[1..])
  }

  const Idle := World(None, map[])

  // ------------------------------------------------------------------ what is at the model

  /** `urlopen` was called for this request. */
  predicate Sent(c: Call)
  {
    match c.thread
    case Waiting => true
    case Unwinding(e) => !e.NotSent?
    case Ended(e) => !e.NotSent?
    case _ => false
  }

  predicate Unanswered(c: Call)
  {
    match c.thread
    case Waiting => true
    case Unwinding(e) => e.Lost? || e.Escaped?
    case Ended(e) => e.Lost? || e.Escaped?
    case _ => false
  }

  predicate EscapedThread(c: Call) { c.thread == Ended(Escaped) }

  predicate Confirmed(c: Call) { c.caller == Decided(true) || c.caller == TimedOut(true) }

  predicate Harmless(c: Call)
  {
    c.thread.Fresh? || c.thread.Looked? || c.thread.Announcing? || c.thread.Announced?
    || c.thread == Unwinding(NotSent) || c.thread == Ended(NotSent)
  }

  /** The thread may yet call urlopen. */
  predicate MaySend(c: Call)
  {
    c.thread.Sending? || (!c.expired && (c.thread.Fresh? || c.thread.Looked? || c.thread.Announcing? || c.thread.Announced?))
  }

  /** The latch is held by a call whose transport was lost: no later call ever gets it. */
  predicate Stuck(w: World)
  {
    w.latch.Some? && w.latch.value in w.calls && w.calls[w.latch.value].thread in {Unwinding(Lost), Ended(Lost)}
  }

  predicate CallInv(latch: Option<Token>, t: Token, c: Call)
  {
    && (!c.caller.InWait? && !c.caller.Left? ==> c.expired)
    && (!c.started ==> c.thread in {Fresh, Looked, Announcing, Unwinding(NotSent), Ended(NotSent)})
    && (Confirmed(c) ==> Harmless(c))
    && (c.caller.Left? ==> c.thread.Ended?)
    && (latch != Some(t) <==> c.caller == TimedOut(true) || (c.thread.Ended? && ClearsLatch(c.thread.ending)))
  }

  ghost predicate Inv(w: World)
  {
    && (w.latch.Some? ==> w.latch.value in w.calls)
    && forall t | t in w.calls :: CallInv(w.latch, t, w.calls[t])
  }

  lemma StepKeepsInv(w: World, e: Event)
    requires Inv(w) && Enabled(w, e)
    ensures Inv(Next(w, e))
  {
    var w' := Next(w, e);
    forall t | t in w'.calls ensures CallInv(w'.latch, t, w'.calls[t]) {
      if t in w.calls {
        assert CallInv(w.latch, t, w.calls[t]);
      }
    }
  }

  lemma {:induction false} RunKeepsInv(w: World, es: seq<Event>)
    requires Inv(w) && Possible(w, es)
    ensures Inv(After(w, es))
    decreases |es|
  {
    if es != [] {
      StepKeepsInv(w, es[0]);
      RunKeepsInv(Next(w, es[0]), es[1..]);
    }
  }

  // ----------------------------------------------------------------------- main results

  lemma {:induction false} CallsStay(w: World, es: seq<Event>, t: Token)
    requires Possible(w, es) && t in w.calls
    ensures t in After(w, es).calls
    ensures Confirmed(w.calls[t]) ==> Confirmed(After(w, es).calls[t])
    decreases |es|
  {
    if es != [] {
      CallsStay(Next(w, es[0]), es[1..], t);
    }
  }

  /** A confirmed timeout: `urlopen` was not called, and never will be. */
  lemma ConfirmedMeansNeverSent(before: seq<Event>, after: seq<Event>, t: Token)
    requires Possible(Idle, before) && t in After(Idle, before).calls
    requires After(Idle, before).calls[t].caller == TimedOut(true)
    requires Possible(After(Idle, before), after)
    ensures t in After(After(Idle, before), after).calls
    ensures !Sent(After(After(Idle, before), after).calls[t])
  {
    var w := After(Idle, before);
    RunKeepsInv(Idle, before);
    RunKeepsInv(w, after);
    CallsStay(w, after, t);
    assert CallInv(After(w, after).latch, t, After(w, after).calls[t]);
  }

  /** The latch holds the token of whatever is unanswered: exactly as long as no request
      thread was left by an exception outside `Exception`. */
  lemma LatchGuardsUnanswered(es: seq<Event>)
    requires Possible(Idle, es)
    ensures (forall t | t in After(Idle, es).calls && Unanswered(After(Idle, es).calls[t]) :: After(Idle, es).latch == Some(t))
       <==> (forall t | t in After(Idle, es).calls :: !EscapedThread(After(Idle, es).calls[t]))
  {
    RunKeepsInv(Idle, es);
    var w := After(Idle, es);
    forall t | t in w.calls
      ensures CallInv(w.latch, t, w.calls[t]) && (EscapedThread(w.calls[t]) ==> Unanswered(w.calls[t]) && w.latch != Some(t))
    {
    }
  }

  /** So two requests of this provider never overlap at the model. */
  lemma NoOverlap(es: seq<Event>, t: Token, u: Token)
    requires Possible(Idle, es)
    requires var w := After(Idle, es); t in w.calls && u in w.calls && t != u
    requires forall x | x in After(Idle, es).calls :: !EscapedThread(After(Idle, es).calls[x])
    ensures var w := After(Idle, es); !(Unanswered(w.calls[t]) && Unanswered(w.calls[u]))
  {
    LatchGuardsUnanswered(es);
  }

  /** Under a clear latch no existing call sends any more. */
  lemma {:induction false} ClearLatchIsFinal(w: World, es: seq<Event>, t: Token)
    requires Inv(w) && Possible(w, es) && t in w.calls && w.latch != Some(t)
    ensures t in After(w, es).calls && Sent(After(w, es).calls[t]) == Sent(w.calls[t])
    decreases |es|
  {
    assert CallInv(w.latch, t, w.calls[t]);
    if es != [] {
      StepKeepsInv(w, es[0]);
      assert CallInv(Next(w, es[0]).latch, t, Next(w, es[0]).calls[t]);
      ClearLatchIsFinal(Next(w, es[0]), es[1..], t);
    }
  }

  /** The deadline passed before the thread's second look, and the caller knows. */
  predicate ExpiredEarly(c: Call)
  {
    && c.expired && !c.started && c.thread in {Fresh, Looked, Unwinding(NotSent), Ended(NotSent)}
    && c.caller in {Expired, Decided(true), TimedOut(true)}
  }

  /** Such a deadline ends in a confirmed timeout in every continuation: nothing is announced
      or sent any more. */
  lemma {:induction false} EarlyExpiryIsConfirmed(w: World, es: seq<Event>, t: Token)
    requires Possible(w, es) && t in w.calls && ExpiredEarly(w.calls[t])
    ensures t in After(w, es).calls && ExpiredEarly(After(w, es).calls[t]) && !Sent(After(w, es).calls[t])
    decreases |es|
  {
    if es != [] { EarlyExpiryIsConfirmed(Next(w, es[0]), es[1..], t); }
  }

  /** A thread that looks and finds its deadline past, by the clock or by the caller, sends
      nothing at any later time. */
  lemma LateLookNeverSends(w: World, look: Event, es: seq<Event>, t: Token)
    requires Inv(w) && look.Thread? && look.t == t && Enabled(w, look) && Possible(Next(w, look), es)
    requires (w.calls[t].thread in {Looked, Announced} && (look.late || w.calls[t].expired)) || (w.calls[t].thread.Fresh? && w.calls[t].expired)
    ensures Next(w, look).calls[t].thread == Unwinding(NotSent)
    ensures t in After(Next(w, look), es).calls && !Sent(After(Next(w, look), es).calls[t])
  {
    NotSentStays(Next(w, look), es, t);
  }

  lemma {:induction false} NotSentStays(w: World, es: seq<Event>, t: Token)
    requires Possible(w, es) && t in w.calls && w.calls[t].thread in {Unwinding(NotSent), Ended(NotSent)}
    ensures t in After(w, es).calls && !Sent(After(w, es).calls[t])
    decreases |es|
  {
    if es != [] { NotSentStays(Next(w, es[0]), es[1..], t); }
  }

  /** A caller that decides after the thread announced its request never confirms. */
  lemma {:induction false} AnnouncedIsUnconfirmed(w: World, es: seq<Event>, t: Token)
    requires Possible(w, es) && t in w.calls && w.calls[t].started && !Confirmed(w.calls[t])
    ensures t in After(w, es).calls && !Confirmed(After(w, es).calls[t])
    decreases |es|
  {
    if es != [] { AnnouncedIsUnconfirmed(Next(w, es[0]), es[1..], t); }
  }

  /** How `generate` came back to the guarded provider. `OtherRaised` includes the
      provider's timeout error, confirmed or not: it is no request error. */
  datatype Outcome = Returned | RequestFailed(confirmed: bool) | ContractFailed | OtherRaised

  /** Whether the guarded provider then finishes its operation. */
  predicate FinishesAfter(o: Outcome, latched: bool)
  {
    match o
    case RequestFailed(confirmed) => confirmed && !latched
    case OtherRaised => false
    case _ => !latched
  }

  /** What the caller of `generate` may see for a call it has left. */
  predicate Reports(c: Call, o: Outcome)
  {
    if c.caller.TimedOut? then o.OtherRaised?
    else if !c.caller.Left? || !c.thread.Ended? then false
    else match c.thread.ending
      case Answered(Body) => o.Returned? || o.ContractFailed?
      case Answered(HttpError) => o == RequestFailed(true)
      case Answered(BadContract) => o.ContractFailed?
      case Lost => o == RequestFailed(false) || o.OtherRaised?
      case NotSent => o.ContractFailed?
      case Escaped => o.ContractFailed?
  }

  /** A call reports something exactly once its caller is out of it. */
  lemma ReportsIff(w: World, t: Token)
    requires Inv(w) && t in w.calls
    ensures (exists o :: Reports(w.calls[t], o)) <==> w.calls[t].caller.Left? || w.calls[t].caller.TimedOut?
  {
    var c := w.calls[t];
    assert CallInv(w.latch, t, c);
    if c.caller.TimedOut? {
      assert Reports(c, OtherRaised);
    } else if c.caller.Left? {
      assert Reports(c, if c.thread.ending == Answered(HttpError) then RequestFailed(true)
                        else if c.thread.ending.Lost? then RequestFailed(false) else ContractFailed);
    }
  }

  /** A timeout never lets the guarded provider finish, even when it is confirmed and the
      latch is clear: the operation stays recorded though nothing was or will be sent. */
  lemma TimeoutsNeverFinish(before: seq<Event>, t: Token, o: Outcome)
    requires Possible(Idle, before) && t in After(Idle, before).calls
    requires After(Idle, before).calls[t].caller == TimedOut(true) && Reports(After(Idle, before).calls[t], o)
    ensures !FinishesAfter(o, After(Idle, before).latch.Some?)
    ensures After(Idle, before).latch != Some(t) && !Sent(After(Idle, before).calls[t]) && !MaySend(After(Idle, before).calls[t])
  {
    RunKeepsInv(Idle, before);
    assert CallInv(After(Idle, before).latch, t, After(Idle, before).calls[t]);
  }

  /** The law the ledger relies on: when the guarded provider finishes an operation, its
      request is answered or was never sent, now and in every continuation, exactly if its
      thread was not left by an exception outside `Exception`. */
  lemma FinishIsSafeIff(before: seq<Event>, t: Token, o: Outcome, after: seq<Event>)
    requires Possible(Idle, before) && t in After(Idle, before).calls
    requires Reports(After(Idle, before).calls[t], o)
    requires FinishesAfter(o, After(Idle, before).latch.Some?)
    requires Possible(After(Idle, before), after)
    ensures t in After(After(Idle, before), after).calls
    ensures !Unanswered(After(After(Idle, before), after).calls[t]) <==> !EscapedThread(After(Idle, before).calls[t])
  {
    var w := After(Idle, before);
    RunKeepsInv(Idle, before);
    assert CallInv(w.latch, t, w.calls[t]);
    EndedStays(w, after, t);
  }

  lemma {:induction false} EndedStays(w: World, es: seq<Event>, t: Token)
    requires Possible(w, es) && t in w.calls && w.calls[t].thread.Ended?
    ensures t in After(w, es).calls && After(w, es).calls[t].thread == w.calls[t].thread
    decreases |es|
  {
    if es != [] {
      EndedStays(Next(w, es[0]), es[1..], t);
    }
  }

  /** A run in which the condition fails: the thread escapes, the latch opens, and the
      guarded provider finishes an operation whose request is still unanswered. */
  lemma EscapeOpensLatch()
    ensures exists es: seq<Event> :: Possible(Idle, es) && BrokenByEscape(After(Idle, es)) && OneCall(es, 0)
  {
    var es: seq<Event> := [CallerLeaves(0)];
    Prepend(Escaping(7), CallerLeaves(0), []);
    var i := 7;
    while i > 0
      invariant 0 <= i <= 7
      invariant Possible(Escaping(i), es) && BrokenByEscape(After(Escaping(i), es)) && OneCall(es, 0)
    {
      i := i - 1;
      EscapeStep(i);
      Prepend(Escaping(i), Thread(0, false, Escaped), es);
      es := [Thread(0, false, Escaped)] + es;
    }
    Prepend(Idle, Generate(0), es);
    assert OneCall([Generate(0)] + es, 0);
  }

  predicate OneCall(es: seq<Event>, t: Token)
  {
    forall i | 0 <= i < |es| && es[i].Generate? :: es[i].t == t
  }

  ghost predicate BrokenByEscape(w: World)
  {
    && 0 in w.calls && w.latch.None? && Unanswered(w.calls[0])
    && Reports(w.calls[0], ContractFailed) && FinishesAfter(ContractFailed, w.latch.Some?)
  }

  /** The thread's way through sending to its escape. */
  function EscapingPc(i: nat): ThreadPc
  {
    match i
    case 0 => Fresh
    case 1 => Looked
    case 2 => Announcing
    case 3 => Announced
    case 4 => Sending
    case 5 => Waiting
    case 6 => Unwinding(Escaped)
    case _ => Ended(Escaped)
  }

  /** The only call after i steps of its thread. */
  function Escaping(i: nat): World
  {
    World(if i < 7 then Some(0) else None, map[0 := Call(EscapingPc(i), InWait, false, i >= 3)])
  }

  lemma EscapeStep(i: nat)
    requires i < 7
    ensures Enabled(Escaping(i), Thread(0, false, Escaped))
    ensures Next(Escaping(i), Thread(0, false, Escaped)) == Escaping(i + 1)
  {
    assert Next(Escaping(i), Thread(0, false, Escaped)).calls == Escaping(i + 1).calls;
  }

  lemma Prepend(w: World, e: Event, es: seq<Event>)
    requires Enabled(w, e) && Possible(Next(w, e), es)
    ensures Possible(w, [e] + es) && After(w, [e] + es) == After(Next(w, e), es)
  {
    assert ([e] + es)[1..] == es;
  }

  // -------------------------------------------------------------- what can still be sent

  /** Steps a thread still has before it calls urlopen. */
  function StepsToSend(pc: ThreadPc): nat
  {
    match pc
    case Fresh => 5
    case Looked => 4
    case Announcing => 3
    case Announced => 2
    case Sending => 1
    case _ => 0
  }

  /** If the thread may send, letting it run in time sends. */
  lemma {:induction false} SendRun(w: World, t: Token) returns (es: seq<Event>)
    requires t in w.calls && (MaySend(w.calls[t]) || w.calls[t].thread.Waiting?)
    ensures Possible(w, es) && t in After(w, es).calls && After(w, es).calls[t].thread.Waiting?
    ensures forall i | 0 <= i < |es| :: !es[i].Generate?
    decreases StepsToSend(w.calls[t].thread)
  {
    if w.calls[t].thread.Waiting? { return []; }
    var step := Thread(t, false, Lost);
    var rest := SendRun(Next(w, step), t);
    Prepend(w, step, rest);
    return [step] + rest;
  }

  /** Steps a thread still has before it has ended. */
  function StepsToEnd(pc: ThreadPc): nat
  {
    match pc
    case Fresh => 7
    case Looked => 6
    case Announcing => 5
    case Announced => 4
    case Sending => 3
    case Waiting => 2
    case Unwinding(_) => 1
    case Ended(_) => 0
  }

  /** A latch that is not stuck can be freed: its thread gives up, or is answered. */
  lemma {:induction false} FreeRun(w: World) returns (es: seq<Event>)
    requires Inv(w) && !Stuck(w)
    ensures Possible(w, es) && After(w, es).latch.None? && After(w, es).calls.Keys == w.calls.Keys
    ensures forall i | 0 <= i < |es| :: !es[i].Generate?
    decreases if w.latch.Some? && w.latch.value in w.calls then StepsToEnd(w.calls[w.latch.value].thread) else 0
  {
    if w.latch.None? { return []; }
    var t := w.latch.value;
    assert CallInv(w.latch, t, w.calls[t]);
    var step := Thread(t, true, Answered(Body));
    StepKeepsInv(w, step);
    var rest := FreeRun(Next(w, step));
    Prepend(w, step, rest);
    return [step] + rest;
  }

  lemma {:induction false} RunsCompose(w: World, a: seq<Event>, b: seq<Event>)
    requires Possible(w, a) && Possible(After(w, a), b)
    ensures Possible(w, a + b) && After(w, a + b) == After(After(w, a), b)
    decreases |a|
  {
    if a == [] {
      assert a + b == b;
    } else {
      RunsCompose(Next(w, a[0]), a[1..], b);
      Prepend(w, a[0], a[1..] + b);
      assert a + b == [a[0]] + (a[1..] + b);
    }
  }

  /** A call that was not made yet can be made and sent once the latch is freed. */
  lemma StartRun(w: World, t: Token) returns (es: seq<Event>)
    requires Inv(w) && !Stuck(w) && t !in w.calls
    ensures Possible(w, es) && t in After(w, es).calls && After(w, es).calls[t].thread.Waiting?
    ensures OneCall(es, t)
  {
    var free := FreeRun(w);
    var w1 := After(w, free);
    var start := Generate(t);
    var send := SendRun(Next(w1, start), t);
    Prepend(w1, start, send);
    RunsCompose(w, free, [start] + send);
    return free + ([start] + send);
  }
}
