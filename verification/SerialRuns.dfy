/** Whole runs of the serial ledger: guarded callers, request threads, providers, failed
    writes, crashes, restarts and recoveries over one slot. */
module SerialRuns {
  import opened Basics
  import opened SerialLedger
  import G = GuardedCalls
  import P = ProviderLatch

  /** The sets are those of the bounded ledger's runs. */
  datatype World = World(disk: Disk, poisoned: bool, issued: set<OpId>, calls: G.Calls, past: set<OpId>, attested: set<OpId>,
                         leaked: set<OpId>)

  datatype Event =
    | Begin(io: bool, operation: Operation, provider: G.ProviderId, write: Write)
    | AtProvider(provider: G.ProviderId, step: P.Event)
    | Return(op: OpId, outcome: P.Outcome)
    | Settle(io: bool, op: OpId, write: Write)
    | Recover(io: bool, expected: OpId, evidence: Option<Evidence>, rawHash: Digest, wAudit: Write, wState: Write)
    | Restart(providers: set<G.ProviderId>)

  predicate Enabled(w: World, e: Event)
  {
    match e
    case Begin(_, op, provider, _) => op.id !in w.issued && provider in w.calls.latches
    case AtProvider(provider, step) => G.CanStep(w.calls, provider, step)
    case Return(op, outcome) => G.CanReturn(w.calls, op, outcome)
    case Settle(_, op, _) => op in w.calls.open && !w.calls.open[op].InCall?
    case _ => true
  }

  /** The guarded provider finishes, or leaves the slot as it is. */
  function Settled(w: World, io: bool, op: OpId, write: Write): Step<()>
  {
    if op in w.calls.open && w.calls.open[op].WillFinish? then AfterFinish(w.poisoned, w.disk, io, op, write)
    else Step(w.poisoned, w.disk, None)
  }

  function Recovered(w: World, e: Event): Step<()>
    requires e.Recover?
  {
    AfterRecover(w.poisoned, w.disk, e.io, e.expected, e.evidence, e.rawHash, e.wAudit, e.wState)
  }

  /** Accepted evidence speaks of a request that was sent, not of one still to be sent. */
  predicate Attests(w: World, e: Event)
    requires e.Recover?
  {
    (Recovered(w, e).result.Some? || Recovered(w, e).disk != w.disk) && !G.Sendable(w.calls, e.expected)
  }

  function Slot(d: Disk): set<OpId>
  {
    if d.pending.Some? then {d.pending.value.id} else {}
  }

  predicate FinishesEscaped(w: World, e: Event)
  {
    && e.Settle? && G.Escaped(w.calls, e.op) && e.op !in w.attested
    && e.op in Slot(w.disk) && e.op !in Slot(Settled(w, e.io, e.op, e.write).disk)
  }

  function Next(w: World, e: Event): World
    requires Enabled(w, e)
  {
    match e
    case Begin(io, op, provider, write) =>
      var out := AfterBegin(w.poisoned, w.disk, io, op, write);
      w.(disk := out.disk, poisoned := out.poisoned, issued := w.issued + {op.id},
         calls := if out.result.Some? then G.Opened(w.calls, op.id, provider) else w.calls)
    case AtProvider(provider, step) => w.(calls := G.Stepped(w.calls, provider, step))
    case Return(op, outcome) => w.(calls := G.Returned(w.calls, op, outcome))
    case Settle(io, op, write) =>
      var out := Settled(w, io, op, write);
      w.(disk := out.disk, poisoned := out.poisoned, calls := G.Closed(w.calls, op),
         leaked := if FinishesEscaped(w, e) then w.leaked + {op} else w.leaked)
    case Recover(_, expected, _, _, _, _) =>
      w.(disk := Recovered(w, e).disk, poisoned := Recovered(w, e).poisoned,
         attested := if Attests(w, e) then w.attested + {expected} else w.attested)
    case Restart(providers) => w.(poisoned := false, calls := G.Start(providers), past := w.past + Unanswered(w.calls))
  }

  function Unanswered(c: G.Calls): set<OpId> { set op | op in c.at && G.Unanswered(c, op) }

  function Outstanding(w: World): set<OpId> { w.past + Unanswered(w.calls) - w.attested }

  ghost predicate Possible(w: World, es: seq<Event>)
    decreases |es|
  {
    es == [] || (Enabled(w, es[0]) && Possible(Next(w, es[0]), es[1..]))
  }

  ghost function After(w: World, es: seq<Event>): World
    requires Possible(w, es)
    decreases |es|
  {
    if es == [] then w else After(Next(w, es[0]), es[1..])
  }

  function Initial(binding: Digest, providers: set<G.ProviderId>): World
  {
    World(Disk(binding, None, None, map[]), false, {}, G.Start(providers), {}, {}, {})
  }

  // ------------------------------------------------------------------------ invariant

  ghost predicate LedgerInv(d: Disk)
  {
    RecoveryFiled(d) && (forall id | id in d.audits :: d.audits[id].binding == d.binding && d.audits[id].pending.id == id)
  }

  ghost predicate NamesInv(w: World)
  {
    && w.calls.at.Keys <= w.issued && Slot(w.disk) <= w.issued && w.past <= w.issued && w.attested <= w.issued
    && w.past !! w.calls.at.Keys
  }

  ghost predicate SendableInv(w: World)
  {
    forall op | G.Sendable(w.calls, op) :: op in Slot(w.disk) && op !in w.attested
  }

  predicate InFlight(w: World, op: OpId) { (op in w.past || G.Unanswered(w.calls, op)) && op !in w.attested }

  ghost predicate OutstandingInv(w: World)
  {
    forall op | InFlight(w, op) :: op in Slot(w.disk) || op in w.leaked
  }

  ghost predicate LeakedInv(w: World)
  {
    && w.leaked <= w.issued
    && forall op | op in w.leaked ::
         op !in Slot(w.disk) && op !in w.attested && (op in w.past || G.Escaped(w.calls, op))
  }

  ghost predicate Inv(w: World)
  {
    LedgerInv(w.disk) && NamesInv(w) && G.Inv(w.calls) && SendableInv(w) && OutstandingInv(w) && LeakedInv(w)
  }

  ghost predicate Quiet(w: World) { forall op :: !G.Sendable(w.calls, op) }

  /** Completed, or with its last write failed after the new file was in place. */
  predicate EmptiesSlot(w: World, e: Event) { e.Recover? && Slot(Recovered(w, e).disk) != Slot(w.disk) }

  /** Unlike the bounded ledger, `recover` does not look for live calls: its owner must. */
  ghost predicate Exclusive(w: World, e: Event) { EmptiesSlot(w, e) ==> Quiet(w) }

  // -------------------------------------------------------- the invariant, by event

  lemma BeginKeepsInv(w: World, e: Event)
    requires Inv(w) && e.Begin? && Enabled(w, e)
    ensures Inv(Next(w, e))
  {
    var w', op := Next(w, e), e.operation.id;
    G.OpenKeepsInv(w.calls, op, e.provider);
    forall o ensures G.CallOf(w'.calls, o) == G.CallOf(w.calls, o)
             ensures G.Sendable(w'.calls, o) ==> G.Sendable(w.calls, o) || (o == op && o in Slot(w'.disk))
    {
      G.OpenSame(w.calls, op, e.provider, o);
    }
    forall o | InFlight(w', o) ensures o in Slot(w'.disk) || o in w'.leaked { assert InFlight(w, o); }
  }

  lemma StepKeepsCalls(w: World, e: Event)
    requires Inv(w) && e.AtProvider? && Enabled(w, e)
    ensures Inv(Next(w, e))
  {
    var w' := Next(w, e);
    G.StepKeepsInv(w.calls, e.provider, e.step);
    forall op ensures G.Sendable(w'.calls, op) ==> G.Sendable(w.calls, op)
              ensures G.Unanswered(w'.calls, op) ==> G.Unanswered(w.calls, op) || G.Sendable(w.calls, op)
              ensures G.Escaped(w.calls, op) ==> G.Escaped(w'.calls, op)
    {
      G.StepShrinks(w.calls, e.provider, e.step, op);
    }
  }

  lemma ReturnKeepsInv(w: World, e: Event)
    requires Inv(w) && e.Return? && Enabled(w, e)
    ensures Inv(Next(w, e))
  {
    var w' := Next(w, e);
    G.ReturnKeepsInv(w.calls, e.op, e.outcome);
    forall op ensures G.CallOf(w'.calls, op) == G.CallOf(w.calls, op) && (G.Sendable(w'.calls, op) ==> G.Sendable(w.calls, op)) {
      G.SameCalls(w.calls, w'.calls.open, op);
    }
  }

  lemma SettleKeepsInv(w: World, e: Event)
    requires Inv(w) && e.Settle? && Enabled(w, e)
    ensures Inv(Next(w, e))
  {
    var w' := Next(w, e);
    G.CloseKeepsInv(w.calls, e.op);
    forall op ensures G.CallOf(w'.calls, op) == G.CallOf(w.calls, op) && (G.Sendable(w'.calls, op) ==> G.Sendable(w.calls, op)) {
      G.SameCalls(w.calls, w'.calls.open, op);
    }
    if w.calls.open[e.op].WillFinish? { G.FinishedIsOverIff(w.calls, e.op); }
    assert Slot(w.disk) - {e.op} <= Slot(w'.disk) <= Slot(w.disk);
    forall o | InFlight(w', o) ensures o in Slot(w'.disk) || o in w'.leaked { assert InFlight(w, o); }
  }

  /** A recovery leaves the slot, or empties it of the operation it was asked for, which
      its evidence speaks of if it is not still to be sent. */
  predicate RecoversOnly(w: World, e: Event, w': World)
    requires e.Recover?
  {
    && w' == w.(disk := w'.disk, poisoned := w'.poisoned, attested := w'.attested)
    && w.attested <= w'.attested <= w.attested + {e.expected}
    && (w'.attested != w.attested ==> !G.Sendable(w.calls, e.expected) && Slot(w.disk) == {e.expected})
    && (if EmptiesSlot(w, e) then Slot(w.disk) == {e.expected} && Slot(w'.disk) == {} && (G.Sendable(w.calls, e.expected) || e.expected in w'.attested)
        else Slot(w'.disk) == Slot(w.disk))
  }

  lemma RecoveryRecovers(w: World, e: Event)
    requires e.Recover?
    ensures RecoversOnly(w, e, Next(w, e))
  {
  }

  lemma RecoveryKeepsLedgerInv(w: World, e: Event)
    requires e.Recover? && LedgerInv(w.disk)
    ensures LedgerInv(Next(w, e).disk)
  {
  }

  lemma RecoverKeepsInv(w: World, e: Event)
    requires Inv(w) && e.Recover? && Exclusive(w, e)
    ensures Inv(Next(w, e))
  {
    RecoveryKeepsLedgerInv(w, e);
    RecoveryRecovers(w, e);
    RecoveredKeepsInv(w, e, Next(w, e));
  }

  lemma RecoveredKeepsInv(w: World, e: Event, w': World)
    requires Inv(w) && e.Recover? && Exclusive(w, e) && RecoversOnly(w, e, w') && LedgerInv(w'.disk)
    ensures Inv(w')
  {
    forall o | InFlight(w', o) ensures o in Slot(w'.disk) || o in w'.leaked { assert InFlight(w, o); }
  }

  lemma StepKeepsInv(w: World, e: Event)
    requires Inv(w) && Enabled(w, e) && Exclusive(w, e)
    ensures Inv(Next(w, e))
  {
    match e
    case Begin(_, _, _, _) => BeginKeepsInv(w, e);
    case AtProvider(_, _) => StepKeepsCalls(w, e);
    case Return(_, _) => ReturnKeepsInv(w, e);
    case Settle(_, _, _) => SettleKeepsInv(w, e);
    case Recover(_, _, _, _, _, _) => RecoverKeepsInv(w, e);
    case Restart(providers) => G.StartKeepsInv(providers);
  }

  ghost predicate AllExclusive(w: World, es: seq<Event>)
    requires Possible(w, es)
    decreases |es|
  {
    es == [] || (Exclusive(w, es[0]) && AllExclusive(Next(w, es[0]), es[1..]))
  }

  lemma {:induction false} ExclusiveRunKeepsInv(w: World, es: seq<Event>)
    requires Inv(w) && Possible(w, es) && AllExclusive(w, es)
    ensures Inv(After(w, es))
    decreases |es|
  {
    if es != [] {
      StepKeepsInv(w, es[0]);
      ExclusiveRunKeepsInv(Next(w, es[0]), es[1..]);
    }
  }

  // ------------------------------------------------------------------ main results

  ghost predicate NeverFinishesEscaped(w: World, es: seq<Event>)
    requires Possible(w, es)
    decreases |es|
  {
    es == [] || (!FinishesEscaped(w, es[0]) && NeverFinishesEscaped(Next(w, es[0]), es[1..]))
  }

  lemma {:induction false} LeaksAreFinishes(w: World, es: seq<Event>)
    requires Possible(w, es)
    ensures After(w, es).leaked == {} <==> w.leaked == {} && NeverFinishesEscaped(w, es)
    decreases |es|
  {
    if es != [] { LeaksAreFinishes(Next(w, es[0]), es[1..]); }
  }

  /** Write-ahead safety with one slot, across crashes, failed writes and restarts: in runs
      whose recoveries empty the slot only with nothing still to be sent, exactly those without a finish of an
      escaped call. */
  lemma WriteAheadSafetyIff(binding: Digest, providers: set<G.ProviderId>, es: seq<Event>)
    requires Possible(Initial(binding, providers), es) && AllExclusive(Initial(binding, providers), es)
    ensures var w0 := Initial(binding, providers);
            var w := After(w0, es);
            && (Outstanding(w) <= Slot(w.disk) <==> NeverFinishesEscaped(w0, es))
            && (NeverFinishesEscaped(w0, es) ==> |Outstanding(w)| <= 1)
  {
    var w0 := Initial(binding, providers);
    G.StartKeepsInv(providers);
    ExclusiveRunKeepsInv(w0, es);
    LeaksAreFinishes(w0, es);
    LostSlots(After(w0, es));
  }

  lemma LostSlots(w: World)
    requires Inv(w)
    ensures Outstanding(w) - Slot(w.disk) == w.leaked
    ensures Outstanding(w) <= Slot(w.disk) <==> w.leaked == {}
    ensures w.leaked == {} ==> |Outstanding(w)| <= 1
  {
    forall op ensures op in Outstanding(w) - Slot(w.disk) <==> op in w.leaked {
      assert op in Outstanding(w) <==> InFlight(w, op);
    }
    if w.leaked == {} {
      assert Outstanding(w) - Slot(w.disk) == {};
      SubsetSize(Outstanding(w), Slot(w.disk));
    }
  }

  /** `begin` does not check the challenge name, and the reader rejects an empty one: the
      file stays readable exactly when the name is not empty. */
  lemma BeginReadableIff(w: World, io: bool, op: Operation, write: Write)
    requires Inv(w)
    requires AfterBegin(w.poisoned, w.disk, io, op, write).disk.pending == Some(op) && w.disk.pending != Some(op)
    ensures Accepts(AfterBegin(w.poisoned, w.disk, io, op, write).disk) <==> op.challengeId != ""
  {
  }

  /** Whatever the providers do from here, the slot names what is outstanding. */
  ghost predicate StaysTruthful(w: World)
  {
    forall steps | G.CanRun(w.calls, steps) :: Truthful(w, steps)
  }

  ghost predicate Truthful(w: World, steps: seq<G.At>)
    requires G.CanRun(w.calls, steps)
  {
    Outstanding(w.(calls := G.Run(w.calls, steps))) <= Slot(w.disk)
  }

  /** A recovery, refused, failed or completed, keeps the slot truthful exactly when it
      leaves the slot or no request is still to be sent: no thread before its sending, no
      guarded call that may yet get its latch. */
  lemma RecoverySafeIff(w: World, e: Event)
    requires Inv(w) && w.leaked == {} && e.Recover?
    ensures StaysTruthful(Next(w, e)) <==> Slot(Next(w, e).disk) == Slot(w.disk) || Quiet(w)
  {
    if Exclusive(w, e) {
      RecoverKeepsInv(w, e);
      InvStaysTruthful(Next(w, e));
    } else {
      var op :| G.Sendable(w.calls, op);
      var steps := LiveIsLost(w, e, op);
      assert !Truthful(Next(w, e), steps);
    }
  }

  lemma StaysInSlot(w: World, steps: seq<G.At>, op: OpId)
    requires Inv(w) && w.leaked == {} && G.CanRun(w.calls, steps)
    requires InFlight(w.(calls := G.Run(w.calls, steps)), op)
    ensures op in Slot(w.disk)
  {
    G.RunShrinks(w.calls, steps, op);
    assert G.Sendable(w.calls, op) || InFlight(w, op);
  }

  lemma InvStaysTruthful(w: World)
    requires Inv(w) && w.leaked == {}
    ensures StaysTruthful(w)
  {
    forall steps | G.CanRun(w.calls, steps) ensures Truthful(w, steps) {
      forall op | op in Outstanding(w.(calls := G.Run(w.calls, steps))) ensures op in Slot(w.disk) { StaysInSlot(w, steps, op); }
    }
  }

  lemma LiveIsLost(w: World, e: Event, op: OpId) returns (steps: seq<G.At>)
    requires Inv(w) && EmptiesSlot(w, e) && G.Sendable(w.calls, op)
    ensures G.CanRun(Next(w, e).calls, steps) && op in Outstanding(Next(w, e).(calls := G.Run(w.calls, steps)))
    ensures Slot(Next(w, e).disk) == {}
  {
    steps := G.SendableIsSent(w.calls, op);
    G.RunShrinks(w.calls, steps, op);
    RecoveryRecovers(w, e);
    assert op in Slot(w.disk) && op !in w.attested;
  }

  /** A begin with an empty challenge name succeeds from a fresh ledger and leaves a file
      the next process rejects. */
  lemma EmptyNameIsUnreadable(op: Operation, binding: Digest, provider: G.ProviderId)
    requires op.challengeId == ""
    ensures var w0, e := Initial(binding, {provider}), Begin(true, op, provider, Written);
            && Accepts(w0.disk) && Possible(w0, [e])
            && AfterBegin(w0.poisoned, w0.disk, true, op, Written).result.Some?
            && !Accepts(After(w0, [e]).disk)
  {
    var w0, e := Initial(binding, {provider}), Begin(true, op, provider, Written);
    G.StartKeepsInv({provider});
    BeginReadableIff(w0, true, op, Written);
    assert [e][1..] == [];
  }

  // ------------------------------------------------------------- the run that is lost

  function AtProviders(steps: seq<G.At>): seq<Event>
  {
    seq(|steps|, i requires 0 <= i < |steps| => AtProvider(steps[i].provider, steps[i].step))
  }

  lemma Prepend(w: World, e: Event, es: seq<Event>)
    requires Enabled(w, e) && Possible(Next(w, e), es)
    ensures Possible(w, [e] + es) && After(w, [e] + es) == After(Next(w, e), es)
  {
    assert ([e] + es)[1..] == es;
  }

  lemma {:induction false} StepsRun(w: World, steps: seq<G.At>)
    requires G.CanRun(w.calls, steps)
    ensures Possible(w, AtProviders(steps)) && After(w, AtProviders(steps)) == w.(calls := G.Run(w.calls, steps))
    decreases |steps|
  {
    if steps != [] {
      var e := AtProvider(steps[0].provider, steps[0].step);
      StepsRun(Next(w, e), steps[1..]);
      Prepend(w, e, AtProviders(steps[1..]));
      assert AtProviders(steps) == [e] + AtProviders(steps[1..]);
    }
  }

  ghost predicate LosesSlot(w0: World, es: seq<Event>)
  {
    Possible(w0, es) && !(Outstanding(After(w0, es)) <= Slot(After(w0, es).disk))
  }

  /** Such a run exists: begin, a recovery while the call is still to be made, and then the
      call is made and sent with the slot empty. */
  lemma LiveRecoveryLosesSlot(op: Operation, evidence: Evidence)
    requires op.challengeId != "" && EvidenceCovers(Some(evidence), Disk(0, Some(op), None, map[]), op.id)
    ensures exists es: seq<Event> :: LosesSlot(Initial(0, {0}), es)
  {
    var w0 := Initial(0, {0});
    var begin := Begin(true, op, 0, Written);
    var w1 := Next(w0, begin);
    var recover := Recover(true, op.id, Some(evidence), 0, Written, Written);
    G.StartKeepsInv({0});
    BeginKeepsInv(w0, begin);
    assert G.Sendable(w1.calls, op.id);
    var steps := LiveIsLost(w1, recover, op.id);
    var w2 := Next(w1, recover);
    StepsRun(w2, steps);
    Prepend(w1, recover, AtProviders(steps));
    Prepend(w0, begin, [recover] + AtProviders(steps));
    assert LosesSlot(w0, [begin] + ([recover] + AtProviders(steps)));
  }
}
