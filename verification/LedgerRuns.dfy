/** Whole runs of the bounded ledger: any interleaving of guarded callers, request threads,
    providers, failed reads and writes, crashes, restarts and operator recoveries. */
module LedgerRuns {
  import opened Basics
  import opened BoundedLedger
  import G = GuardedCalls
  import P = ProviderLatch

  /** `calls` is what the process runs; `past` what earlier processes had unanswered when
      they died; `attested` what accepted evidence says has ended; `leaked` the operations
      whose record was removed although their thread had escaped. */
  datatype World = World(disk: Disk, proc: Proc, issued: set<OpId>, calls: G.Calls, past: set<OpId>, attested: set<OpId>,
                         leaked: set<OpId>)

  datatype Event =
    | Begin(io: bool, op: OpId, provider: G.ProviderId, rec: Record, write: Write)
    | AtProvider(provider: G.ProviderId, step: P.Event)
    | Return(op: OpId, outcome: P.Outcome)
    | Settle(io: bool, op: OpId, write: Write)
    | Observe(io: bool)
    | Recover(io: bool, expected: map<OpId, Record>, evidence: Option<Evidence>, rawHash: Digest,
              wAudit: Write, wState: Write)
    | Restart(providers: set<G.ProviderId>)

  /** Fresh operation names; providers move as they can; a guarded call settles once it is
      back from `generate`. */
  predicate Enabled(w: World, e: Event)
  {
    match e
    case Begin(_, op, provider, _, _) => op !in w.issued && provider in w.calls.latches
    case AtProvider(provider, step) => G.CanStep(w.calls, provider, step)
    case Return(op, outcome) => G.CanReturn(w.calls, op, outcome)
    case Settle(_, op, _) => op in w.calls.open && !w.calls.open[op].InCall?
    case _ => true
  }

  /** The settling call of the guarded provider: finish, or block. */
  function Settled(w: World, io: bool, op: OpId, write: Write): Step<()>
  {
    if op in w.calls.open && w.calls.open[op].WillFinish? then AfterFinish(w.proc, w.disk, io, op, write)
    else AfterBlock(w.proc, w.disk, io, op, write)
  }

  /** A finish that removes the record of an operation whose thread escaped. */
  predicate FinishesEscaped(w: World, e: Event)
  {
    && e.Settle? && G.Escaped(w.calls, e.op) && e.op !in w.attested
    && e.op in w.disk.state.pending && e.op !in Settled(w, e.io, e.op, e.write).disk.state.pending
  }

  function Next(w: World, e: Event): World
    requires Enabled(w, e)
  {
    match e
    case Begin(io, op, provider, rec, write) =>
      var out := AfterBegin(w.proc, w.disk, io, op, rec, write);
      w.(disk := out.disk, proc := out.proc, issued := w.issued + {op},
         calls := if out.result.Done? then G.Opened(w.calls, op, provider) else w.calls)
    case AtProvider(provider, step) => w.(calls := G.Stepped(w.calls, provider, step))
    case Return(op, outcome) => w.(calls := G.Returned(w.calls, op, outcome))
    case Settle(io, op, write) =>
      var out := Settled(w, io, op, write);
      w.(disk := out.disk, proc := out.proc, calls := G.Closed(w.calls, op),
         leaked := if FinishesEscaped(w, e) then w.leaked + {op} else w.leaked)
    case Observe(io) => w.(proc := AfterRequireDispatchable(w.proc, w.disk, io).proc)
    case Recover(io, expected, evidence, rawHash, wAudit, wState) =>
      var out := AfterRecoverAll(w.proc, w.disk, io, expected, evidence, rawHash, wAudit, wState);
      var accepted := out.result.Done? || out.result == Raised(WriteFailed);
      w.(disk := out.disk, proc := out.proc, attested := if accepted then w.attested + w.disk.state.pending.Keys else w.attested)
    case Restart(providers) =>
      w.(proc := Start(w.disk), calls := G.Start(providers), past := w.past + Unanswered(w.calls))
  }

  function Unanswered(c: G.Calls): set<OpId> { set op | op in c.at && G.Unanswered(c, op) }

  /** Sent to the model, and not known to have ended. */
  function Outstanding(w: World): set<OpId> { w.past + Unanswered(w.calls) - w.attested }

  ghost predicate Possible(w: World, es: seq<Event>)
    decreases |es|
  {
    es == [] || (Enabled(w, es[0]) && Possible(Next(w, es[0]), es[1..]))
  }

  ghost function After(w: World, es: seq<Event>): World
    requires Possible(w, es)
    decreases |es|
  {
    if es == [] then w else After(Next(w, es[0]), es[1..])
  }

  function Initial(binding: Digest, maxInflight: int, providers: set<G.ProviderId>): World
  {
    var d := Disk(State(binding, maxInflight, map[], false, None), map[]);
    World(d, Start(d), {}, G.Start(providers), {}, {}, {})
  }

  // ------------------------------------------------------------------------ invariant

  ghost predicate LedgerInv(w: World)
  {
    && Accepts(w.disk)
    && w.proc.binding == w.disk.state.binding
    && w.proc.maxInflight == w.disk.state.maxInflight
    && (w.proc.poisoned || w.proc.startupPending ==> w.proc.fault)
    && (!w.proc.fault ==> !w.disk.state.blocked && w.disk.state.pending.Keys == w.proc.live)
  }

  ghost predicate NamesInv(w: World)
  {
    && w.calls.at.Keys <= w.issued && w.proc.live <= w.issued && w.disk.state.pending.Keys <= w.issued
    && w.past <= w.issued && w.past !! w.calls.at.Keys
  }

  /** Whatever may yet be sent is on disk and owned by a live call. */
  ghost predicate SendableInv(w: World)
  {
    forall op | G.Sendable(w.calls, op) :: op in w.proc.live && op in w.disk.state.pending
  }

  predicate InFlight(w: World, op: OpId) { (op in w.past || G.Unanswered(w.calls, op)) && op !in w.attested }

  ghost predicate OutstandingInv(w: World)
  {
    forall op | InFlight(w, op) :: op in w.disk.state.pending || op in w.leaked
  }

  ghost predicate LeakedInv(w: World)
  {
    && w.leaked <= w.issued
    && forall op | op in w.leaked ::
         op !in w.disk.state.pending && op !in w.attested && (op in w.past || G.Escaped(w.calls, op))
  }

  ghost predicate Inv(w: World)
  {
    LedgerInv(w) && NamesInv(w) && G.Inv(w.calls) && SendableInv(w) && OutstandingInv(w) && LeakedInv(w)
  }

  // ---------------------------------------------------- the ledger's operations alone

  lemma AcceptsAdded(d: Disk, op: OpId, rec: Record)
    requires Accepts(d) && op !in d.state.pending && ValidRecord(rec) && |d.state.pending| < d.state.maxInflight
    ensures Accepts(d.(state := d.state.(pending := d.state.pending[op := rec])))
    ensures d.state.pending[op := rec].Keys == d.state.pending.Keys + {op}
  {
  }

  lemma AcceptsRemoved(d: Disk, op: OpId)
    requires Accepts(d)
    ensures Accepts(d.(state := d.state.(pending := d.state.pending - {op})))
    ensures (d.state.pending - {op}).Keys == d.state.pending.Keys - {op}
  {
    SubsetSize((d.state.pending - {op}).Keys, d.state.pending.Keys);
  }

  /** `begin` adds at most its own operation, and hands it out only with its record. */
  lemma BeginAdds(w: World, io: bool, op: OpId, rec: Record, write: Write)
    requires LedgerInv(w) && NamesInv(w) && op !in w.issued
    ensures var out := AfterBegin(w.proc, w.disk, io, op, rec, write);
            && LedgerInv(w.(disk := out.disk, proc := out.proc))
            && w.disk.state.pending.Keys <= out.disk.state.pending.Keys <= w.disk.state.pending.Keys + {op}
            && w.proc.live <= out.proc.live <= w.proc.live + {op}
            && (out.result.Done? ==> op in out.proc.live && op in out.disk.state.pending)
  {
    if AfterBegin(w.proc, w.disk, io, op, rec, write).disk != w.disk {
      AcceptsAdded(w.disk, op, rec);
    }
  }

  lemma FinishRemoves(w: World, io: bool, op: OpId, write: Write)
    requires LedgerInv(w)
    ensures var out := AfterFinish(w.proc, w.disk, io, op, write);
            && LedgerInv(w.(disk := out.disk, proc := out.proc))
            && w.disk.state.pending.Keys - {op} <= out.disk.state.pending.Keys <= w.disk.state.pending.Keys
            && w.proc.live - {op} <= out.proc.live <= w.proc.live
  {
    AcceptsRemoved(w.disk, op);
  }

  lemma BlockKeeps(w: World, io: bool, op: OpId, write: Write)
    requires LedgerInv(w)
    ensures var out := AfterBlock(w.proc, w.disk, io, op, write);
            && LedgerInv(w.(disk := out.disk, proc := out.proc))
            && out.disk.state.pending == w.disk.state.pending && out.proc.live == w.proc.live
  {
  }

  /** The audit a recovery of this world files, and the disk with it. */
  function Filed(w: World, e: Event): Disk
    requires e.Recover? && e.evidence.Some?
  {
    var id := RecoveryId(w.proc.binding, w.proc.maxInflight, w.disk.state.pending);
    w.disk.(audits := w.disk.audits[id := Audit(id, w.proc.binding, w.disk.state.pending, e.evidence.value, e.rawHash)])
  }

  /** A recovery leaves the disk alone, files its audit, or files it and clears. */
  lemma RecoverWrites(w: World, e: Event)
    requires e.Recover?
    ensures var d := Next(w, e).disk;
            d == w.disk
            || (&& EvidenceCovers(e.evidence, w.proc, w.disk.state) && w.disk.state.pending != map[]
                && var id := RecoveryId(w.proc.binding, w.proc.maxInflight, w.disk.state.pending);
                && var filed := Filed(w, e);
                && (id in w.disk.audits ==> filed == w.disk)
                && (d == filed || d == filed.(state := w.disk.state.(pending := map[], blocked := false, lastRecovery := Some(id)))))
  {
    var id := RecoveryId(w.proc.binding, w.proc.maxInflight, w.disk.state.pending);
    if e.evidence.Some? && id in w.disk.audits && w.disk.audits[id] == Filed(w, e).audits[id] {
      assert Filed(w, e).audits == w.disk.audits;
    }
  }

  lemma RecoverKeepsDisk(w: World, e: Event)
    requires LedgerInv(w) && e.Recover?
    ensures Accepts(Next(w, e).disk)
    ensures Next(w, e).disk.state.binding == w.disk.state.binding && Next(w, e).disk.state.maxInflight == w.disk.state.maxInflight
  {
    RecoverWrites(w, e);
  }

  function Recovered(w: World, e: Event): Step<()>
    requires e.Recover?
  {
    AfterRecoverAll(w.proc, w.disk, e.io, e.expected, e.evidence, e.rawHash, e.wAudit, e.wState)
  }

  predicate AcceptedEvidence(w: World, e: Event)
    requires e.Recover?
  {
    Recovered(w, e).result.Done? || Recovered(w, e).result == Raised(WriteFailed)
  }

  /** Evidence is accepted only without live calls; otherwise the disk stays as it is. */
  lemma RecoverNeedsQuiet(w: World, e: Event)
    requires e.Recover?
    ensures AcceptedEvidence(w, e) ==> w.proc.live == {}
    ensures !AcceptedEvidence(w, e) ==> Recovered(w, e).disk == w.disk
    ensures Recovered(w, e).proc.live == w.proc.live
  {
  }

  lemma RecoverClears(w: World, e: Event)
    requires e.Recover? && Recovered(w, e).result.Done?
    ensures var out := Recovered(w, e);
            && out.proc == w.proc.(startupPending := false, poisoned := false, fault := false)
            && out.disk.state.pending == map[] && !out.disk.state.blocked
  {
  }

  lemma RecoverFails(w: World, e: Event)
    requires e.Recover? && !Recovered(w, e).result.Done?
    ensures var out := Recovered(w, e);
            || (out.proc == w.proc && out.disk.state == w.disk.state)
            || out.proc == w.proc.(fault := true) || out.proc == w.proc.(poisoned := true, fault := true)
  {
  }

  lemma RecoverKeepsLedger(w: World, e: Event)
    requires LedgerInv(w) && e.Recover?
    ensures LedgerInv(Next(w, e))
    ensures Next(w, e).disk.state.pending == w.disk.state.pending || Next(w, e).disk.state.pending == map[]
  {
    var w' := Next(w, e);
    RecoverKeepsDisk(w, e);
    RecoverWrites(w, e);
    RecoverNeedsQuiet(w, e);
    assert w'.disk == Recovered(w, e).disk && w'.proc == Recovered(w, e).proc;
    if Recovered(w, e).result.Done? { RecoverClears(w, e); } else { RecoverFails(w, e); }
  }

  // -------------------------------------------------------- the invariant, by event

  lemma BeginOpens(w: World, e: Event)
    requires G.Inv(w.calls) && w.calls.at.Keys <= w.issued && e.Begin? && Enabled(w, e)
    ensures G.Inv(Next(w, e).calls)
    ensures forall op :: G.CallOf(Next(w, e).calls, op) == G.CallOf(w.calls, op)
    ensures forall op | G.Sendable(Next(w, e).calls, op) :: G.Sendable(w.calls, op) || (op == e.op && Next(w, e).calls != w.calls)
  {
    G.OpenKeepsInv(w.calls, e.op, e.provider);
    forall op ensures G.CallOf(G.Opened(w.calls, e.op, e.provider), op) == G.CallOf(w.calls, op)
              ensures G.Sendable(G.Opened(w.calls, e.op, e.provider), op) ==> op == e.op || G.Sendable(w.calls, op)
    {
      G.OpenSame(w.calls, e.op, e.provider, op);
    }
  }

  /** The effect of `begin` on the rest: at most its own record and entry are added. */
  lemma OneAdded(w: World, w': World, op: OpId)
    requires SendableInv(w) && OutstandingInv(w) && LeakedInv(w) && NamesInv(w) && op !in w.issued
    requires w'.past == w.past && w'.attested == w.attested && w'.leaked == w.leaked && w'.issued == w.issued + {op}
    requires forall o :: G.CallOf(w'.calls, o) == G.CallOf(w.calls, o)
    requires forall o | G.Sendable(w'.calls, o) :: G.Sendable(w.calls, o) || (o == op && op in w'.proc.live && op in w'.disk.state.pending)
    requires w.disk.state.pending.Keys <= w'.disk.state.pending.Keys <= w.disk.state.pending.Keys + {op} && w.proc.live <= w'.proc.live
    ensures SendableInv(w') && OutstandingInv(w') && LeakedInv(w')
  {
    forall o | InFlight(w', o) ensures o in w'.disk.state.pending || o in w'.leaked {
      assert InFlight(w, o);
    }
  }

  lemma BeginKeepsInv(w: World, e: Event)
    requires Inv(w) && e.Begin? && Enabled(w, e)
    ensures Inv(Next(w, e))
  {
    BeginAdds(w, e.io, e.op, e.rec, e.write);
    BeginOpens(w, e);
    OneAdded(w, Next(w, e), e.op);
  }

  lemma StepKeepsCalls(w: World, e: Event)
    requires Inv(w) && e.AtProvider? && Enabled(w, e)
    ensures Inv(Next(w, e))
  {
    var w' := Next(w, e);
    G.StepKeepsInv(w.calls, e.provider, e.step);
    forall op ensures G.Sendable(w'.calls, op) ==> G.Sendable(w.calls, op)
              ensures G.Unanswered(w'.calls, op) ==> G.Unanswered(w.calls, op) || G.Sendable(w.calls, op)
              ensures G.Escaped(w.calls, op) ==> G.Escaped(w'.calls, op)
    {
      G.StepShrinks(w.calls, e.provider, e.step, op);
    }
  }

  lemma ReturnKeepsInv(w: World, e: Event)
    requires Inv(w) && e.Return? && Enabled(w, e)
    ensures Inv(Next(w, e))
  {
    var w' := Next(w, e);
    G.ReturnKeepsInv(w.calls, e.op, e.outcome);
    forall op ensures G.CallOf(w'.calls, op) == G.CallOf(w.calls, op) && (G.Sendable(w'.calls, op) ==> G.Sendable(w.calls, op)) {
      G.SameCalls(w.calls, w'.calls.open, op);
    }
  }

  lemma SettleCloses(w: World, e: Event)
    requires G.Inv(w.calls) && e.Settle? && Enabled(w, e)
    ensures G.Inv(Next(w, e).calls)
    ensures forall op :: G.CallOf(Next(w, e).calls, op) == G.CallOf(w.calls, op)
                         && (G.Sendable(Next(w, e).calls, op) ==> G.Sendable(w.calls, op))
  {
    var w' := Next(w, e);
    G.CloseKeepsInv(w.calls, e.op);
    forall op ensures G.CallOf(w'.calls, op) == G.CallOf(w.calls, op) && (G.Sendable(w'.calls, op) ==> G.Sendable(w.calls, op)) {
      G.SameCalls(w.calls, w'.calls.open, op);
    }
  }

  /** The effect of a settling call on the rest: at most its own record and entry go. */
  lemma OneRemoved(w: World, w': World, op: OpId)
    requires SendableInv(w) && OutstandingInv(w) && LeakedInv(w) && NamesInv(w) && op in w.calls.at
    requires w'.past == w.past && w'.attested == w.attested && w'.issued == w.issued
    requires forall o :: G.CallOf(w'.calls, o) == G.CallOf(w.calls, o) && (G.Sendable(w'.calls, o) ==> G.Sendable(w.calls, o))
    requires w.disk.state.pending.Keys - {op} <= w'.disk.state.pending.Keys <= w.disk.state.pending.Keys
    requires w.proc.live - {op} <= w'.proc.live
    requires !G.Sendable(w.calls, op) && (G.Unanswered(w.calls, op) <==> G.Escaped(w.calls, op)) && op !in w.past
    requires w'.leaked == if G.Escaped(w.calls, op) && op !in w.attested && op in w.disk.state.pending && op !in w'.disk.state.pending
                          then w.leaked + {op} else w.leaked
    ensures SendableInv(w') && OutstandingInv(w') && LeakedInv(w')
  {
    forall o | InFlight(w', o) ensures o in w'.disk.state.pending || o in w'.leaked {
      assert InFlight(w, o);
    }
  }

  lemma FinishKeepsInv(w: World, e: Event)
    requires Inv(w) && e.Settle? && Enabled(w, e) && w.calls.open[e.op].WillFinish?
    ensures Inv(Next(w, e))
  {
    SettleCloses(w, e);
    FinishRemoves(w, e.io, e.op, e.write);
    G.FinishedIsOverIff(w.calls, e.op);
    OneRemoved(w, Next(w, e), e.op);
  }

  lemma BlockKeepsInv(w: World, e: Event)
    requires Inv(w) && e.Settle? && Enabled(w, e) && !w.calls.open[e.op].WillFinish?
    ensures Inv(Next(w, e))
  {
    SettleCloses(w, e);
    BlockKeeps(w, e.io, e.op, e.write);
  }

  lemma RecoverKeepsInv(w: World, e: Event)
    requires Inv(w) && e.Recover?
    ensures Inv(Next(w, e))
  {
    RecoverKeepsLedger(w, e);
    RecoverNeedsQuiet(w, e);
  }

  lemma RestartKeepsInv(w: World, e: Event)
    requires Inv(w) && e.Restart?
    ensures Inv(Next(w, e))
  {
    G.StartKeepsInv(e.providers);
  }

  lemma StepKeepsInv(w: World, e: Event)
    requires Inv(w) && Enabled(w, e)
    ensures Inv(Next(w, e))
  {
    match e
    case Begin(_, _, _, _, _) => BeginKeepsInv(w, e);
    case AtProvider(_, _) => StepKeepsCalls(w, e);
    case Return(_, _) => ReturnKeepsInv(w, e);
    case Settle(_, op, _) => if w.calls.open[op].WillFinish? { FinishKeepsInv(w, e); } else { BlockKeepsInv(w, e); }
    case Observe(_) =>
    case Recover(_, _, _, _, _, _) => RecoverKeepsInv(w, e);
    case Restart(_) => RestartKeepsInv(w, e);
  }

  lemma {:induction false} RunKeepsInv(w: World, es: seq<Event>)
    requires Inv(w) && Possible(w, es)
    ensures Inv(After(w, es))
    decreases |es|
  {
    if es != [] {
      StepKeepsInv(w, es[0]);
      RunKeepsInv(Next(w, es[0]), es[1..]);
    }
  }

  lemma StartIsInv(binding: Digest, maxInflight: int, providers: set<G.ProviderId>)
    requires 1 <= maxInflight <= 32
    ensures Inv(Initial(binding, maxInflight, providers))
  {
    G.StartKeepsInv(providers);
  }

  // ------------------------------------------------------------------ main results

  /** No step of the run is a finish that removes the record of an escaped call. */
  ghost predicate NeverFinishesEscaped(w: World, es: seq<Event>)
    requires Possible(w, es)
    decreases |es|
  {
    es == [] || (!FinishesEscaped(w, es[0]) && NeverFinishesEscaped(Next(w, es[0]), es[1..]))
  }

  lemma {:induction false} LeaksAreFinishes(w: World, es: seq<Event>)
    requires Possible(w, es)
    ensures After(w, es).leaked == {} <==> w.leaked == {} && NeverFinishesEscaped(w, es)
    decreases |es|
  {
    if es != [] { LeaksAreFinishes(Next(w, es[0]), es[1..]); }
  }

  /** Over every run, what is outstanding without a record is what escaped finishes lost. */
  lemma LostRecords(binding: Digest, maxInflight: int, providers: set<G.ProviderId>, es: seq<Event>)
    requires 1 <= maxInflight <= 32 && Possible(Initial(binding, maxInflight, providers), es)
    ensures var w := After(Initial(binding, maxInflight, providers), es);
            Outstanding(w) - w.disk.state.pending.Keys == w.leaked
  {
    var w0 := Initial(binding, maxInflight, providers);
    StartIsInv(binding, maxInflight, providers);
    RunKeepsInv(w0, es);
    var w := After(w0, es);
    forall op ensures op in Outstanding(w) - w.disk.state.pending.Keys <==> op in w.leaked {
      assert op in Outstanding(w) <==> InFlight(w, op);
    }
  }

  /** Write-ahead safety: whatever was sent and is not known to have ended is on disk, and
      within the capacity, in exactly the runs without a finish of an escaped call. */
  lemma WriteAheadSafetyIff(binding: Digest, maxInflight: int, providers: set<G.ProviderId>, es: seq<Event>)
    requires 1 <= maxInflight <= 32 && Possible(Initial(binding, maxInflight, providers), es)
    ensures var w0 := Initial(binding, maxInflight, providers);
            var w := After(w0, es);
            && (Outstanding(w) <= w.disk.state.pending.Keys <==> NeverFinishesEscaped(w0, es))
            && (NeverFinishesEscaped(w0, es) ==> |Outstanding(w)| <= maxInflight)
  {
    var w0 := Initial(binding, maxInflight, providers);
    var w := After(w0, es);
    StartIsInv(binding, maxInflight, providers);
    RunKeepsInv(w0, es);
    CapacityIsFixed(w0, es);
    LeaksAreFinishes(w0, es);
    LostRecords(binding, maxInflight, providers, es);
    if w.leaked == {} {
      assert Outstanding(w) - w.disk.state.pending.Keys == {};
      SubsetSize(Outstanding(w), w.disk.state.pending.Keys);
    }
  }

  // ----------------------------------------------------------- the run that is lost

  function AtProviders(steps: seq<G.At>): seq<Event>
  {
    seq(|steps|, i requires 0 <= i < |steps| => AtProvider(steps[i].provider, steps[i].step))
  }

  lemma Prepend(w: World, e: Event, es: seq<Event>)
    requires Enabled(w, e) && Possible(Next(w, e), es)
    ensures Possible(w, [e] + es) && After(w, [e] + es) == After(Next(w, e), es)
  {
    assert ([e] + es)[1..] == es;
  }

  /** Steps of the providers are a run of the world, before any other. */
  lemma {:induction false} StepsRun(w: World, steps: seq<G.At>, rest: seq<Event>)
    requires G.CanRun(w.calls, steps) && Possible(w.(calls := G.Run(w.calls, steps)), rest)
    ensures Possible(w, AtProviders(steps) + rest)
    ensures After(w, AtProviders(steps) + rest) == After(w.(calls := G.Run(w.calls, steps)), rest)
    decreases |steps|
  {
    if steps == [] {
      assert AtProviders(steps) + rest == rest;
      assert w.(calls := w.calls) == w;
    } else {
      var e := AtProvider(steps[0].provider, steps[0].step);
      StepsRun(Next(w, e), steps[1..], rest);
      Prepend(w, e, AtProviders(steps[1..]) + rest);
      assert AtProviders(steps) + rest == [e] + (AtProviders(steps[1..]) + rest);
    }
  }

  ghost predicate LosesRecord(w0: World, es: seq<Event>)
  {
    Possible(w0, es) && !(Outstanding(After(w0, es)) <= After(w0, es).disk.state.pending.Keys)
  }

  /** The world after one begin, under provider 0. */
  lemma OneBegun(rec: Record)
    requires ValidRecord(rec)
    ensures var w0, begin := Initial(0, 1, {0}), Begin(true, 0, 0, rec, Written);
            && Enabled(w0, begin)
            && var w := Next(w0, begin);
            && LedgerInv(w) && !w.proc.fault && w.disk.state.pending == map[0 := rec] && w.attested == {}
            && w.calls == G.Opened(G.Start({0}), 0, 0)
  {
    var w0 := Initial(0, 1, {0});
    assert w0.disk.state.pending[0 := rec] == map[0 := rec];
  }

  lemma EscapedSteps() returns (steps: seq<G.At>)
    ensures var c := G.Opened(G.Start({0}), 0, 0);
            && G.CanRun(c, steps)
            && var c' := G.Run(c, steps);
            && G.Inside(c', 0, 0) && 0 in c'.latches && P.BrokenByEscape(c'.latches[0])
  {
    var c := G.Opened(G.Start({0}), 0, 0);
    P.EscapeOpensLatch();
    var es: seq<P.Event> :| P.Possible(P.Idle, es) && P.BrokenByEscape(P.After(P.Idle, es)) && P.OneCall(es, 0);
    G.OneProvider(c, 0, es);
    steps := G.AtOne(0, es);
  }

  /** Such a run exists: one begin, one request whose thread escapes, one finish. */
  lemma EscapedFinishLosesRecord(rec: Record)
    requires ValidRecord(rec)
    ensures exists es: seq<Event> :: LosesRecord(Initial(0, 1, {0}), es)
  {
    var w0, begin := Initial(0, 1, {0}), Begin(true, 0, 0, rec, Written);
    OneBegun(rec);
    var w1 := Next(w0, begin);
    var steps := EscapedSteps();
    var rest := [Return(0, P.ContractFailed), Settle(true, 0, Written)];
    FinishLoses(w1.(calls := G.Run(w1.calls, steps)), rec);
    StepsRun(w1, steps, rest);
    Prepend(w0, begin, AtProviders(steps) + rest);
    assert LosesRecord(w0, [begin] + (AtProviders(steps) + rest));
  }

  lemma FinishLoses(w: World, rec: Record)
    requires LedgerInv(w) && !w.proc.fault && w.disk.state.pending == map[0 := rec] && w.attested == {}
    requires G.Inside(w.calls, 0, 0) && 0 in w.calls.latches && P.BrokenByEscape(w.calls.latches[0])
    ensures LosesRecord(w, [Return(0, P.ContractFailed), Settle(true, 0, Written)])
  {
    var back, settle := Return(0, P.ContractFailed), Settle(true, 0, Written);
    var w1 := Next(w, back);
    var w2 := Next(w1, settle);
    assert G.Unanswered(w2.calls, 0);
    assert 0 in Outstanding(w2) && 0 !in w2.disk.state.pending;
    Prepend(w1, settle, []);
    Prepend(w, back, [settle]);
    assert [back, settle] == [back] + ([settle] + []);
  }

  lemma StepKeepsCapacity(w: World, e: Event)
    requires Enabled(w, e)
    ensures Next(w, e).disk.state.maxInflight == w.disk.state.maxInflight
  {
    match e
    case Begin(io, op, _, rec, write) =>
      assert AfterBegin(w.proc, w.disk, io, op, rec, write).disk.state.maxInflight == w.disk.state.maxInflight;
    case Settle(io, op, write) =>
      assert Settled(w, io, op, write).disk.state.maxInflight == w.disk.state.maxInflight;
    case Recover(_, _, _, _, _, _) => RecoverWrites(w, e);
    case _ =>
  }

  lemma {:induction false} CapacityIsFixed(w: World, es: seq<Event>)
    requires Possible(w, es)
    ensures After(w, es).disk.state.maxInflight == w.disk.state.maxInflight
    decreases |es|
  {
    if es != [] {
      StepKeepsCapacity(w, es[0]);
      CapacityIsFixed(Next(w, es[0]), es[1..]);
    }
  }

  /** The reader accepts the files every crash point leaves, so a restart can always start. */
  lemma FilesAlwaysReadable(binding: Digest, maxInflight: int, providers: set<G.ProviderId>, es: seq<Event>)
    requires 1 <= maxInflight <= 32 && Possible(Initial(binding, maxInflight, providers), es)
    ensures var w := After(Initial(binding, maxInflight, providers), es);
            Accepts(w.disk) && Readable(Start(w.disk), w.disk, true)
  {
    StartIsInv(binding, maxInflight, providers);
    RunKeepsInv(Initial(binding, maxInflight, providers), es);
  }

  /** When `begin` hands out an operation, exactly, in any reachable world. */
  lemma GateIsExact(w: World, io: bool, op: OpId, rec: Record, write: Write)
    requires LedgerInv(w)
    ensures AfterBegin(w.proc, w.disk, io, op, rec, write).result == Done(op)
       <==> ValidRecord(rec) && io && !w.proc.fault && |w.disk.state.pending| < w.proc.maxInflight && write.Written?
    ensures AfterBegin(w.proc, w.disk, io, op, rec, write).result.Done? ==> w.disk.state.pending.Keys == w.proc.live
  {
  }

  predicate ClearsFault(w: World, e: Event)
  {
    e.Restart? || (e.Recover? && AfterRecoverAll(w.proc, w.disk, e.io, e.expected, e.evidence, e.rawHash, e.wAudit, e.wState).result.Done?)
  }

  ghost predicate NeverCleared(w: World, es: seq<Event>)
    requires Possible(w, es)
    decreases |es|
  {
    es == [] || (!ClearsFault(w, es[0]) && NeverCleared(Next(w, es[0]), es[1..]))
  }

  /** After a fault, in one process and without a completed recovery, no begin succeeds. */
  lemma {:induction false} FaultShutsGate(w: World, es: seq<Event>, io: bool, op: OpId, rec: Record, write: Write)
    requires Possible(w, es) && w.proc.fault && NeverCleared(w, es)
    ensures After(w, es).proc.fault
    ensures AfterBegin(After(w, es).proc, After(w, es).disk, io, op, rec, write).result.Raised?
    decreases |es|
  {
    if es != [] {
      FaultStays(w, es[0]);
      FaultShutsGate(Next(w, es[0]), es[1..], io, op, rec, write);
    }
  }

  lemma FaultStays(w: World, e: Event)
    requires Enabled(w, e) && w.proc.fault && !ClearsFault(w, e)
    ensures Next(w, e).proc.fault
  {
    match e
    case Begin(io, op, _, rec, write) => assert AfterBegin(w.proc, w.disk, io, op, rec, write).proc.fault;
    case _ =>
  }

  /** A finish or block for an operation this process does not own with its record. */
  predicate Unexpected(w: World, e: Event)
  {
    e.Settle? && (e.op !in w.proc.live || e.op !in w.disk.state.pending)
  }

  /** Every incident raises the fault: a dispatch check or `begin` refused for other reasons
      than its argument or a full ledger, an unreadable file, a block, an unexpected or failed
      completion, and starting on a ledger that is blocked or still has records. */
  lemma IncidentsFault(w: World, e: Event)
    requires LedgerInv(w) && Enabled(w, e)
    requires || (e.Begin? && AfterBegin(w.proc, w.disk, e.io, e.op, e.rec, e.write).result in
                   {Raised(WriteFailed), Raised(Unreadable), Raised(RecoveryRequired)})
             || (e.Observe? && AfterRequireDispatchable(w.proc, w.disk, e.io).result.Raised?)
             || (e.Settle? && (!w.calls.open[e.op].WillFinish? || !e.io || !e.write.Written? || Unexpected(w, e)))
             || (e.Restart? && (w.disk.state.pending != map[] || w.disk.state.blocked))
             || (e.Recover? && w.proc.live == {} && !e.io)
    ensures Next(w, e).proc.fault
  {
  }

  /** Audits are append-only. */
  lemma AuditsStay(w: World, e: Event)
    requires Enabled(w, e)
    ensures forall id | id in w.disk.audits :: id in Next(w, e).disk.audits && Next(w, e).disk.audits[id] == w.disk.audits[id]
  {
    if e.Recover? { RecoverWrites(w, e); } else { OnlyRecoveryFiles(w, e); }
  }

  lemma OnlyRecoveryFiles(w: World, e: Event)
    requires Enabled(w, e) && !e.Recover?
    ensures Next(w, e).disk.audits == w.disk.audits
  {
  }

  lemma ClearedByRecovery(w: World, e: Event, op: OpId)
    requires e.Recover? && op in w.disk.state.pending && op !in Next(w, e).disk.state.pending
    ensures var id := RecoveryId(w.proc.binding, w.proc.maxInflight, w.disk.state.pending);
            && id in Next(w, e).disk.audits
            && AuditMatches(Next(w, e).disk.audits[id], w.disk.state, id)
            && Next(w, e.(wState := FailedOld)).disk == Disk(w.disk.state, Next(w, e).disk.audits)
  {
    RecoverWrites(w, e);
  }

  lemma OnlyOwnFinishRemoves(w: World, e: Event, op: OpId)
    requires LedgerInv(w) && NamesInv(w) && Enabled(w, e) && !e.Recover? && op in w.disk.state.pending && op !in Next(w, e).disk.state.pending
    ensures e.Settle? && e.op == op && w.calls.open[op].WillFinish?
  {
    match e
    case Begin(io, o, _, rec, write) => BeginAdds(w, io, o, rec, write);
    case Settle(io, o, write) =>
      if w.calls.open[o].WillFinish? { FinishRemoves(w, io, o, write); } else { BlockKeeps(w, io, o, write); }
    case _ =>
  }

  /** A record leaves `pending` only through its own finish, with the request over unless its
      thread escaped, or a recovery whose audit, covering all of it, was already on disk
      before that write. */
  lemma AuditBeforeClearing(w: World, e: Event, op: OpId)
    requires LedgerInv(w) && NamesInv(w) && G.Inv(w.calls) && Enabled(w, e) && op in w.disk.state.pending && op !in Next(w, e).disk.state.pending
    ensures || (&& e.Settle? && e.op == op && w.calls.open[op].WillFinish? && !G.Sendable(w.calls, op)
                && (G.Unanswered(w.calls, op) <==> G.Escaped(w.calls, op)))
            || (&& e.Recover?
                && var id := RecoveryId(w.proc.binding, w.proc.maxInflight, w.disk.state.pending);
                && id in Next(w, e).disk.audits
                && AuditMatches(Next(w, e).disk.audits[id], w.disk.state, id)
                && Next(w, e.(wState := FailedOld)).disk == Disk(w.disk.state, Next(w, e).disk.audits))
  {
    if e.Recover? {
      ClearedByRecovery(w, e, op);
    } else {
      OnlyOwnFinishRemoves(w, e, op);
      G.FinishedIsOverIff(w.calls, op);
    }
  }

  lemma {:induction false} AuditsAreForever(w: World, es: seq<Event>, id: RecoveryId)
    requires Possible(w, es) && id in w.disk.audits
    ensures id in After(w, es).disk.audits && After(w, es).disk.audits[id] == w.disk.audits[id]
    decreases |es|
  {
    if es != [] {
      AuditsStay(w, es[0]);
      AuditsAreForever(Next(w, es[0]), es[1..], id);
    }
  }

  /** An interrupted recovery can be resumed, with the same evidence and no other: `w` is
      a world whose audit is filed but whose pending set is not yet cleared. */
  lemma RecoveryResumes(w: World, filed: Audit, e: Event)
    requires LedgerInv(w) && w.proc.live == {} && w.disk.state.pending != map[]
    requires var id := RecoveryId(w.proc.binding, w.proc.maxInflight, w.disk.state.pending);
             filed.id == id && id in w.disk.audits && w.disk.audits[id] == filed
    requires filed.binding == w.proc.binding && filed.pending == w.disk.state.pending
    requires e.Recover? && e.io && e.expected == w.disk.state.pending && e.wState.Written?
    requires EvidenceCovers(e.evidence, w.proc, w.disk.state)
    ensures e.evidence.value == filed.evidence && e.rawHash == filed.rawHash
       <==> Next(w, e).disk.state.pending == map[]
    ensures Next(w, e).disk.state.pending == map[] ==> Dispatchable(Next(w, e).proc, Next(w, e).disk)
    ensures Next(w, e).disk.audits == w.disk.audits
  {
    assert w.disk.audits == w.disk.audits[filed.id := filed];
  }
}
