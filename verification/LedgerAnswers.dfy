/** What the bounded ledger's operations answer and leave behind, in any world a run can
    reach: when a record is handed out, kept, given back and cleared. */
module LedgerAnswers {
  import opened Basics
  import opened BoundedLedger
  import opened LedgerRuns
  import G = GuardedCalls
  import P = ProviderLatch

  // ------------------------------------------------------------------------ the records

  /** The run holds the begin that gave this operation this record. */
  predicate BegunWith(es: seq<Event>, op: OpId, rec: Record)
  {
    exists i | 0 <= i < |es| :: es[i].Begin? && es[i].op == op && es[i].rec == rec
  }

  predicate Keeps(w: World, w': World, op: OpId)
  {
    op in w.disk.state.pending && op in w'.disk.state.pending && w'.disk.state.pending[op] == w.disk.state.pending[op]
  }

  lemma BeginRecords(w: World, e: Event, op: OpId)
    requires e.Begin? && Enabled(w, e) && op in Next(w, e).disk.state.pending
    ensures Keeps(w, Next(w, e), op) || (e.op == op && e.rec == Next(w, e).disk.state.pending[op])
  {
    assert Next(w, e).disk == AfterBegin(w.proc, w.disk, e.io, e.op, e.rec, e.write).disk;
  }

  lemma SettleRecords(w: World, e: Event, op: OpId)
    requires e.Settle? && Enabled(w, e) && op in Next(w, e).disk.state.pending
    ensures Keeps(w, Next(w, e), op)
  {
    assert Next(w, e).disk == Settled(w, e.io, e.op, e.write).disk;
  }

  lemma StepRecords(w: World, e: Event, op: OpId)
    requires Enabled(w, e) && op in Next(w, e).disk.state.pending
    ensures Keeps(w, Next(w, e), op) || (e.Begin? && e.op == op && e.rec == Next(w, e).disk.state.pending[op])
  {
    if e.Begin? { BeginRecords(w, e, op); }
    else if e.Settle? { SettleRecords(w, e, op); }
    else if e.Recover? { RecoverWrites(w, e); }
  }

  /** Every record on disk is the one its operation was begun with. */
  lemma {:induction false} RecordsAreThoseBegun(w: World, es: seq<Event>, op: OpId)
    requires Possible(w, es) && op in After(w, es).disk.state.pending
    ensures Keeps(w, After(w, es), op) || BegunWith(es, op, After(w, es).disk.state.pending[op])
    decreases |es|
  {
    if es != [] {
      var w1, rest, rec := Next(w, es[0]), es[1..], After(w, es).disk.state.pending[op];
      RecordsAreThoseBegun(w1, rest, op);
      if BegunWith(rest, op, rec) {
        var i :| 0 <= i < |rest| && rest[i].Begin? && rest[i].op == op && rest[i].rec == rec;
        assert es[i + 1] == rest[i];
      } else {
        StepRecords(w, es[0], op);
      }
    }
  }

  // ----------------------------------------------------------------------- the incidents

  /** The process has seen an incident, or the file says one happened. */
  predicate AtIncident(w: World) { w.proc.fault || w.proc.poisoned || w.disk.state.blocked }

  /** After an incident a finish writes nothing, and a block removes no record. */
  lemma IncidentSettlesNothing(w: World, e: Event)
    requires Enabled(w, e) && e.Settle? && AtIncident(w)
    ensures w.calls.open[e.op].WillFinish? ==> Next(w, e).disk == w.disk
    ensures Next(w, e).disk.state.pending == w.disk.state.pending
  {
  }

  /** No step of the run is a recovery whose evidence was accepted. */
  ghost predicate NoEvidence(w: World, es: seq<Event>)
    requires Possible(w, es)
    decreases |es|
  {
    es == [] || (!(es[0].Recover? && AcceptedEvidence(w, es[0])) && NoEvidence(Next(w, es[0]), es[1..]))
  }

  lemma IncidentStep(w: World, e: Event, op: OpId)
    requires LedgerInv(w) && Enabled(w, e) && w.proc.fault && op in w.disk.state.pending
    requires e.Recover? ==> !AcceptedEvidence(w, e)
    ensures Next(w, e).proc.fault && Keeps(w, Next(w, e), op)
    ensures w.disk.state.blocked ==> Next(w, e).disk.state.blocked
  {
    if e.Recover? {
      RecoverNeedsQuiet(w, e);
    } else if e.Settle? {
      IncidentSettlesNothing(w, e);
    } else if e.Begin? {
      assert AfterBegin(w.proc, w.disk, e.io, e.op, e.rec, e.write).disk == w.disk;
    }
    if !e.Restart? { FaultStays(w, e); }
  }

  /** Once a process is at fault no record leaves, over finishes, crashes and restarts, until
      evidence is accepted, and the evidence then accepted names every one of them. */
  lemma {:induction false} IncidentKeepsRecords(w: World, es: seq<Event>, op: OpId)
    requires Inv(w) && Possible(w, es) && w.proc.fault && op in w.disk.state.pending && NoEvidence(w, es)
    ensures After(w, es).proc.fault && Keeps(w, After(w, es), op)
    ensures forall e: Event | e.Recover? && AcceptedEvidence(After(w, es), e) :: e.evidence.Some? && op in e.evidence.value.ids
    decreases |es|
  {
    if es == [] {
      forall e: Event | e.Recover? && AcceptedEvidence(w, e) ensures e.evidence.Some? && op in e.evidence.value.ids { EvidenceNames(w, e, op); }
    } else {
      IncidentStep(w, es[0], op);
      StepKeepsInv(w, es[0]);
      IncidentKeepsRecords(Next(w, es[0]), es[1..], op);
    }
  }

  lemma EvidenceNames(w: World, e: Event, op: OpId)
    requires e.Recover? && AcceptedEvidence(w, e) && op in w.disk.state.pending
    ensures e.evidence.Some? && op in e.evidence.value.ids
  {
    assert op in w.disk.state.pending.Keys;
  }

  /** A blocked file stays blocked over crashes and restarts until evidence is accepted, and
      no begin succeeds under it. */
  lemma {:induction false} BlockedUntilEvidence(w: World, es: seq<Event>, io: bool, op: OpId, rec: Record, write: Write)
    requires Inv(w) && Possible(w, es) && w.disk.state.blocked && NoEvidence(w, es)
    ensures After(w, es).disk.state.blocked
    ensures AfterBegin(After(w, es).proc, After(w, es).disk, io, op, rec, write).result.Raised?
    decreases |es|
  {
    if es != [] {
      BlockedStays(w, es[0]);
      StepKeepsInv(w, es[0]);
      BlockedUntilEvidence(Next(w, es[0]), es[1..], io, op, rec, write);
    }
  }

  lemma BlockedStays(w: World, e: Event)
    requires LedgerInv(w) && Enabled(w, e) && w.disk.state.blocked
    requires e.Recover? ==> !AcceptedEvidence(w, e)
    ensures Next(w, e).disk.state.blocked
  {
    if e.Recover? {
      RecoverNeedsQuiet(w, e);
    } else if e.Begin? {
      assert AfterBegin(w.proc, w.disk, e.io, e.op, e.rec, e.write).disk == w.disk;
    }
  }

  // ------------------------------------------------------------- what each call answers

  predicate Owned(w: World, op: OpId) { op in w.proc.live && op in w.disk.state.pending }

  /** In a reachable world the fault alone stands for every reason to refuse, and a begin
      adds its own record or nothing. */
  lemma BeginAnswers(w: World, io: bool, op: OpId, rec: Record, write: Write)
    requires LedgerInv(w)
    ensures var out, st := AfterBegin(w.proc, w.disk, io, op, rec, write), w.disk.state;
            && out.result == (if !ValidRecord(rec) then Raised(InvalidArgument)
                              else if !io then Raised(Unreadable)
                              else if w.proc.fault then Raised(RecoveryRequired)
                              else if |st.pending| == st.maxInflight then Raised(Busy)
                              else if !write.Written? then Raised(WriteFailed) else Done(op))
            && (out.result.Done? ==> out.disk == w.disk.(state := st.(pending := st.pending[op := rec]))
                                     && out.proc == w.proc.(live := w.proc.live + {op}))
            && (out.disk != w.disk ==> out.result.Done? || (write.FailedNew? && out.proc.fault))
  {
  }

  /** A finish gives the slot back exactly for its own record, without an incident before. */
  lemma FinishAnswers(w: World, io: bool, op: OpId, write: Write)
    requires LedgerInv(w)
    ensures var out, st := AfterFinish(w.proc, w.disk, io, op, write), w.disk.state;
            && out.result == (if !io then Raised(Unreadable)
                              else if !Owned(w, op) then Raised(RecoveryRequired)
                              else if !w.proc.fault && !write.Written? then Raised(WriteFailed) else Done(()))
            && out.disk == (if io && Owned(w, op) && !w.proc.fault && !write.FailedOld?
                            then w.disk.(state := st.(pending := st.pending - {op})) else w.disk)
            && out.proc.live == (if out.result.Done? then w.proc.live - {op} else w.proc.live)
            && out.proc.fault == (w.proc.fault || out.result.Raised?)
  {
  }

  /** A block always leaves the process at fault, and marks the file exactly for an owned
      record, by a write that may fail either way. */
  lemma BlockAnswers(w: World, io: bool, op: OpId, write: Write)
    requires LedgerInv(w)
    ensures var out := AfterBlock(w.proc, w.disk, io, op, write);
            && out.proc.fault && out.proc.poisoned && out.proc.live == w.proc.live
            && out.disk == w.disk.(state := w.disk.state.(blocked := w.disk.state.blocked || (io && Owned(w, op) && !write.FailedOld?)))
            && out.result == (if !io then Raised(Unreadable)
                              else if !Owned(w, op) then Raised(RecoveryRequired)
                              else if !write.Written? then Raised(WriteFailed) else Done(()))
  {
  }

  /** The evidence an operator has to give: for this binding, naming each pending operation
      once in ascending order, terminated, with a confirmer and a reference. */
  ghost predicate Sufficient(e: Evidence, st: State)
  {
    && e.binding == st.binding && e.terminated
    && (forall i, j | 0 <= i < j < |e.ids| :: e.ids[i] < e.ids[j])
    && (forall op: OpId :: op in e.ids <==> op in st.pending)
    && ValidText(e.confirmedBy) && ValidText(e.reference)
  }

  lemma SufficientCovers(e: Event, w: World)
    requires LedgerInv(w) && e.Recover?
    ensures EvidenceCovers(e.evidence, w.proc, w.disk.state) <==> e.evidence.Some? && Sufficient(e.evidence.value, w.disk.state)
  {
    if e.evidence.Some? {
      var ids := e.evidence.value.ids;
      assert w.disk.state.pending.Keys == (set x | x in ids) <==> forall op: OpId :: op in ids <==> op in w.disk.state.pending;
    }
  }

  /** The audit on file for this pending set, if any, is the one this recovery would file. */
  ghost predicate SameOnFile(w: World, e: Event)
    requires e.Recover? && e.evidence.Some?
  {
    var st := w.disk.state;
    var id := RecoveryId(st.binding, st.maxInflight, st.pending);
    id in w.disk.audits ==> w.disk.audits[id] == Audit(id, st.binding, st.pending, e.evidence.value, e.rawHash)
  }

  /** When a recovery completes, exactly, and what it leaves. */
  lemma RecoveryCompletesIff(w: World, e: Event)
    requires LedgerInv(w) && e.Recover?
    ensures var st := w.disk.state;
            var id := RecoveryId(st.binding, st.maxInflight, st.pending);
            Recovered(w, e).result.Done?
            <==> && w.proc.live == {} && e.io && st.pending != map[] && e.expected == st.pending
                 && e.evidence.Some? && Sufficient(e.evidence.value, st) && SameOnFile(w, e)
                 && (id in w.disk.audits || e.wAudit.Written?) && e.wState.Written?
    ensures var st := w.disk.state;
            var id := RecoveryId(st.binding, st.maxInflight, st.pending);
            Recovered(w, e).result.Done? ==>
              && Recovered(w, e).disk == Disk(State(st.binding, st.maxInflight, map[], false, Some(id)),
                                              w.disk.audits[id := Audit(id, st.binding, st.pending, e.evidence.value, e.rawHash)])
              && Recovered(w, e).proc == Proc(st.binding, st.maxInflight, {}, false, false, false)
  {
    SufficientCovers(e, w);
  }

  /** A file of another binding or capacity, or one the reader rejects, refuses everything,
      is never written, and sets the fault. */
  lemma ForeignFileRefuses(p: Proc, d: Disk, io: bool, op: OpId, rec: Record, write: Write)
    requires !io || !Accepts(d) || d.state.binding != p.binding || d.state.maxInflight != p.maxInflight
    ensures AfterRequireDispatchable(p, d, io) == Step(p.(fault := true), d, Raised(Unreadable))
    ensures ValidRecord(rec) ==> AfterBegin(p, d, io, op, rec, write) == Step(p.(fault := true), d, Raised(Unreadable))
    ensures AfterFinish(p, d, io, op, write) == Step(p.(fault := true), d, Raised(Unreadable))
    ensures AfterBlock(p, d, io, op, write) == Step(p.(fault := true, poisoned := true), d, Raised(Unreadable))
  {
  }

  /** What only some steps may change: the binding none, the last recovery a recovery, and
      the mark of a blocked file a block to set and a recovery to clear. */
  lemma DocumentFrame(w: World, e: Event)
    requires LedgerInv(w) && Enabled(w, e)
    ensures Next(w, e).disk.state.binding == w.disk.state.binding
    ensures Next(w, e).disk.state.lastRecovery != w.disk.state.lastRecovery ==> e.Recover?
    ensures Next(w, e).disk.state.blocked && !w.disk.state.blocked ==> e.Settle? && !w.calls.open[e.op].WillFinish?
    ensures w.disk.state.blocked && !Next(w, e).disk.state.blocked ==> e.Recover?
  {
    match e
    case Begin(io, op, _, rec, write) => BeginAnswers(w, io, op, rec, write);
    case Settle(io, op, write) => FinishAnswers(w, io, op, write); BlockAnswers(w, io, op, write);
    case Recover(_, _, _, _, _, _) => RecoverWrites(w, e);
    case _ =>
  }

  // ------------------------------------------------------------------ a call end to end

  /** An answered call whose process has seen no incident gives its slot back: `generate`
      returns, the operation is finished, and only its record leaves. */
  lemma AnsweredCallFreesItsSlot(w: World, op: OpId, o: P.Outcome)
    requires Inv(w) && !w.proc.fault && G.CanReturn(w.calls, op, o) && !o.OtherRaised? && op in w.disk.state.pending
    requires G.CallOf(w.calls, op).Some? && G.CallOf(w.calls, op).value.thread.Ended? && G.CallOf(w.calls, op).value.thread.ending.Answered?
    requires w.calls.latches[w.calls.at[op]].latch.None?
    ensures var back, settle := Return(op, o), Settle(true, op, Written);
            && Possible(w, [back, settle])
            && After(w, [back, settle]).disk == w.disk.(state := w.disk.state.(pending := w.disk.state.pending - {op}))
            && !After(w, [back, settle]).proc.fault
  {
    var back, settle := Return(op, o), Settle(true, op, Written);
    G.DecisionIff(w.calls, op, o);
    var w1 := Next(w, back);
    StepKeepsInv(w, back);
    FinishAnswers(w1, true, op, Written);
    Prepend(w1, settle, []);
    Prepend(w, back, [settle]);
    assert [back, settle] == [back] + ([settle] + []);
  }
}
