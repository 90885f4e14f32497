/** What the serial ledger's operations answer and leave behind, and what may empty its slot. */
module SlotAnswers {
  import opened Basics
  import opened SerialLedger
  import opened SerialRuns
  import G = GuardedCalls

  // ------------------------------------------------------------- what each call answers

  /** In a reachable world a begin is handed out exactly into an empty slot, and the slot
      then holds it as given. */
  lemma BeginAnswers(w: World, io: bool, op: Operation, write: Write)
    requires LedgerInv(w.disk)
    ensures var out := AfterBegin(w.poisoned, w.disk, io, op, write);
            && (out.result == Some(op.id) <==> io && !w.poisoned && w.disk.pending.None? && write.Written?)
            && (out.result.Some? ==> out == Step(false, w.disk.(pending := Some(op)), Some(op.id)))
            && (out.result.None? ==> out.disk == w.disk || (write.FailedNew? && out.disk == w.disk.(pending := Some(op))))
            && (out.poisoned <==> w.poisoned || (io && w.disk.pending.None? && !write.Written?))
  {
  }

  /** A finish empties the slot exactly of its own operation; any other operation, and any
      failed write, poisons the process. */
  lemma FinishAnswers(w: World, io: bool, op: OpId, write: Write)
    requires Accepts(w.disk) && io
    ensures var out, own := AfterFinish(w.poisoned, w.disk, io, op, write), w.disk.pending.Some? && w.disk.pending.value.id == op;
            && out.disk == (if own && !write.FailedOld? then w.disk.(pending := None) else w.disk)
            && (out.result.Some? <==> own && write.Written?)
            && (out.poisoned <==> !own || !write.Written?)
  {
  }

  /** When a recovery completes, exactly, and what it leaves. */
  lemma RecoveryCompletesIff(w: World, e: Event)
    requires e.Recover? && Accepts(w.disk)
    ensures var d, out := w.disk, Recovered(w, e);
            out.result.Some?
            <==> && e.io && d.pending.Some? && d.pending.value.id == e.expected
                 && e.evidence.Some? && e.evidence.value.operation == e.expected && e.evidence.value.binding == d.binding
                 && e.evidence.value.terminated && ValidText(e.evidence.value.confirmedBy) && ValidText(e.evidence.value.reference)
                 && (if e.expected in d.audits then d.audits[e.expected] == Audit(d.pending.value, d.binding, e.evidence.value, e.rawHash)
                     else e.wAudit.Written?)
                 && e.wState.Written?
    ensures var d, out := w.disk, Recovered(w, e);
            out.result.Some? ==>
              out == Step(false, Disk(d.binding, None, Some(e.expected),
                                      d.audits[e.expected := Audit(d.pending.value, d.binding, e.evidence.value, e.rawHash)]), Some(()))
  {
  }

  // --------------------------------------------------------------------------- the gate

  /** What ends a poisoned process's refusals: a restart, the finish of the operation in the
      slot, or a completed recovery. */
  predicate Clears(w: World, e: Event)
    requires Enabled(w, e)
  {
    || e.Restart?
    || (e.Settle? && w.calls.open[e.op].WillFinish? && e.op in Slot(w.disk) && e.write.Written?)
    || (e.Recover? && Recovered(w, e).result.Some?)
  }

  ghost predicate NeverCleared(w: World, es: seq<Event>)
    requires Possible(w, es)
    decreases |es|
  {
    es == [] || (!Clears(w, es[0]) && NeverCleared(Next(w, es[0]), es[1..]))
  }

  /** After a failed write no begin succeeds until then. */
  lemma {:induction false} PoisonShutsGate(w: World, es: seq<Event>, io: bool, op: Operation, write: Write)
    requires Possible(w, es) && w.poisoned && NeverCleared(w, es)
    ensures After(w, es).poisoned && AfterBegin(After(w, es).poisoned, After(w, es).disk, io, op, write).result.None?
    decreases |es|
  {
    if es != [] {
      PoisonStays(w, es[0]);
      PoisonShutsGate(Next(w, es[0]), es[1..], io, op, write);
    }
  }

  lemma PoisonStays(w: World, e: Event)
    requires Enabled(w, e) && w.poisoned && !Clears(w, e)
    ensures Next(w, e).poisoned
  {
  }

  // --------------------------------------------------------------------------- the slot

  /** The operation in the slot is the one its begin was given. */
  predicate BegunWith(es: seq<Event>, op: Operation)
  {
    exists i | 0 <= i < |es| :: es[i].Begin? && es[i].operation == op
  }

  lemma StepFills(w: World, e: Event)
    requires Enabled(w, e) && Next(w, e).disk.pending.Some? && Next(w, e).disk.pending != w.disk.pending
    ensures e.Begin? && Next(w, e).disk.pending.value == e.operation
  {
    match e
    case Begin(_, _, _, _) =>
    case Settle(_, _, _) =>
    case Recover(_, _, _, _, _, _) =>
    case _ =>
  }

  lemma {:induction false} SlotIsAsBegun(w: World, es: seq<Event>)
    requires Possible(w, es) && After(w, es).disk.pending.Some?
    ensures After(w, es).disk.pending == w.disk.pending || BegunWith(es, After(w, es).disk.pending.value)
    decreases |es|
  {
    if es != [] {
      var w1, rest := Next(w, es[0]), es[1..];
      SlotIsAsBegun(w1, rest);
      var op := After(w, es).disk.pending.value;
      if BegunWith(rest, op) {
        var i :| 0 <= i < |rest| && rest[i].Begin? && rest[i].operation == op;
        assert es[i + 1] == rest[i];
      } else if w1.disk.pending != w.disk.pending {
        StepFills(w, es[0]);
      }
    }
  }

  /** The slot is emptied only by a finish of its own operation, which is over unless its
      thread escaped, or by a recovery whose audit was on disk before that write. */
  lemma AuditBeforeClearing(w: World, e: Event, op: OpId)
    requires Enabled(w, e) && G.Inv(w.calls) && op in Slot(w.disk) && op !in Slot(Next(w, e).disk)
    ensures || (&& e.Settle? && e.op == op && w.calls.open[op].WillFinish? && !G.Sendable(w.calls, op)
                && (G.Unanswered(w.calls, op) <==> G.Escaped(w.calls, op)))
            || (&& e.Recover? && e.expected == op && e.evidence.Some? && e.evidence.value.operation == op && e.evidence.value.terminated
                && op in Next(w, e).disk.audits
                && Next(w, e).disk.audits[op] == Audit(w.disk.pending.value, w.disk.binding, e.evidence.value, e.rawHash)
                && Next(w, e.(wState := FailedOld)).disk == w.disk.(audits := Next(w, e).disk.audits))
  {
    if e.Settle? && w.calls.open[e.op].WillFinish? { G.FinishedIsOverIff(w.calls, e.op); }
    if e.Recover? { ClearedByRecovery(w, e); }
  }

  lemma ClearedByRecovery(w: World, e: Event)
    requires EmptiesSlot(w, e)
    ensures e.evidence.Some? && e.evidence.value.operation == e.expected && e.evidence.value.terminated && Slot(w.disk) == {e.expected}
    ensures e.expected in Next(w, e).disk.audits
    ensures Next(w, e).disk.audits[e.expected] == Audit(w.disk.pending.value, w.disk.binding, e.evidence.value, e.rawHash)
    ensures Next(w, e.(wState := FailedOld)).disk == w.disk.(audits := Next(w, e).disk.audits)
  {
  }

  lemma AuditsStay(w: World, e: Event, id: OpId)
    requires Enabled(w, e) && id in w.disk.audits
    ensures id in Next(w, e).disk.audits && Next(w, e).disk.audits[id] == w.disk.audits[id]
    ensures Next(w, e).disk.binding == w.disk.binding
  {
  }

  /** A filed audit is never replaced or removed. */
  lemma {:induction false} AuditsAreForever(w: World, es: seq<Event>, id: OpId)
    requires Possible(w, es) && id in w.disk.audits
    ensures id in After(w, es).disk.audits && After(w, es).disk.audits[id] == w.disk.audits[id]
    decreases |es|
  {
    if es != [] {
      AuditsStay(w, es[0], id);
      AuditsAreForever(Next(w, es[0]), es[1..], id);
    }
  }
}
