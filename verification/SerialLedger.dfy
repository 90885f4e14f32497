/** The serial executor's ledger: one durable slot. */
module SerialLedger {
  import opened Basics

  type Digest = nat
  type OpId = nat

  datatype Operation = Operation(id: OpId, challengeId: string, startedAt: nat)
  datatype Evidence = Evidence(operation: OpId, binding: Digest, terminated: bool, confirmedBy: string, reference: string)
  datatype Audit = Audit(pending: Operation, binding: Digest, evidence: Evidence, rawHash: Digest)
  datatype Disk = Disk(binding: Digest, pending: Option<Operation>, lastRecovery: Option<OpId>, audits: map<OpId, Audit>)

  predicate RecoveryFiled(d: Disk)
  {
    && (d.lastRecovery.Some? ==>
          && d.lastRecovery.value in d.audits
          && d.audits[d.lastRecovery.value].binding == d.binding
          && d.audits[d.lastRecovery.value].pending.id == d.lastRecovery.value)
  }

  predicate Accepts(d: Disk)
  {
    (d.pending.Some? ==> d.pending.value.challengeId != "") && RecoveryFiled(d)
  }

  datatype Step<+T> = Step(poisoned: bool, disk: Disk, result: Option<T>)

  function AfterBegin(poisoned: bool, d: Disk, io: bool, op: Operation, w: Write): Step<OpId>
  {
    if poisoned || !io || !Accepts(d) || d.pending.Some? then Step(poisoned, d, None)
    else Step(!w.Written?, if w.FailedOld? then d else d.(pending := Some(op)), if w.Written? then Some(op.id) else None)
  }

  function AfterFinish(poisoned: bool, d: Disk, io: bool, op: OpId, w: Write): Step<()>
  {
    if !io || !Accepts(d) then Step(poisoned, d, None)
    else if d.pending.None? || d.pending.value.id != op then Step(true, d, None)
    else Step(!w.Written?, if w.FailedOld? then d else d.(pending := None), if w.Written? then Some(()) else None)
  }

  predicate ValidText(s: string)
  {
    (exists i | 0 <= i < |s| :: s[i] !in {' ', '\t', '\n', '\r'}) && |s| <= 1024
  }

  predicate EvidenceCovers(e: Option<Evidence>, d: Disk, expected: OpId)
  {
    && e.Some?
    && e.value.operation == expected
    && e.value.binding == d.binding
    && e.value.terminated
    && ValidText(e.value.confirmedBy)
    && ValidText(e.value.reference)
  }

  function AfterRecover(poisoned: bool, d: Disk, io: bool, expected: OpId, e: Option<Evidence>, rawHash: Digest,
                        wAudit: Write, wState: Write): Step<()>
  {
    if !io || !Accepts(d) || d.pending.None? || d.pending.value.id != expected || !EvidenceCovers(e, d, expected)
    then Step(poisoned, d, None)
    else
      var audit := Audit(d.pending.value, d.binding, e.value, rawHash);
      if expected in d.audits && d.audits[expected] != audit then Step(poisoned, d, None)
      else
        var filed := d.(audits := d.audits[expected := audit]);
        if expected !in d.audits && !wAudit.Written? then
          Step(poisoned, if wAudit.FailedNew? then filed else d, None)
        else
          Step(!wState.Written?,
               if wState.FailedOld? then filed else filed.(pending := None, lastRecovery := Some(expected)),
               if wState.Written? then Some(()) else None)
  }

  /** One process's view of the state directory; reads and writes end as told. */
  class ExecutorState {
    var disk: Disk
    var poisoned: bool

    constructor (disk: Disk)
      requires Accepts(disk)
      ensures this.disk == disk && !poisoned
    {
      this.disk, poisoned := disk, false;
    }

    method Begin(io: bool, op: Operation, w: Write) returns (r: Option<OpId>)
      modifies this
      ensures Step(poisoned, disk, r) == AfterBegin(old(poisoned), old(disk), io, op, w)
    {
      if poisoned || !io || !Accepts(disk) || disk.pending.Some? { return None; }
      poisoned := true;
      if !w.FailedOld? { disk := disk.(pending := Some(op)); }
      if !w.Written? { return None; }
      poisoned := false;
      return Some(op.id);
    }

    method Finish(io: bool, op: OpId, w: Write) returns (r: Option<()>)
      modifies this
      ensures Step(poisoned, disk, r) == AfterFinish(old(poisoned), old(disk), io, op, w)
    {
      if !io || !Accepts(disk) { return None; }
      poisoned := true;
      if disk.pending.None? || disk.pending.value.id != op { return None; }
      if !w.FailedOld? { disk := disk.(pending := None); }
      if !w.Written? { return None; }
      poisoned := false;
      return Some(());
    }

    method Recover(io: bool, expected: OpId, e: Option<Evidence>, rawHash: Digest, wAudit: Write, wState: Write)
      returns (r: Option<()>)
      modifies this
      ensures Step(poisoned, disk, r) == AfterRecover(old(poisoned), old(disk), io, expected, e, rawHash, wAudit, wState)
    {
      if !io || !Accepts(disk) || disk.pending.None? || disk.pending.value.id != expected { return None; }
      if !EvidenceCovers(e, disk, expected) { return None; }
      var audit := Audit(disk.pending.value, disk.binding, e.value, rawHash);
      if expected in disk.audits {
        if disk.audits[expected] != audit { return None; }
        assert disk.audits == disk.audits[expected := audit];
      } else {
        if !wAudit.FailedOld? { disk := disk.(audits := disk.audits[expected := audit]); }
        if !wAudit.Written? { return None; }
      }
      poisoned := true;
      if !wState.FailedOld? { disk := disk.(pending := None, lastRecovery := Some(expected)); }
      if !wState.Written? { return None; }
      poisoned := false;
      return Some(());
    }
  }
}
