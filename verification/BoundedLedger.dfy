/** The durable ledger of in-flight model requests and the volatile gate of its process. */
module BoundedLedger {
  import opened Basics

  type Digest = nat
  type OpId = nat

  // ---------------------------------------------------------------- documents

  datatype RequestContext = RequestContext(submission: Digest, sample: Digest, position: int, request: Digest)
  datatype Record = Record(challengeId: string, startedAt: nat, context: Option<RequestContext>)

  /** A digest of (binding, capacity, pending); injectivity makes it the triple itself. */
  datatype RecoveryId = RecoveryId(binding: Digest, capacity: int, pending: map<OpId, Record>)

  datatype State = State(binding: Digest, maxInflight: int, pending: map<OpId, Record>, blocked: bool,
                         lastRecovery: Option<RecoveryId>)
  datatype Evidence = Evidence(binding: Digest, ids: seq<OpId>, terminated: bool, confirmedBy: string, reference: string)
  datatype Audit = Audit(id: RecoveryId, binding: Digest, pending: map<OpId, Record>, evidence: Evidence, rawHash: Digest)
  datatype Disk = Disk(state: State, audits: map<RecoveryId, Audit>)

  predicate IsBlank(c: char) { c in {' ', '\t', '\n', '\r'} }

  predicate ValidText(s: string)
  {
    (exists i | 0 <= i < |s| :: !IsBlank(s[i])) && |s| <= 256
  }

  predicate ValidContext(c: RequestContext) { 1 <= c.position <= 1000000 }

  predicate ValidRecord(r: Record)
  {
    ValidText(r.challengeId) && (r.context.Some? ==> ValidContext(r.context.value))
  }

  predicate AuditMatches(a: Audit, st: State, id: RecoveryId)
  {
    && a.binding == st.binding
    && a.id == id
    && a.pending != map[]
    && RecoveryId(st.binding, st.maxInflight, a.pending) == id
    && a.evidence.terminated
    && IsSortedListing(a.evidence.ids, a.pending.Keys)
  }

  /** The documents `read_bounded_state` returns rather than rejects. */
  predicate Accepts(d: Disk)
  {
    && 1 <= d.state.maxInflight <= 32
    && |d.state.pending| <= d.state.maxInflight
    && (forall op | op in d.state.pending :: ValidRecord(d.state.pending[op]))
    && (d.state.lastRecovery.Some? ==>
          var id := d.state.lastRecovery.value;
          id in d.audits && AuditMatches(d.audits[id], d.state, id))
  }

  // ------------------------------------------------- operations of one process

  /** The volatile half: everything here is lost when the process dies. */
  datatype Proc = Proc(binding: Digest, maxInflight: int, live: set<OpId>, poisoned: bool, fault: bool,
                       startupPending: bool)

  datatype Refusal = InvalidArgument | Unreadable | RecoveryRequired | Busy | WriteFailed
  datatype Result<+T> = Done(value: T) | Raised(why: Refusal)
  datatype Step<+T> = Step(proc: Proc, disk: Disk, result: Result<T>)

  function Start(d: Disk): Proc
  {
    Proc(d.state.binding, d.state.maxInflight, {}, false,
         d.state.pending != map[] || d.state.blocked, d.state.pending != map[])
  }

  predicate Readable(p: Proc, d: Disk, io: bool)
  {
    io && Accepts(d) && d.state.binding == p.binding && d.state.maxInflight == p.maxInflight
  }

  function AfterSnapshot(p: Proc, d: Disk, io: bool): Proc
  {
    if Readable(p, d, io) then p else p.(fault := true)
  }

  function AfterWriteState(p: Proc, d: Disk, st: State, w: Write): Step<()>
  {
    Step(if w.Written? then p else p.(poisoned := true, fault := true),
         if w.FailedOld? then d else d.(state := st),
         if w.Written? then Done(()) else Raised(WriteFailed))
  }

  predicate Dispatchable(p: Proc, d: Disk)
  {
    !p.fault && !p.poisoned && !p.startupPending && !d.state.blocked && d.state.pending.Keys == p.live
  }

  function AfterRequireDispatchable(p: Proc, d: Disk, io: bool): Step<()>
  {
    if !Readable(p, d, io) then Step(p.(fault := true), d, Raised(Unreadable))
    else if !Dispatchable(p, d) then Step(p.(fault := true), d, Raised(RecoveryRequired))
    else Step(p, d, Done(()))
  }

  function AfterBegin(p: Proc, d: Disk, io: bool, op: OpId, rec: Record, w: Write): Step<OpId>
  {
    if !ValidRecord(rec) then Step(p, d, Raised(InvalidArgument)) else
    var gate := AfterRequireDispatchable(p, d, io);
    if gate.result.Raised? then Step(gate.proc, d, Raised(gate.result.why))
    else if |d.state.pending| >= p.maxInflight then Step(p, d, Raised(Busy))
    else
      var out := AfterWriteState(p, d, d.state.(pending := d.state.pending[op := rec]), w);
      if out.result.Raised? then Step(out.proc, out.disk, Raised(WriteFailed))
      else Step(out.proc.(live := p.live + {op}), out.disk, Done(op))
  }

  function AfterFinish(p: Proc, d: Disk, io: bool, op: OpId, w: Write): Step<()>
  {
    if !Readable(p, d, io) then Step(p.(fault := true), d, Raised(Unreadable))
    else if op !in p.live || op !in d.state.pending then
      Step(p.(poisoned := true, fault := true), d, Raised(RecoveryRequired))
    else if p.fault || p.poisoned || d.state.blocked then
      Step(p.(live := p.live - {op}), d, Done(()))
    else
      var out := AfterWriteState(p, d, d.state.(pending := d.state.pending - {op}), w);
      if out.result.Raised? then out else Step(out.proc.(live := p.live - {op}), out.disk, Done(()))
  }

  function AfterBlock(p: Proc, d: Disk, io: bool, op: OpId, w: Write): Step<()>
  {
    var p := p.(poisoned := true, fault := true);
    if !Readable(p, d, io) then Step(p, d, Raised(Unreadable))
    else if op !in p.live || op !in d.state.pending then Step(p, d, Raised(RecoveryRequired))
    else AfterWriteState(p, d, d.state.(blocked := true), w)
  }

  predicate EvidenceCovers(e: Option<Evidence>, p: Proc, st: State)
  {
    && e.Some?
    && e.value.binding == p.binding
    && IsSortedListing(e.value.ids, st.pending.Keys)
    && e.value.terminated
    && ValidText(e.value.confirmedBy)
    && ValidText(e.value.reference)
  }

  function AfterRecoverAll(p: Proc, d: Disk, io: bool, expected: map<OpId, Record>, e: Option<Evidence>,
                            rawHash: Digest, wAudit: Write, wState: Write): Step<()>
  {
    var st := d.state;
    if p.live != {} then Step(p, d, Raised(RecoveryRequired))
    else if !Readable(p, d, io) then Step(p.(fault := true), d, Raised(Unreadable))
    else if st.pending == map[] || expected != st.pending || !EvidenceCovers(e, p, st) then
      Step(p, d, Raised(InvalidArgument))
    else
      var id := RecoveryId(p.binding, p.maxInflight, st.pending);
      var audit := Audit(id, p.binding, st.pending, e.value, rawHash);
      if id in d.audits && d.audits[id] != audit then Step(p, d, Raised(InvalidArgument))
      else
        var filed := d.(audits := d.audits[id := audit]);
        if id !in d.audits && !wAudit.Written? then
          Step(p, if wAudit.FailedNew? then filed else d, Raised(WriteFailed))
        else
          var out := AfterWriteState(p, filed, st.(pending := map[], blocked := false, lastRecovery := Some(id)), wState);
          if out.result.Raised? then out
          else Step(p.(startupPending := false, poisoned := false, fault := false), out.disk, Done(()))
  }

  // ------------------------------------------------------- the class as written

  class Directory {
    var state: State
    var audits: map<RecoveryId, Audit>

    function View(): Disk reads this { Disk(state, audits) }

    constructor (binding: Digest, maxInflight: int)
      requires 1 <= maxInflight <= 32
      ensures View() == Disk(State(binding, maxInflight, map[], false, None), map[])
      ensures Accepts(View())
    {
      state, audits := State(binding, maxInflight, map[], false, None), map[];
    }

    method WriteStateFile(st: State, w: Write) returns (ok: bool)
      modifies this`state
      ensures ok <==> w.Written?
      ensures state == if w.FailedOld? then old(state) else st
    {
      if !w.FailedOld? { state := st; }
      ok := w.Written?;
    }

    method WriteAuditFile(id: RecoveryId, audit: Audit, w: Write) returns (ok: bool)
      modifies this`audits
      ensures ok <==> w.Written?
      ensures audits == if w.FailedOld? then old(audits) else old(audits)[id := audit]
    {
      if !w.FailedOld? { audits := audits[id := audit]; }
      ok := w.Written?;
    }
  }

  /** The object every caller of one process shares. `io` says whether the documents can be
      read at all in this call, `w` how the write ends. */
  class BoundedExecutorState {
    const directory: Directory
    const binding: Digest
    const maxInflight: int
    var live: set<OpId>
    var poisoned: bool
    var fault: bool
    var startupPending: bool

    function View(): Proc reads this
    {
      Proc(binding, maxInflight, live, poisoned, fault, startupPending)
    }

    constructor (directory: Directory)
      requires Accepts(directory.View())
      ensures this.directory == directory && View() == Start(directory.View())
    {
      this.directory := directory;
      binding, maxInflight := directory.state.binding, directory.state.maxInflight;
      live, poisoned := {}, false;
      startupPending := directory.state.pending != map[];
      fault := directory.state.pending != map[] || directory.state.blocked;
    }

    method Snapshot(io: bool) returns (st: Option<State>)
      modifies this`fault
      ensures View() == AfterSnapshot(old(View()), directory.View(), io)
      ensures st == if Readable(old(View()), directory.View(), io) then Some(directory.state) else None
    {
      if Readable(View(), directory.View(), io) { return Some(directory.state); }
      fault := true;
      return None;
    }

    method WriteState(st: State, w: Write) returns (ok: bool)
      modifies this`poisoned, this`fault, directory`state
      ensures var out := AfterWriteState(old(View()), old(directory.View()), st, w);
              View() == out.proc && directory.View() == out.disk && (ok <==> out.result.Done?)
    {
      var previous := poisoned;
      poisoned := true;
      ok := directory.WriteStateFile(st, w);
      if !ok {
        fault := true;
        return;
      }
      poisoned := previous;
    }

    method RequireDispatchable(io: bool) returns (r: Result<()>)
      modifies this`fault
      ensures Step(View(), directory.View(), r) == AfterRequireDispatchable(old(View()), directory.View(), io)
    {
      var st := Snapshot(io);
      if st.None? { return Raised(Unreadable); }
      if fault || poisoned || startupPending || st.value.blocked || st.value.pending.Keys != live {
        fault := true;
        return Raised(RecoveryRequired);
      }
      return Done(());
    }

    method Begin(io: bool, op: OpId, rec: Record, w: Write) returns (r: Result<OpId>)
      modifies this, directory`state
      ensures Step(View(), directory.View(), r)
           == AfterBegin(old(View()), old(directory.View()), io, op, rec, w)
    {
      if !ValidRecord(rec) { return Raised(InvalidArgument); }
      var gate := RequireDispatchable(io);
      if gate.Raised? { return Raised(gate.why); }
      var st := directory.state;
      if |st.pending| >= maxInflight { return Raised(Busy); }
      var ok := WriteState(st.(pending := st.pending[op := rec]), w);
      if !ok { return Raised(WriteFailed); }
      live := live + {op};
      return Done(op);
    }

    method Finish(io: bool, op: OpId, w: Write) returns (r: Result<()>)
      modifies this, directory`state
      ensures Step(View(), directory.View(), r)
           == AfterFinish(old(View()), old(directory.View()), io, op, w)
    {
      var st := Snapshot(io);
      if st.None? { return Raised(Unreadable); }
      if op !in live || op !in st.value.pending {
        poisoned, fault := true, true;
        return Raised(RecoveryRequired);
      }
      if fault || poisoned || st.value.blocked {
        live := live - {op};
        return Done(());
      }
      var ok := WriteState(st.value.(pending := st.value.pending - {op}), w);
      if !ok { return Raised(WriteFailed); }
      live := live - {op};
      return Done(());
    }

    method Block(io: bool, op: OpId, w: Write) returns (r: Result<()>)
      modifies this, directory`state
      ensures Step(View(), directory.View(), r)
           == AfterBlock(old(View()), old(directory.View()), io, op, w)
    {
      poisoned, fault := true, true;
      var st := Snapshot(io);
      if st.None? { return Raised(Unreadable); }
      if op !in live || op !in st.value.pending { return Raised(RecoveryRequired); }
      var ok := WriteState(st.value.(blocked := true), w);
      return if ok then Done(()) else Raised(WriteFailed);
    }

    method RecoverAll(io: bool, expected: map<OpId, Record>, e: Option<Evidence>,
                      rawHash: Digest, wAudit: Write, wState: Write) returns (r: Result<()>)
      modifies this, directory
      ensures Step(View(), directory.View(), r)
           == AfterRecoverAll(old(View()), old(directory.View()), io, expected, e, rawHash, wAudit, wState)
    {
      if live != {} { return Raised(RecoveryRequired); }
      var st := Snapshot(io);
      if st.None? { return Raised(Unreadable); }
      if st.value.pending == map[] || expected != st.value.pending || !EvidenceCovers(e, View(), st.value) { return Raised(InvalidArgument); }
      var id := RecoveryId(binding, maxInflight, st.value.pending);
      var audit := Audit(id, binding, st.value.pending, e.value, rawHash);
      if id in directory.audits {
        if directory.audits[id] != audit { return Raised(InvalidArgument); }
        assert directory.audits == directory.audits[id := audit];
      } else {
        var filed := directory.WriteAuditFile(id, audit, wAudit);
        if !filed { return Raised(WriteFailed); }
      }
      var ok := WriteState(st.value.(pending := map[], blocked := false, lastRecovery := Some(id)), wState);
      if !ok { return Raised(WriteFailed); }
      startupPending, poisoned, fault := false, false, false;
      return Done(());
    }
  }
}
