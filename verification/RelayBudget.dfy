/** The acceptance relay's persisted request budget, and its runs on one state directory. */
module RelayBudget {
  import opened Basics

  type Digest = nat

  /** A digest of its three parts; injectivity makes it the triple. */
  datatype Binding = Binding(ledger: Digest, backend: nat, maximum: int)
  datatype Row = Row(ordinal: int, request: Digest, status: int, response: Digest)
  datatype Document = Document(binding: Binding, maximum: int, started: int, completed: seq<Row>,
                               inflight: map<int, Digest>, blocked: bool)

  function Ordinals(rows: seq<Row>): seq<int>
  {
    seq(|rows|, i requires 0 <= i < |rows| => rows[i].ordinal)
  }

  /** What the constructor demands of an existing file; sorting the completed ordinals
      must give 1..started. */
  ghost predicate MayRestart(d: Document, binding: Binding)
  {
    && d.binding == binding && d.maximum == binding.maximum
    && 0 <= d.started <= d.maximum
    && !d.blocked && d.inflight == map[]
    && |d.completed| == d.started
    && (forall n :: n in Elems(Ordinals(d.completed)) <==> 1 <= n <= d.started)
  }

  function Fresh(binding: Binding): Document { Document(binding, binding.maximum, 0, [], map[], false) }

  function Reserve(d: Document, digest: Digest): Document
  {
    d.(started := d.started + 1, inflight := d.inflight[d.started + 1 := digest])
  }

  function Complete(d: Document, ordinal: int, status: int, response: Digest): Document
    requires ordinal in d.inflight
  {
    d.(inflight := d.inflight - {ordinal}, completed := d.completed + [Row(ordinal, d.inflight[ordinal], status, response)])
  }

  function Land(was: Option<Document>, now: Document, w: Write): Option<Document>
  {
    if w.FailedOld? then was else Some(now)
  }

  /** The file under the state directory. */
  class BudgetFile {
    var document: Option<Document>

    constructor () ensures document == None { document := None; }

    method WriteAtomic(d: Document, w: Write) returns (ok: bool)
      modifies this
      ensures document == Land(old(document), d, w) && (ok <==> w.Written?)
    {
      if !w.FailedOld? { document := Some(d); }
      ok := w.Written?;
    }
  }

  class Budget {
    const file: BudgetFile
    const maximum: int
    var value: Document
    var faulted: bool

    constructor Create(file: BudgetFile, binding: Binding)
      requires 1 <= binding.maximum <= 250
      ensures this.file == file && maximum == binding.maximum && value == Fresh(binding) && !faulted
    {
      this.file, maximum, value, faulted := file, binding.maximum, Fresh(binding), false;
    }

    constructor Reopen(file: BudgetFile, binding: Binding)
      requires file.document.Some? && MayRestart(file.document.value, binding)
      ensures this.file == file && maximum == binding.maximum && Some(value) == file.document && !faulted
    {
      this.file, maximum, value, faulted := file, binding.maximum, file.document.value, false;
    }

    /** `admitted`: the bounded ledger has a pending record for this very request body. */
    method Begin(admitted: bool, digest: Digest, w: Write) returns (ordinal: Option<int>)
      modifies this, file
      ensures faulted == (old(faulted) || (Accepts(old(value), maximum, old(faulted), admitted) && !w.Written?))
      ensures Accepts(old(value), maximum, old(faulted), admitted) ==>
                && value == Reserve(old(value), digest)
                && file.document == Land(old(file.document), value, w)
                && ordinal == if w.Written? then Some(value.started) else None
      ensures !Accepts(old(value), maximum, old(faulted), admitted) ==>
                value == old(value) && file.document == old(file.document) && ordinal == None
    {
      if faulted || value.started >= maximum || !admitted { return None; }
      value := value.(started := value.started + 1);
      value := value.(inflight := value.inflight[value.started := digest]);
      var ok := file.WriteAtomic(value, w);
      if !ok {
        faulted := true;
        return None;
      }
      return Some(value.started);
    }

    method Finish(ordinal: int, status: int, response: Digest, w: Write)
      requires ordinal in value.inflight
      modifies this, file
      ensures value == Complete(old(value), ordinal, status, response)
      ensures file.document == Land(old(file.document), value, w)
      ensures faulted == (old(faulted) || !w.Written?)
    {
      var digest := value.inflight[ordinal];
      value := value.(inflight := value.inflight - {ordinal});
      value := value.(completed := value.completed + [Row(ordinal, digest, status, response)]);
      var ok := file.WriteAtomic(value, w);
      if !ok { faulted := true; }
    }

    method Block(w: Write)
      modifies this, file
      ensures value == old(value).(blocked := true) && faulted
      ensures file.document == Land(old(file.document), value, w)
    {
      faulted := true;
      value := value.(blocked := true);
      var ok := file.WriteAtomic(value, w);
    }
  }

  predicate Accepts(value: Document, maximum: int, faulted: bool, admitted: bool)
  {
    !faulted && value.started < maximum && admitted
  }

  // ------------------------------------------------------------------------------ runs

  datatype Proc = Proc(value: Document, faulted: bool)

  /** `begun`: handlers that hold an ordinal and have not forwarded; `sent`: handlers that
      have. `log`: every ordinal ever forwarded. `outstanding`: forwarded, no full answer. */
  datatype World = World(file: Option<Document>, proc: Option<Proc>, begun: set<int>, sent: set<int>,
                         log: seq<int>, outstanding: set<int>)

  datatype Event =
    | Open(binding: Binding, write: Write)
    | Begin(admitted: bool, digest: Digest, write: Write)
    | Forward(ordinal: int)
    | Finish(ordinal: int, status: int, response: Digest, write: Write)
    | Block(ordinal: int, write: Write)
    | Crash

  ghost predicate Enabled(w: World, e: Event)
  {
    match e
    case Open(binding, _) => w.proc.None? && 1 <= binding.maximum <= 250
    case Begin(_, _, _) => w.proc.Some?
    case Forward(n) => w.proc.Some? && n in w.begun
    case Finish(n, _, _, _) => w.proc.Some? && n in w.sent && n in w.proc.value.value.inflight
    case Block(n, _) => w.proc.Some? && (n in w.begun || n in w.sent)
    case Crash => true
  }

  ghost function Next(w: World, e: Event): World
    requires Enabled(w, e)
  {
    match e
    case Open(binding, write) =>
      if w.file.None? then
        w.(file := Land(None, Fresh(binding), write), proc := if write.Written? then Some(Proc(Fresh(binding), false)) else None)
      else if MayRestart(w.file.value, binding) then w.(proc := Some(Proc(w.file.value, false)))
      else w
    case Begin(admitted, digest, write) =>
      var p := w.proc.value;
      if !Accepts(p.value, p.value.maximum, p.faulted, admitted) then w
      else
        var value := Reserve(p.value, digest);
        w.(file := Land(w.file, value, write), proc := Some(Proc(value, !write.Written?)),
           begun := if write.Written? then w.begun + {value.started} else w.begun)
    case Forward(n) =>
      w.(begun := w.begun - {n}, sent := w.sent + {n}, log := w.log + [n], outstanding := w.outstanding + {n})
    case Finish(n, status, response, write) =>
      var p := w.proc.value;
      var value := Complete(p.value, n, status, response);
      w.(file := Land(w.file, value, write), proc := Some(Proc(value, p.faulted || !write.Written?)),
         sent := w.sent - {n}, outstanding := w.outstanding - {n})
    case Block(n, write) =>
      var value := w.proc.value.value.(blocked := true);
      w.(file := Land(w.file, value, write), proc := Some(Proc(value, true)), begun := w.begun - {n}, sent := w.sent - {n})
    case Crash => w.(proc := None, begun := {}, sent := {})
  }

  const Empty := World(None, None, {}, {}, [], {})

  /** Ordinals 1..started are exactly the completed ones and those in flight. */
  ghost predicate Splits(d: Document)
  {
    && 0 <= d.started <= d.maximum == d.binding.maximum
    && Distinct(Ordinals(d.completed))
    && Elems(Ordinals(d.completed)) !! d.inflight.Keys
    && (forall n :: n in Elems(Ordinals(d.completed)) || n in d.inflight <==> 1 <= n <= d.started)
  }

  ghost predicate Inv(w: World)
  {
    && (w.file.None? ==> w.proc.None? && w.log == [] && w.outstanding == {})
    && (w.file.Some? ==>
          && Splits(w.file.value)
          && (forall n | n in w.log :: 1 <= n <= w.file.value.started)
          && w.outstanding <= w.file.value.inflight.Keys)
    && Distinct(w.log)
    && w.begun !! Elems(w.log)
    && w.sent <= Elems(w.log)
    && (w.proc.None? ==> w.begun == {} && w.sent == {})
    && (w.proc.Some? ==>
          && var v := w.proc.value.value;
          && Splits(v)
          && v.binding == w.file.value.binding
          && w.file.value.started <= v.started
          && w.outstanding + w.begun + w.sent <= v.inflight.Keys
          && (forall n | n in w.begun :: 1 <= n <= w.file.value.started)
          && w.begun <= w.file.value.inflight.Keys
          && (!w.proc.value.faulted ==> w.file == Some(v)))
  }

  lemma ReserveSplits(d: Document, digest: Digest)
    requires Splits(d) && d.started < d.maximum
    ensures Splits(Reserve(d, digest))
  {
    assert d.started + 1 !in d.inflight.Keys + Elems(Ordinals(d.completed));
  }

  lemma CompleteSplits(d: Document, n: int, status: int, response: Digest)
    requires Splits(d) && n in d.inflight
    ensures Splits(Complete(d, n, status, response))
  {
    var d' := Complete(d, n, status, response);
    assert Ordinals(d'.completed) == Ordinals(d.completed) + [n];
    assert Elems(Ordinals(d.completed) + [n]) == Elems(Ordinals(d.completed)) + {n};
    assert n !in Ordinals(d.completed) by { assert n !in Elems(Ordinals(d.completed)); }
  }

  lemma FreshSplits(binding: Binding)
    requires 0 <= binding.maximum
    ensures Splits(Fresh(binding))
  {
    assert Elems(Ordinals([])) == {};
  }

  lemma BeginKeepsInv(w: World, admitted: bool, digest: Digest, write: Write)
    requires Inv(w) && w.proc.Some?
    ensures Inv(Next(w, Begin(admitted, digest, write)))
  {
    var p := w.proc.value;
    if Accepts(p.value, p.value.maximum, p.faulted, admitted) {
      ReserveSplits(p.value, digest);
      assert p.value.started + 1 !in Elems(w.log);
    }
  }

  lemma ForwardKeepsInv(w: World, n: int)
    requires Inv(w) && Enabled(w, Forward(n))
    ensures Inv(Next(w, Forward(n)))
  {
    assert n !in Elems(w.log);
    assert Elems(w.log + [n]) == Elems(w.log) + {n};
  }

  lemma FinishKeepsInv(w: World, n: int, status: int, response: Digest, write: Write)
    requires Inv(w) && Enabled(w, Finish(n, status, response, write))
    ensures Inv(Next(w, Finish(n, status, response, write)))
  {
    CompleteSplits(w.proc.value.value, n, status, response);
    assert n in w.sent && n !in w.begun;
  }

  lemma StepKeepsInv(w: World, e: Event)
    requires Inv(w) && Enabled(w, e)
    ensures Inv(Next(w, e))
  {
    match e
    case Open(binding, _) => FreshSplits(binding);
    case Begin(admitted, digest, write) => BeginKeepsInv(w, admitted, digest, write);
    case Forward(n) => ForwardKeepsInv(w, n);
    case Finish(n, status, response, write) => FinishKeepsInv(w, n, status, response, write);
    case _ =>
  }

  ghost predicate Possible(w: World, es: seq<Event>)
    decreases |es|
  {
    es == [] || (Enabled(w, es[0]) && Possible(Next(w, es[0]), es[1..]))
  }

  ghost function After(w: World, es: seq<Event>): World
    requires Possible(w, es)
    decreases |es|
  {
    if es == [] then w else After(Next(w, es[0]), es[1..])
  }

  lemma {:induction false} RunKeepsInv(w: World, es: seq<Event>)
    requires Inv(w) && Possible(w, es)
    ensures Inv(After(w, es))
    ensures w.file.Some? ==> After(w, es).file.Some? && After(w, es).file.value.maximum == w.file.value.maximum
    decreases |es|
  {
    if es != [] {
      StepKeepsInv(w, es[0]);
      RunKeepsInv(Next(w, es[0]), es[1..]);
    }
  }

  // ----------------------------------------------------------------------- main results

  /** However often the relay restarts, it forwards at most the first maximum's requests. */
  lemma BudgetNeverExceeded(es: seq<Event>)
    requires Possible(Empty, es)
    ensures var w := After(Empty, es);
            if w.file.None? then w.log == [] else |w.log| <= w.file.value.maximum
  {
    RunKeepsInv(Empty, es);
    var w := After(Empty, es);
    if w.file.Some? {
      DistinctSize(w.log);
      SubsetSize(Elems(w.log), Range(1, w.file.value.started));
    }
  }

  lemma OrdinalsSplit(es: seq<Event>)
    requires Possible(Empty, es)
    ensures After(Empty, es).file.Some? ==> Splits(After(Empty, es).file.value)
    ensures After(Empty, es).proc.Some? ==> Splits(After(Empty, es).proc.value.value)
  {
    RunKeepsInv(Empty, es);
  }

  /** A restart is accepted only when every request forwarded before had its full answer,
      and all of them are then recorded as completed. */
  lemma RestartOnlyAfterAllFinished(es: seq<Event>, binding: Binding, write: Write)
    requires Possible(Empty, es) && After(Empty, es).proc.None? && 1 <= binding.maximum <= 250
    requires Next(After(Empty, es), Open(binding, write)).proc.Some?
    ensures After(Empty, es).outstanding == {}
    ensures After(Empty, es).file.Some? ==>
              && binding == After(Empty, es).file.value.binding
              && forall n | n in After(Empty, es).log :: n in Ordinals(After(Empty, es).file.value.completed)
  {
    RunKeepsInv(Empty, es);
    var w := After(Empty, es);
    if w.file.Some? {
      assert forall n | n in w.log :: n in Elems(Ordinals(w.file.value.completed));
    }
  }

  /** Conversely, a quiet directory, unblocked and with nothing in flight, does restart. */
  lemma QuietDirectoryRestarts(es: seq<Event>, write: Write)
    requires Possible(Empty, es) && After(Empty, es).proc.None? && After(Empty, es).file.Some?
    requires !After(Empty, es).file.value.blocked && After(Empty, es).file.value.inflight == map[]
    ensures var w := After(Empty, es);
            MayRestart(w.file.value, w.file.value.binding)
  {
    RunKeepsInv(Empty, es);
    var d := After(Empty, es).file.value;
    DistinctSize(Ordinals(d.completed));
    assert Elems(Ordinals(d.completed)) == Range(1, d.started);
  }

  // ------------------------------------------------------------------ what is recorded

  /** What the handlers gave along a run: the digest each ordinal was last reserved for, and
      the answer it was finished with. */
  datatype Given = Given(digests: map<int, Digest>, answers: map<int, (int, Digest)>)

  ghost predicate Reserves(w: World, e: Event)
  {
    e.Begin? && w.proc.Some? && !w.proc.value.faulted && w.proc.value.value.started < w.proc.value.value.maximum && e.admitted
  }

  ghost function GivenBy(w: World, e: Event, g: Given): Given
  {
    if Reserves(w, e) then g.(digests := g.digests[w.proc.value.value.started + 1 := e.digest])
    else if e.Finish? then g.(answers := g.answers[e.ordinal := (e.status, e.response)])
    else g
  }

  ghost function AllGiven(w: World, es: seq<Event>, g: Given): Given
    requires Possible(w, es)
    decreases |es|
  {
    if es == [] then g else AllGiven(Next(w, es[0]), es[1..], GivenBy(w, es[0], g))
  }

  ghost predicate RowTells(r: Row, g: Given)
  {
    && r.ordinal in g.digests && r.request == g.digests[r.ordinal]
    && r.ordinal in g.answers && (r.status, r.response) == g.answers[r.ordinal]
  }

  ghost predicate Tells(d: Document, g: Given)
  {
    && (forall n | n in d.inflight :: n in g.digests && d.inflight[n] == g.digests[n])
    && (forall i | 0 <= i < |d.completed| :: RowTells(d.completed[i], g))
  }

  ghost predicate ToldInv(w: World, g: Given)
  {
    && w.sent <= w.outstanding
    && (w.file.Some? ==> Tells(w.file.value, g))
    && (w.proc.Some? ==> Tells(w.proc.value.value, g))
  }

  lemma NewDigestTells(d: Document, g: Given, n: int, digest: Digest)
    requires Splits(d) && Tells(d, g) && n > d.started
    ensures Tells(d, g.(digests := g.digests[n := digest]))
  {
    forall i | 0 <= i < |d.completed| ensures d.completed[i].ordinal != n {
      assert Ordinals(d.completed)[i] in Elems(Ordinals(d.completed));
    }
  }

  lemma NewAnswerTells(d: Document, g: Given, n: int, status: int, response: Digest)
    requires Splits(d) && Tells(d, g) && n in d.inflight
    ensures Tells(d, g.(answers := g.answers[n := (status, response)]))
    ensures Tells(Complete(d, n, status, response), g.(answers := g.answers[n := (status, response)]))
  {
    forall i | 0 <= i < |d.completed| ensures d.completed[i].ordinal != n {
      assert Ordinals(d.completed)[i] in Elems(Ordinals(d.completed));
    }
  }

  lemma StepTells(w: World, e: Event, g: Given)
    requires Inv(w) && ToldInv(w, g) && Enabled(w, e)
    ensures ToldInv(Next(w, e), GivenBy(w, e, g))
  {
    if Reserves(w, e) {
      var v := w.proc.value.value;
      NewDigestTells(v, g, v.started + 1, e.digest);
      NewDigestTells(w.file.value, g, v.started + 1, e.digest);
    } else if e.Finish? {
      NewAnswerTells(w.proc.value.value, g, e.ordinal, e.status, e.response);
      NewAnswerTells(w.file.value, g, e.ordinal, e.status, e.response);
    }
  }

  lemma {:induction false} RunTells(w: World, es: seq<Event>, g: Given)
    requires Inv(w) && ToldInv(w, g) && Possible(w, es)
    ensures ToldInv(After(w, es), AllGiven(w, es, g))
    decreases |es|
  {
    if es != [] {
      StepKeepsInv(w, es[0]);
      StepTells(w, es[0], g);
      RunTells(Next(w, es[0]), es[1..], GivenBy(w, es[0], g));
    }
  }

  /** Over any run the file records for each request in flight the digest it was reserved
      for, and for each completed one that and the status and response it ended with. */
  lemma FileTellsWhatHappened(es: seq<Event>)
    requires Possible(Empty, es) && After(Empty, es).file.Some?
    ensures Tells(After(Empty, es).file.value, AllGiven(Empty, es, Given(map[], map[])))
  {
    RunTells(Empty, es, Given(map[], map[]));
  }

  /** When a handler gets an ordinal, exactly, and which. */
  lemma OrdinalHandedOutIff(w: World, e: Event, n: int)
    requires Inv(w) && Enabled(w, e) && e.Begin?
    ensures n in Next(w, e).begun && n !in w.begun <==> Reserves(w, e) && e.write.Written? && n == w.proc.value.value.started + 1
    ensures !Reserves(w, e) ==> Next(w, e) == w
    ensures Reserves(w, e) && !e.write.Written? ==> Next(w, e).proc.value.faulted
  {
    assert w.proc.value.value.started + 1 !in w.begun;
  }

  /** The request of a blocked handler stays in flight, and its process at fault. */
  ghost predicate StoppedBy(w: World, n: int)
  {
    && w.file.Some? && n in w.file.value.inflight && n !in w.begun && n !in w.sent
    && (w.proc.Some? ==> w.proc.value.faulted && n in w.proc.value.value.inflight)
  }

  lemma BlockStops(w: World, g: Given, e: Event)
    requires Inv(w) && ToldInv(w, g) && Enabled(w, e) && e.Block?
    ensures StoppedBy(Next(w, e), e.ordinal)
    ensures !e.write.FailedOld? ==> Next(w, e).file.value.blocked
  {
  }

  /** After a block, however its write ended, no process ever starts again on the directory,
      and nothing more is forwarded but by handlers that already had their ordinal. */
  lemma {:induction false} BlockIsFinal(w: World, es: seq<Event>, n: int)
    requires Possible(w, es) && StoppedBy(w, n)
    ensures StoppedBy(After(w, es), n)
    ensures w.proc.None? ==> After(w, es).proc.None?
    ensures forall m | m in After(w, es).log :: m in w.log || m in w.begun
    decreases |es|
  {
    if es != [] {
      assert Next(w, es[0]).begun <= w.begun && forall m | m in Next(w, es[0]).log :: m in w.log || m in w.begun;
      BlockIsFinal(Next(w, es[0]), es[1..], n);
    }
  }
}
