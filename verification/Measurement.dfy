/** The concurrent measurement batch: consumers share a cursor, stop flags and a row list;
    the report is then judged a second time against a capacity target. */
module Measurement {
  import opened Basics
  import opened Sorting

  /** Work items are numbered over the repetitions of the cases, in order. */
  datatype Plan = Plan(positions: seq<int>, repetitions: nat, budget: Option<nat>)

  function Total(p: Plan): nat { |p.positions| * p.repetitions }

  /** Elapsed times are counted from the start of the batch. */
  datatype Row = Row(item: nat, position: int, repetition: nat, completed: bool, at: nat)

  datatype Error = RequestError(confirmed: bool) | ContractError | OtherError(generated: bool)

  /** Where a consumer is with the item it took. */
  datatype Worker =
    | Idle
    | Working(item: nat)
    | Raised(item: nat, error: Error)
    | Aborting(item: nat, error: Error)
    | Ended(item: nat, completed: bool)
    | Stopping(item: nat, completed: bool)
    | Checked(item: nat, completed: bool)
    | Stamped(item: nat, completed: bool, at: nat)
    | Done

  datatype State = State(cursor: nat, abort: bool, expired: bool, failed: bool, uncertain: bool, rows: seq<Row>, workers: seq<Worker>)

  // ---------------------------------------------------------------------------- steps

  /** One step of one consumer between two points where another may get in between. */
  datatype Step =
    | Take(elapsed: nat)
    | Return
    | Raise(error: Error)
    | SetAbort
    | Classify
    | CheckActive(active: bool)
    | SetStop
    | Stamp(elapsed: nat)
    | Append

  /** `StopRequested` is the caller's own stop event. */
  datatype Event = By(who: nat, step: Step) | StopRequested

  predicate Enabled(s: State, e: Event)
  {
    e.By? ==>
      && e.who < |s.workers|
      && var w := s.workers[e.who];
      match e.step
      case Take(_) => w.Idle?
      case Return => w.Working?
      case Raise(_) => w.Working?
      case SetAbort => w.Raised?
      case Classify => w.Aborting?
      case CheckActive(_) => w.Ended?
      case SetStop => w.Stopping?
      case Stamp(_) => w.Checked?
      case Append => w.Stamped?
  }

  function RowOf(p: Plan, w: Worker): Row
    requires w.Stamped? && |p.positions| > 0
  {
    Row(w.item, p.positions[w.item % |p.positions|], w.item / |p.positions| + 1, w.completed, w.at)
  }

  function Next(p: Plan, s: State, e: Event): State
    requires |p.positions| > 0 && Enabled(s, e)
  {
    if e.StopRequested? then s.(abort := true) else
    var w := s.workers[e.who];
    match e.step
    case Take(elapsed) =>
      if s.abort || s.cursor == Total(p) then s.(workers := s.workers[e.who := Done])
      else if p.budget.Some? && elapsed >= p.budget.value then s.(expired := true, workers := s.workers[e.who := Done])
      else s.(cursor := s.cursor + 1, workers := s.workers[e.who := Working(s.cursor)])
    case Return => s.(workers := s.workers[e.who := Ended(w.item, true)])
    case Raise(error) => s.(failed := true, workers := s.workers[e.who := Raised(w.item, error)])
    case SetAbort => s.(abort := true, workers := s.workers[e.who := Aborting(w.item, w.error)])
    case Classify =>
      var unknown := match w.error case RequestError(confirmed) => !confirmed case ContractError => false case OtherError(generated) => !generated;
      s.(uncertain := s.uncertain || unknown, workers := s.workers[e.who := Ended(w.item, false)])
    case CheckActive(active) =>
      if active then s.(uncertain := true, workers := s.workers[e.who := Stopping(w.item, w.completed)])
      else s.(workers := s.workers[e.who := Checked(w.item, w.completed)])
    case SetStop => s.(abort := true, workers := s.workers[e.who := Checked(w.item, w.completed)])
    case Stamp(elapsed) => s.(workers := s.workers[e.who := Stamped(w.item, w.completed, elapsed)])
    case Append => s.(rows := s.rows + [RowOf(p, w)], workers := s.workers[e.who := Idle])
  }

  predicate Acceptable(p: Plan, providers: nat)
  {
    p.positions != [] && providers > 0 && 1 <= p.repetitions <= 30 && (p.budget.Some? ==> p.budget.value > 0)
  }

  /** `stopped` when the caller's stop event was already set. */
  function Start(providers: nat, stopped: bool): State
  {
    State(0, stopped, false, false, false, [], seq(providers, i => Idle))
  }

  ghost predicate Possible(p: Plan, s: State, es: seq<Event>)
    requires |p.positions| > 0
    decreases |es|
  {
    es != [] ==> Enabled(s, es[0]) && Possible(p, Next(p, s, es[0]), es[1..])
  }

  ghost function After(p: Plan, s: State, es: seq<Event>): State
    requires |p.positions| > 0 && Possible(p, s, es)
    decreases |es|
  {
    if es == [] then s else After(p, Next(p, s, es[0]), es[1..])
  }

  predicate AllDone(s: State) { forall i | 0 <= i < |s.workers| :: s.workers[i].Done? }

  // ------------------------------------------------------------------------ invariant

  predicate Holds(w: Worker) { !w.Idle? && !w.Done? }

  /** How many consumers hold an item. */
  function Holding(workers: seq<Worker>): nat
  {
    if workers == [] then 0 else Holding(workers[..|workers| - 1]) + if Holds(workers[|workers| - 1]) then 1 else 0
  }

  predicate InRow(rows: seq<Row>, item: nat) { exists i | 0 <= i < |rows| :: rows[i].item == item }

  predicate InHand(workers: seq<Worker>, item: nat)
  {
    exists i | 0 <= i < |workers| :: Holds(workers[i]) && workers[i].item == item
  }

  /** Every item below the cursor is in one row or with one consumer: they cover the items,
      and there are no more of them than items. */
  ghost predicate Shared(s: State)
  {
    && |s.rows| + Holding(s.workers) == s.cursor
    && (forall k | 0 <= k < s.cursor :: InRow(s.rows, k) || InHand(s.workers, k))
    && (forall i | 0 <= i < |s.rows| :: s.rows[i].item < s.cursor)
    && (forall i | 0 <= i < |s.workers| && Holds(s.workers[i]) :: s.workers[i].item < s.cursor)
  }

  predicate Fits(p: Plan, r: Row)
  {
    |p.positions| > 0 && r.position == p.positions[r.item % |p.positions|] && r.repetition == r.item / |p.positions| + 1
  }

  predicate Failing(w: Worker)
  {
    w.Raised? || w.Aborting? || ((w.Ended? || w.Stopping? || w.Checked? || w.Stamped?) && !w.completed)
  }

  ghost predicate FailureShows(s: State)
  {
    s.failed <==> AnyFailed(s.rows) || AnyFailing(s.workers)
  }

  ghost predicate Inv(p: Plan, s: State)
  {
    && |p.positions| > 0 && s.cursor <= Total(p)
    && Shared(s) && FailureShows(s)
    && (forall i | 0 <= i < |s.rows| :: Fits(p, s.rows[i]))
    && StoppedForAReason(p, s)
  }

  ghost predicate StoppedForAReason(p: Plan, s: State)
  {
    && (s.cursor < Total(p) && (exists i | 0 <= i < |s.workers| :: s.workers[i].Done?) ==> s.abort || s.expired)
    && (s.expired ==> p.budget.Some?)
  }

  lemma {:induction false} HoldingUpdate(workers: seq<Worker>, i: nat, w: Worker)
    requires i < |workers|
    ensures Holding(workers[i := w]) + (if Holds(workers[i]) then 1 else 0) == Holding(workers) + if Holds(w) then 1 else 0
  {
    var front := workers[..|workers| - 1];
    if i < |front| {
      HoldingUpdate(front, i, w);
      assert workers[i := w][..|workers| - 1] == front[i := w];
    } else {
      assert workers[i := w][..|workers| - 1] == front;
    }
  }

  lemma {:induction false} NothingHeld(workers: seq<Worker>)
    requires forall i | 0 <= i < |workers| :: !Holds(workers[i])
    ensures Holding(workers) == 0
  {
    if workers != [] { NothingHeld(workers[..|workers| - 1]); }
  }

  /** A step of a consumer: it keeps its item, takes the next one, or turns it into a row. */
  predicate Moves(s: State, s': State, who: nat)
    requires who < |s.workers|
  {
    && |s'.workers| == |s.workers| && s'.workers == s.workers[who := s'.workers[who]]
    && var w, w' := s.workers[who], s'.workers[who];
    if Holds(w) && Holds(w') then w'.item == w.item && s'.rows == s.rows && s'.cursor == s.cursor
    else if Holds(w) then |s'.rows| == |s.rows| + 1 && s'.rows[..|s.rows|] == s.rows && s'.rows[|s.rows|].item == w.item && s'.cursor == s.cursor
    else if Holds(w') then w'.item == s.cursor && s'.cursor == s.cursor + 1 && s'.rows == s.rows
    else s'.rows == s.rows && s'.cursor == s.cursor
  }

  /** The steps in between concern the flags and the consumer alone. */
  lemma InnerMoves(p: Plan, s: State, e: Event)
    requires |p.positions| > 0 && Enabled(s, e) && e.By? && !e.step.Take? && !e.step.Append?
    ensures var s', w := Next(p, s, e), s.workers[e.who];
            && s'.rows == s.rows && s'.cursor == s.cursor && |s'.workers| == |s.workers|
            && s'.workers == s.workers[e.who := s'.workers[e.who]]
            && Holds(w) && Holds(s'.workers[e.who]) && s'.workers[e.who].item == w.item
            && s'.failed == (s.failed || e.step.Raise?)
            && (Failing(s'.workers[e.who]) <==> Failing(w) || e.step.Raise?)
            && (s.abort ==> s'.abort) && s'.expired == s.expired
  {
    match e.step
    case Return =>
    case Raise(_) =>
    case SetAbort =>
    case Classify =>
    case CheckActive(_) =>
    case SetStop =>
    case Stamp(_) =>
  }

  lemma WorkerStep(p: Plan, s: State, e: Event)
    requires |p.positions| > 0 && Enabled(s, e) && e.By?
    ensures Moves(s, Next(p, s, e), e.who)
  {
    if !e.step.Take? && !e.step.Append? { InnerMoves(p, s, e); }
  }

  lemma ItemStaysCovered(p: Plan, s: State, e: Event, k: nat)
    requires |p.positions| > 0 && Enabled(s, e) && e.By? && (InRow(s.rows, k) || InHand(s.workers, k))
    ensures InRow(Next(p, s, e).rows, k) || InHand(Next(p, s, e).workers, k)
  {
    var s' := Next(p, s, e);
    WorkerStep(p, s, e);
    if InRow(s.rows, k) {
      var i :| 0 <= i < |s.rows| && s.rows[i].item == k;
      assert s'.rows[i] == s.rows[i];
    } else {
      var i :| 0 <= i < |s.workers| && Holds(s.workers[i]) && s.workers[i].item == k;
      if i != e.who || Holds(s'.workers[i]) {
        assert Holds(s'.workers[i]) && s'.workers[i].item == k;
      } else {
        assert s'.rows[|s.rows|].item == k;
      }
    }
  }

  lemma StepKeepsShared(p: Plan, s: State, e: Event)
    requires |p.positions| > 0 && Shared(s) && Enabled(s, e)
    ensures Shared(Next(p, s, e))
  {
    if e.By? {
      var s' := Next(p, s, e);
      WorkerStep(p, s, e);
      HoldingUpdate(s.workers, e.who, s'.workers[e.who]);
      forall k | 0 <= k < s'.cursor ensures InRow(s'.rows, k) || InHand(s'.workers, k) {
        if k < s.cursor { ItemStaysCovered(p, s, e, k); } else { assert s'.workers[e.who].item == k; }
      }
    }
  }

  /** A consumer starts to fail by raising, and its row says so in the end. */
  lemma FailureStep(p: Plan, s: State, e: Event)
    requires |p.positions| > 0 && Enabled(s, e) && e.By?
    ensures var s', w := Next(p, s, e), s.workers[e.who];
            && s'.workers == s.workers[e.who := s'.workers[e.who]]
            && s'.failed == (s.failed || e.step.Raise?)
            && if e.step.Append? then
                 s'.rows == s.rows + [RowOf(p, w)] && RowOf(p, w).completed == !Failing(w) && !Failing(s'.workers[e.who])
               else s'.rows == s.rows && (Failing(s'.workers[e.who]) <==> Failing(w) || e.step.Raise?)
  {
    if !e.step.Take? && !e.step.Append? { InnerMoves(p, s, e); }
  }

  predicate AnyFailing(workers: seq<Worker>) { exists i | 0 <= i < |workers| :: Failing(workers[i]) }

  predicate AnyFailed(rows: seq<Row>) { exists i | 0 <= i < |rows| :: !rows[i].completed }

  lemma FailedAppend(rows: seq<Row>, r: Row)
    ensures AnyFailed(rows + [r]) <==> AnyFailed(rows) || !r.completed
  {
    var rows' := rows + [r];
    assert rows'[|rows|] == r && forall i | 0 <= i < |rows| :: rows'[i] == rows[i];
  }

  lemma FailingUpdate(workers: seq<Worker>, i: nat, w: Worker)
    requires i < |workers|
    ensures AnyFailing(workers[i := w]) || Failing(workers[i]) <==> AnyFailing(workers) || Failing(w)
    ensures Failing(w) ==> AnyFailing(workers[i := w])
    ensures Failing(workers[i]) ==> AnyFailing(workers)
  {
    var workers' := workers[i := w];
    assert workers'[i] == w && forall j | 0 <= j < |workers| && j != i :: workers'[j] == workers[j];
  }

  lemma StepKeepsFailure(p: Plan, s: State, e: Event)
    requires Inv(p, s) && Enabled(s, e)
    ensures FailureShows(Next(p, s, e))
  {
    if e.By? {
      FailureStep(p, s, e);
      FailingUpdate(s.workers, e.who, Next(p, s, e).workers[e.who]);
      if e.step.Append? { FailedAppend(s.rows, RowOf(p, s.workers[e.who])); }
    }
  }

  lemma StepKeepsReason(p: Plan, s: State, e: Event)
    requires Inv(p, s) && Enabled(s, e)
    ensures StoppedForAReason(p, Next(p, s, e)) && Next(p, s, e).cursor <= Total(p)
  {
    var s' := Next(p, s, e);
    if e.By? {
      if !e.step.Take? && !e.step.Append? { InnerMoves(p, s, e); }
      assert forall i | 0 <= i < |s.workers| && i != e.who :: s'.workers[i] == s.workers[i];
    }
  }

  lemma StepKeepsInv(p: Plan, s: State, e: Event)
    requires Inv(p, s) && Enabled(s, e)
    ensures Inv(p, Next(p, s, e))
  {
    StepKeepsShared(p, s, e);
    StepKeepsFailure(p, s, e);
    StepKeepsReason(p, s, e);
  }

  lemma {:induction false} RunKeepsInv(p: Plan, s: State, es: seq<Event>)
    requires Inv(p, s) && Possible(p, s, es)
    ensures Inv(p, After(p, s, es))
    decreases |es|
  {
    if es != [] {
      StepKeepsInv(p, s, es[0]);
      RunKeepsInv(p, Next(p, s, es[0]), es[1..]);
    }
  }

  lemma StartIsInv(p: Plan, providers: nat, stopped: bool)
    requires |p.positions| > 0
    ensures Inv(p, Start(providers, stopped))
  {
    NothingHeld(Start(providers, stopped).workers);
  }

  // -------------------------------------------------------------------- the sorted rows

  predicate ByItem(a: Row, b: Row) { a.item <= b.item }

  function SortedRows(s: State): seq<Row> { Sort(s.rows, ByItem) }

  function Items(rows: seq<Row>): seq<int> { seq(|rows|, i requires 0 <= i < |rows| => rows[i].item) }

  lemma {:induction false} OrderedPrefix(s: seq<int>, n: nat)
    requires |s| == n && StrictlyIncreasing(s) && forall i | 0 <= i < n :: 0 <= s[i] < n
    ensures forall i | 0 <= i < n :: s[i] == i
  {
    if n > 0 {
      var front := s[..n - 1];
      assert forall i | 0 <= i < n - 1 :: front[i] < s[n - 1];
      OrderedPrefix(front, n - 1);
      forall i | 0 <= i < n ensures s[i] == i {
        if i < n - 1 { assert front[i] == i; } else if n > 1 { assert front[n - 2] < s[n - 1]; }
      }
    }
  }

  /** As many rows as items, covering them all, repeat none. */
  lemma CoveringIsDistinct(rows: seq<Row>, n: nat)
    requires |rows| == n && (forall i | 0 <= i < n :: rows[i].item < n) && forall k | 0 <= k < n :: InRow(rows, k)
    ensures Distinct(Items(rows))
  {
    var items := Items(rows);
    forall k ensures k in Elems(items) <==> k in Range(0, n - 1) {
      if 0 <= k < n {
        assert InRow(rows, k);
        var i :| 0 <= i < n && rows[i].item == k;
        assert items[i] == k;
      }
    }
    assert Elems(items) == Range(0, n - 1);
    DistinctSize(items);
  }

  lemma SameRows(a: seq<Row>, b: seq<Row>, k: nat)
    requires multiset(a) == multiset(b) && InRow(a, k)
    ensures InRow(b, k)
  {
    var i :| 0 <= i < |a| && a[i].item == k;
    assert a[i] in multiset(b);
  }

  /** In order, the rows of a finished batch are the items 0, 1, 2, ... up to the cursor. */
  lemma SortedRowsAreAPrefix(p: Plan, s: State)
    requires Inv(p, s) && AllDone(s)
    ensures var rows := SortedRows(s);
            && |rows| == |s.rows| == s.cursor <= Total(p)
            && forall k | 0 <= k < |rows| :: rows[k].item == k && Fits(p, rows[k])
  {
    var rows, n := SortedRows(s), s.cursor;
    NothingHeld(s.workers);
    forall k | 0 <= k < n ensures InRow(rows, k) { SameRows(s.rows, rows, k); }
    forall k | 0 <= k < n ensures rows[k].item < n && Fits(p, rows[k]) { assert rows[k] in multiset(s.rows); }
    CoveringIsDistinct(rows, n);
    forall i, j | 0 <= i < j < n ensures Items(rows)[i] < Items(rows)[j] {
      assert ByItem(rows[i], rows[j]);
    }
    OrderedPrefix(Items(rows), n);
    forall k | 0 <= k < n ensures rows[k].item == k { assert Items(rows)[k] == k; }
  }

  /** Under every interleaving, a batch that ended has started a prefix of the work, each item
      exactly once with its own position and repetition; nothing is left out unless a stop
      or the budget said so. */
  lemma EachItemOnce(p: Plan, providers: nat, stopped: bool, es: seq<Event>)
    requires Acceptable(p, providers) && Possible(p, Start(providers, stopped), es) && AllDone(After(p, Start(providers, stopped), es))
    ensures var s := After(p, Start(providers, stopped), es);
            var rows := SortedRows(s);
            && |rows| <= Total(p)
            && (forall k | 0 <= k < |rows| :: rows[k].item == k && rows[k].position == p.positions[k % |p.positions|]
                                              && rows[k].repetition == k / |p.positions| + 1)
            && (|rows| < Total(p) ==> s.abort || (s.expired && p.budget.Some?))
            && (s.failed <==> exists k | 0 <= k < |rows| :: !rows[k].completed)
  {
    var s := After(p, Start(providers, stopped), es);
    StartIsInv(p, providers, stopped);
    RunKeepsInv(p, Start(providers, stopped), es);
    SortedRowsAreAPrefix(p, s);
    WorkersStay(p, Start(providers, stopped), es);
    SameFailures(s.rows, SortedRows(s));
    assert s.workers[0].Done?;
  }

  lemma {:induction false} WorkersStay(p: Plan, s: State, es: seq<Event>)
    requires |p.positions| > 0 && Possible(p, s, es)
    ensures |After(p, s, es).workers| == |s.workers|
    decreases |es|
  {
    if es != [] { WorkersStay(p, Next(p, s, es[0]), es[1..]); }
  }

  lemma SameFailures(a: seq<Row>, b: seq<Row>)
    requires multiset(a) == multiset(b)
    ensures (exists k | 0 <= k < |a| :: !a[k].completed) <==> (exists k | 0 <= k < |b| :: !b[k].completed)
  {
    assert forall k | 0 <= k < |a| :: a[k] in multiset(b);
    assert forall k | 0 <= k < |b| :: b[k] in multiset(a);
  }
}
