/** The report of a measurement batch, and the independent judgement of it against a
    capacity target. */
module BudgetReport {
  import opened Basics
  import opened Sorting
  import opened Measurement

  datatype Verdict = NotTested | Incomplete | Met | Interrupted | NotMeasured | NotMet

  datatype Copy = Copy(repetition: nat, planned: nat, completed: nat, inBudget: Option<nat>, allInBudget: Option<bool>)

  datatype Report = Report(planned: nat, started: nat, completed: nat, notStarted: int, unconfirmed: bool, verdict: Verdict,
                           inBudget: Option<nat>, copies: seq<Copy>, rows: seq<Row>)

  // ------------------------------------------------------------------------- counting

  /** Completed rows by a deadline, of all repetitions or of some. */
  datatype Query = All(deadline: Option<nat>) | Within(deadline: Option<nat>, from: nat, to: nat)

  predicate Selects(q: Query, r: Row)
  {
    && r.completed && (q.deadline.Some? ==> r.at <= q.deadline.value)
    && (q.Within? ==> q.from <= r.repetition <= q.to)
  }

  function Count(rows: seq<Row>, q: Query): nat
  {
    if rows == [] then 0 else Count(rows[..|rows| - 1], q) + if Selects(q, rows[|rows| - 1]) then 1 else 0
  }

  // ---------------------------------------------------------------------- the report

  function CopyOf(p: Plan, rows: seq<Row>, repetition: nat): Copy
  {
    var n := |p.positions|;
    var finished, inTime := Count(rows, Within(None, repetition, repetition)), Count(rows, Within(p.budget, repetition, repetition));
    Copy(repetition, n, finished, if p.budget.None? then None else Some(inTime), if p.budget.None? then None else Some(inTime == n))
  }

  function Copies(p: Plan, rows: seq<Row>, repetitions: nat): seq<Copy>
  {
    if repetitions == 0 then [] else Copies(p, rows, repetitions - 1) + [CopyOf(p, rows, repetitions)]
  }

  function VerdictOf(p: Plan, s: State, onTime: nat): Verdict
  {
    if s.failed || s.uncertain then Incomplete
    else if p.budget.Some? && onTime == Total(p) then Met
    else if s.abort then Interrupted
    else if p.budget.None? then NotMeasured
    else NotMet
  }

  function ReportOf(p: Plan, s: State): Report
  {
    var rows := SortedRows(s);
    var onTime := Count(rows, All(p.budget));
    Report(Total(p), |rows|, Count(rows, All(None)), Total(p) - |rows|, s.uncertain,
           VerdictOf(p, s, if p.budget.None? then 0 else onTime),
           if p.budget.None? then None else Some(onTime), Copies(p, rows, p.repetitions), rows)
  }

  method CountRows(rows: seq<Row>, q: Query) returns (n: nat)
    ensures n == Count(rows, q)
  {
    n := 0;
    for i := 0 to |rows|
      invariant n == Count(rows[..i], q)
    {
      assert rows[..i + 1][..i] == rows[..i];
      if Selects(q, rows[i]) { n := n + 1; }
    }
    assert rows[..|rows|] == rows;
  }

  /** What the batch does after its consumers have ended. */
  method Summarize(p: Plan, s: State) returns (report: Report)
    ensures report == ReportOf(p, s)
  {
    var rows := SortedRows(s);
    var completed := CountRows(rows, All(None));
    var onTime := 0;
    if p.budget.Some? { onTime := CountRows(rows, All(p.budget)); }
    var copies := [];
    for repetition := 0 to p.repetitions
      invariant copies == Copies(p, rows, repetition)
    {
      var finished := CountRows(rows, Within(None, repetition + 1, repetition + 1));
      var before := CountRows(rows, Within(p.budget, repetition + 1, repetition + 1));
      copies := copies + [Copy(repetition + 1, |p.positions|, finished, if p.budget.None? then None else Some(before),
                               if p.budget.None? then None else Some(before == |p.positions|))];
    }
    var verdict := NotMet;
    if s.failed || s.uncertain { verdict := Incomplete; }
    else if p.budget.Some? && onTime == Total(p) { verdict := Met; }
    else if s.abort { verdict := Interrupted; }
    else if p.budget.None? { verdict := NotMeasured; }
    report := Report(Total(p), |rows|, completed, Total(p) - |rows|, s.uncertain, verdict,
                     if p.budget.None? then None else Some(onTime), copies, rows);
  }

  // -------------------------------------------------------------- the second judgement

  datatype Target = Target(students: int, samples: int, budget: int)

  /** The saved run around a report; the model flags are read off it. */
  datatype Run = Run(samples: int, repetitions: int, budget: Option<int>, realModel: bool, sameModel: bool, measured: Option<Report>)

  datatype Assessment = Assessment(matches: bool, verdict: Verdict, inBudget: Option<nat>, completeCopies: Option<nat>)

  predicate CountsFor(r: Row, t: Target)
  {
    r.completed && r.at <= t.budget && 1 <= r.repetition <= t.students && 1 <= r.position <= t.samples
  }

  function OnTime(rows: seq<Row>, t: Target): set<(int, int)>
  {
    if rows == [] then {}
    else
      var r := rows[|rows| - 1];
      OnTime(rows[..|rows| - 1], t) + if CountsFor(r, t) then {(r.repetition as int, r.position)} else {}
  }

  predicate WholeCopy(onTime: set<(int, int)>, repetition: int, samples: int)
  {
    forall position | 1 <= position <= samples :: Has(onTime, repetition, position)
  }

  predicate Has(onTime: set<(int, int)>, repetition: int, position: int) { (repetition, position) in onTime }

  function WholeCopies(onTime: set<(int, int)>, students: int, samples: int): nat
    decreases students
  {
    if students <= 0 then 0 else WholeCopies(onTime, students - 1, samples) + if WholeCopy(onTime, students, samples) then 1 else 0
  }

  predicate ValidTarget(t: Target) { t.students > 0 && t.samples > 0 && t.budget > 0 }

  function Assess(run: Run, t: Target): Assessment
  {
    var matches := run.samples == t.samples && run.repetitions == t.students && run.budget == Some(t.budget)
                   && run.measured.Some? && run.measured.value.planned == t.students * t.samples;
    var onTime := OnTime(if run.measured.Some? then run.measured.value.rows else [], t);
    var verdict :=
      if !matches || !run.realModel || !run.sameModel then NotTested
      else if run.measured.value.unconfirmed then Incomplete
      else if |onTime| == t.students * t.samples then Met
      else if run.measured.value.verdict in {Incomplete, Interrupted} then run.measured.value.verdict
      else NotMet;
    Assessment(matches, verdict, if matches then Some(|onTime|) else None,
               if matches then Some(WholeCopies(onTime, t.students, t.samples)) else None)
  }

  /** The source raises for a target that is not positive. */
  method AssessModelBudget(run: Run, t: Target) returns (r: Option<Assessment>)
    ensures r == if ValidTarget(t) then Some(Assess(run, t)) else None
  {
    if t.students <= 0 || t.samples <= 0 || t.budget <= 0 { return None; }
    var matches := run.samples == t.samples && run.repetitions == t.students && run.budget == Some(t.budget)
                   && run.measured.Some? && run.measured.value.planned == t.students * t.samples;
    var rows := if run.measured.Some? then run.measured.value.rows else [];
    var onTime: set<(int, int)> := {};
    for i := 0 to |rows|
      invariant onTime == OnTime(rows[..i], t)
    {
      assert rows[..i + 1][..i] == rows[..i];
      if CountsFor(rows[i], t) { onTime := onTime + {(rows[i].repetition as int, rows[i].position)}; }
    }
    assert rows[..|rows|] == rows;
    var verdict := NotMet;
    if !matches || !run.realModel || !run.sameModel { verdict := NotTested; }
    else if run.measured.value.unconfirmed { verdict := Incomplete; }
    else if |onTime| == t.students * t.samples { verdict := Met; }
    else if run.measured.value.verdict == Incomplete || run.measured.value.verdict == Interrupted { verdict := run.measured.value.verdict; }
    var copies := 0;
    for repetition := 0 to t.students
      invariant copies == WholeCopies(onTime, repetition, t.samples)
    {
      if WholeCopy(onTime, repetition + 1, t.samples) { copies := copies + 1; }
    }
    return Some(Assessment(matches, verdict, if matches then Some(|onTime|) else None, if matches then Some(copies) else None));
  }

  // -------------------------------------------------------------- the report adds up

  /** What the batch guarantees of its sorted rows. */
  ghost predicate WholePrefix(p: Plan, rows: seq<Row>)
  {
    && |p.positions| > 0 && |rows| <= Total(p)
    && forall k | 0 <= k < |rows| :: rows[k].item == k && Fits(p, rows[k])
  }

  lemma RepetitionOf(k: nat, n: nat, r: nat)
    requires n > 0 && r > 0
    ensures k / n + 1 == r <==> (r - 1) * n <= k < r * n
    ensures k / n + 1 <= r <==> k < r * n
  {
    var q := k / n;
    assert q * n <= k < (q + 1) * n;
    if q >= r { Scale(r, q, n); } else { Scale(q + 1, r, n); }
    if q + 1 < r { Scale(q + 1, r - 1, n); }
  }

  lemma Scale(a: nat, b: nat, n: nat)
    requires a <= b
    ensures a * n <= b * n
  {
    assert (b - a) * n >= 0;
  }

  lemma RowRepetitions(p: Plan, rows: seq<Row>, k: nat)
    requires WholePrefix(p, rows) && k < |rows|
    ensures 1 <= rows[k].repetition <= p.repetitions
  {
    if p.repetitions > 0 { RepetitionOf(k, |p.positions|, p.repetitions); }
    assert rows[k].item == k;
  }

  lemma {:induction false} CountAll(rows: seq<Row>, deadline: Option<nat>, to: nat)
    requires forall k | 0 <= k < |rows| :: 1 <= rows[k].repetition <= to
    ensures Count(rows, All(deadline)) == Count(rows, Within(deadline, 1, to))
  {
    if rows != [] { CountAll(rows[..|rows| - 1], deadline, to); }
  }

  lemma {:induction false} CountSplit(rows: seq<Row>, deadline: Option<nat>, to: nat)
    ensures Count(rows, Within(deadline, 1, to + 1)) == Count(rows, Within(deadline, 1, to)) + Count(rows, Within(deadline, to + 1, to + 1))
  {
    if rows != [] { CountSplit(rows[..|rows| - 1], deadline, to); }
  }

  lemma {:induction false} CountNone(rows: seq<Row>, deadline: Option<nat>)
    ensures Count(rows, Within(deadline, 1, 0)) == 0
  {
    if rows != [] { CountNone(rows[..|rows| - 1], deadline); }
  }

  function SumCompleted(copies: seq<Copy>): nat
  {
    if copies == [] then 0 else SumCompleted(copies[..|copies| - 1]) + copies[|copies| - 1].completed
  }

  function SumInBudget(copies: seq<Copy>): nat
  {
    if copies == [] then 0
    else SumInBudget(copies[..|copies| - 1]) + match copies[|copies| - 1].inBudget case Some(n) => n case None => 0
  }

  lemma {:induction false} CopiesListed(p: Plan, rows: seq<Row>, to: nat)
    ensures |Copies(p, rows, to)| == to
    ensures forall r | 1 <= r <= to :: Copies(p, rows, to)[r - 1] == CopyOf(p, rows, r)
  {
    if to > 0 { CopiesListed(p, rows, to - 1); }
  }

  lemma CopiesFront(p: Plan, rows: seq<Row>, to: nat)
    requires to > 0
    ensures |Copies(p, rows, to)| == to
    ensures Copies(p, rows, to)[..to - 1] == Copies(p, rows, to - 1) && Copies(p, rows, to)[to - 1] == CopyOf(p, rows, to)
  {
    CopiesListed(p, rows, to);
    CopiesListed(p, rows, to - 1);
  }

  lemma {:induction false} CompletedAddUp(p: Plan, rows: seq<Row>, to: nat)
    ensures SumCompleted(Copies(p, rows, to)) == Count(rows, Within(None, 1, to))
  {
    if to == 0 {
      CountNone(rows, None);
    } else {
      CompletedAddUp(p, rows, to - 1);
      CountSplit(rows, None, to - 1);
      CopiesFront(p, rows, to);
    }
  }

  lemma {:induction false} InBudgetAddUp(p: Plan, rows: seq<Row>, to: nat)
    requires p.budget.Some?
    ensures SumInBudget(Copies(p, rows, to)) == Count(rows, Within(p.budget, 1, to))
  {
    if to == 0 {
      CountNone(rows, p.budget);
    } else {
      InBudgetAddUp(p, rows, to - 1);
      CountSplit(rows, p.budget, to - 1);
      CopiesFront(p, rows, to);
    }
  }

  /** Positions in the list of the rows a query selects. */
  function Selected(rows: seq<Row>, q: Query): set<int>
  {
    set k | 0 <= k < |rows| && Selects(q, rows[k])
  }

  lemma {:induction false} CountIsSelected(rows: seq<Row>, q: Query)
    ensures |Selected(rows, q)| == Count(rows, q)
  {
    if rows != [] {
      var n := |rows| - 1;
      CountIsSelected(rows[..n], q);
      assert Selected(rows, q) == Selected(rows[..n], q) + if Selects(q, rows[n]) then {n} else {};
    }
  }

  predicate DoneAt(rows: seq<Row>, k: int, deadline: Option<nat>)
  {
    0 <= k < |rows| && Selects(All(deadline), rows[k])
  }

  predicate StretchDone(rows: seq<Row>, deadline: Option<nat>, lo: int, n: int)
  {
    forall k | lo <= k < lo + n :: DoneAt(rows, k, deadline)
  }

  /** All items of one repetition were completed by the deadline. */
  predicate EveryItemInTime(p: Plan, rows: seq<Row>, r: nat, deadline: Option<nat>)
  {
    r > 0 && StretchDone(rows, deadline, (r - 1) * |p.positions|, |p.positions|)
  }

  /** The query selects the done items of a stretch. */
  predicate SelectsStretch(rows: seq<Row>, q: Query, deadline: Option<nat>, lo: int, n: int)
  {
    forall k | 0 <= k < |rows| :: Selects(q, rows[k]) <==> lo <= k < lo + n && DoneAt(rows, k, deadline)
  }

  /** Of a stretch of n items at most n are selected, and n exactly if all of them are. */
  lemma StretchCount(rows: seq<Row>, q: Query, deadline: Option<nat>, lo: nat, n: nat)
    requires SelectsStretch(rows, q, deadline, lo, n)
    ensures Count(rows, q) <= n
    ensures Count(rows, q) == n <==> StretchDone(rows, deadline, lo, n)
  {
    var chosen, span := Selected(rows, q), Range(lo, lo + n - 1);
    CountIsSelected(rows, q);
    forall k ensures k in chosen <==> k in span && DoneAt(rows, k, deadline) { }
    SubsetSize(chosen, span);
    if StretchDone(rows, deadline, lo, n) {
      assert chosen == span;
    }
    if |chosen| == n {
      SameSize(chosen, span);
      forall k | lo <= k < lo + n ensures DoneAt(rows, k, deadline) { assert k in span; }
    }
  }

  lemma CopyStretch(p: Plan, rows: seq<Row>, r: nat, deadline: Option<nat>, k: nat)
    requires WholePrefix(p, rows) && r > 0 && k < |rows|
    ensures Selects(Within(deadline, r, r), rows[k])
       <==> (r - 1) * |p.positions| <= k < (r - 1) * |p.positions| + |p.positions| && DoneAt(rows, k, deadline)
  {
    RepetitionOf(k, |p.positions|, r);
    assert rows[k].item == k && Fits(p, rows[k]);
    assert r * |p.positions| == (r - 1) * |p.positions| + |p.positions|;
  }

  lemma CopyCount(p: Plan, rows: seq<Row>, r: nat, deadline: Option<nat>)
    requires WholePrefix(p, rows) && r > 0
    ensures Count(rows, Within(deadline, r, r)) <= |p.positions|
    ensures Count(rows, Within(deadline, r, r)) == |p.positions| <==> EveryItemInTime(p, rows, r, deadline)
  {
    var n := |p.positions|;
    var lo := (r - 1) * n;
    Scale(0, r - 1, n);
    forall k | 0 <= k < |rows| ensures Selects(Within(deadline, r, r), rows[k]) <==> lo <= k < lo + n && DoneAt(rows, k, deadline) {
      CopyStretch(p, rows, r, deadline, k);
    }
    StretchCount(rows, Within(deadline, r, r), deadline, lo, n);
  }

  lemma SameSize(a: set<int>, b: set<int>)
    requires a <= b && |a| == |b|
    ensures a == b
  {
    assert b == a + (b - a);
    assert |b| == |a| + |b - a|;
  }

  lemma {:induction false} CountAtMost(rows: seq<Row>, q: Query)
    ensures Count(rows, q) <= |rows|
    ensures Count(rows, q) == |rows| ==> forall k | 0 <= k < |rows| :: Selects(q, rows[k])
  {
    if rows != [] {
      CountAtMost(rows[..|rows| - 1], q);
      assert forall k | 0 <= k < |rows| - 1 :: rows[k] == rows[..|rows| - 1][k];
    }
  }

  lemma WholePrefixAddsUp(p: Plan, s: State)
    requires WholePrefix(p, SortedRows(s))
    ensures var r := ReportOf(p, s);
            && r.started + r.notStarted == r.planned && r.notStarted >= 0 && r.completed <= r.started
            && |r.copies| == p.repetitions && SumCompleted(r.copies) == r.completed
            && (p.budget.Some? ==> SumInBudget(r.copies) == r.inBudget.value)
  {
    var rows := SortedRows(s);
    forall k | 0 <= k < |rows| ensures 1 <= rows[k].repetition <= p.repetitions { RowRepetitions(p, rows, k); }
    CompletedAddUp(p, rows, p.repetitions);
    if p.budget.Some? { InBudgetAddUp(p, rows, p.repetitions); }
    CopiesListed(p, rows, p.repetitions);
    CountAll(rows, None, p.repetitions);
    CountAll(rows, p.budget, p.repetitions);
    CountAtMost(rows, All(None));
  }

  /** The k-th repetition's entry counts its own items, and says "all" only of all of them. */
  ghost predicate HonestCopy(p: Plan, report: Report, k: nat)
  {
    && 0 < k <= |report.copies|
    && report.copies[k - 1].repetition == k && report.copies[k - 1].completed <= |p.positions|
    && (p.budget.Some? ==> (report.copies[k - 1].allInBudget == Some(true) <==> EveryItemInTime(p, report.rows, k, p.budget)))
  }

  /** Under every interleaving the report's counts add up: started and not started to the
      plan, the repetitions' counts to the totals, and a repetition is reported whole exactly
      when all its items were completed within the budget. */
  lemma ReportAddsUp(p: Plan, providers: nat, stopped: bool, es: seq<Event>)
    requires Acceptable(p, providers) && Possible(p, Start(providers, stopped), es) && AllDone(After(p, Start(providers, stopped), es))
    ensures var r := ReportOf(p, After(p, Start(providers, stopped), es));
            && r.started + r.notStarted == r.planned && r.notStarted >= 0 && r.completed <= r.started
            && |r.copies| == p.repetitions && SumCompleted(r.copies) == r.completed
            && (p.budget.Some? ==> SumInBudget(r.copies) == r.inBudget.value)
    ensures forall k | 1 <= k <= p.repetitions :: HonestCopy(p, ReportOf(p, After(p, Start(providers, stopped), es)), k)
  {
    var s := After(p, Start(providers, stopped), es);
    Finished(p, providers, stopped, es);
    var rows := SortedRows(s);
    WholePrefixAddsUp(p, s);
    CopiesListed(p, rows, p.repetitions);
    forall k | 1 <= k <= p.repetitions ensures HonestCopy(p, ReportOf(p, s), k) {
      assert Copies(p, rows, p.repetitions)[k - 1] == CopyOf(p, rows, k);
      CopyCount(p, rows, k, None);
      CopyCount(p, rows, k, p.budget);
    }
  }

  lemma Finished(p: Plan, providers: nat, stopped: bool, es: seq<Event>)
    requires Acceptable(p, providers) && Possible(p, Start(providers, stopped), es) && AllDone(After(p, Start(providers, stopped), es))
    ensures var s := After(p, Start(providers, stopped), es);
            WholePrefix(p, SortedRows(s)) && (s.failed <==> exists k | 0 <= k < |SortedRows(s)| :: !SortedRows(s)[k].completed)
  {
    var s := After(p, Start(providers, stopped), es);
    EachItemOnce(p, providers, stopped, es);
    StartIsInv(p, providers, stopped);
    RunKeepsInv(p, Start(providers, stopped), es);
    SortedRowsAreAPrefix(p, s);
  }

  lemma MetIff(p: Plan, s: State)
    requires WholePrefix(p, SortedRows(s))
    requires s.failed <==> exists k | 0 <= k < |SortedRows(s)| :: !SortedRows(s)[k].completed
    ensures ReportOf(p, s).verdict == Met <==> p.budget.Some? && !s.uncertain && ReportOf(p, s).inBudget == Some(Total(p))
    ensures s.failed && p.budget.Some? ==> ReportOf(p, s).inBudget.value < Total(p)
  {
    CountAtMost(SortedRows(s), All(p.budget));
  }

  /** The verdict is "met" exactly when there is a budget, no request may still be running,
      and every planned item was completed within the budget. */
  lemma MetIffEverythingInTime(p: Plan, providers: nat, stopped: bool, es: seq<Event>)
    requires Acceptable(p, providers) && Possible(p, Start(providers, stopped), es) && AllDone(After(p, Start(providers, stopped), es))
    ensures var s := After(p, Start(providers, stopped), es);
            ReportOf(p, s).verdict == Met
            <==> p.budget.Some? && !s.uncertain
                 && |SortedRows(s)| == Total(p) && forall k | 0 <= k < Total(p) :: Selects(All(p.budget), SortedRows(s)[k])
  {
    var s := After(p, Start(providers, stopped), es);
    Finished(p, providers, stopped, es);
    MetIff(p, s);
    CountAtMost(SortedRows(s), All(p.budget));
    if forall k | 0 <= k < |SortedRows(s)| :: Selects(All(p.budget), SortedRows(s)[k]) {
      CountEvery(SortedRows(s), All(p.budget));
    }
  }

  lemma {:induction false} CountEvery(rows: seq<Row>, q: Query)
    requires forall k | 0 <= k < |rows| :: Selects(q, rows[k])
    ensures Count(rows, q) == |rows|
  {
    if rows != [] { CountEvery(rows[..|rows| - 1], q); }
  }

  // ----------------------------------------------------------- both judgements agree

  /** Every position from 1 to the number of cases occurs among the cases. */
  predicate CoversPositions(positions: seq<int>) { forall v | 1 <= v <= |positions| :: v in positions }

  /** Then each occurs once, and no other does. */
  lemma CoveringIsPermuted(positions: seq<int>)
    requires CoversPositions(positions)
    ensures Distinct(positions) && forall i | 0 <= i < |positions| :: 1 <= positions[i] <= |positions|
  {
    var span := Range(1, |positions|);
    DistinctSize(positions);
    forall v | v in span ensures v in Elems(positions) { assert v in positions; }
    SubsetSize(span, Elems(positions));
    SameSize(span, Elems(positions));
    forall i | 0 <= i < |positions| ensures 1 <= positions[i] <= |positions| { assert positions[i] in Elems(positions); }
  }

  /** The positions prepared cases have, 1 to n in order, cover them. */
  lemma PreparedPositionsCover(positions: seq<int>)
    requires forall i | 0 <= i < |positions| :: positions[i] == i + 1
    ensures CoversPositions(positions)
  {
    forall v | 1 <= v <= |positions| ensures v in positions { assert positions[v - 1] == v; }
  }

  function TargetOf(p: Plan): Target
    requires p.budget.Some?
  {
    Target(p.repetitions, |p.positions|, p.budget.value)
  }

  function RunOf(p: Plan, report: Report): Run
    requires p.budget.Some?
  {
    Run(|p.positions|, p.repetitions, Some(p.budget.value), true, true, Some(report))
  }

  predicate Ready(p: Plan) { CoversPositions(p.positions) && p.budget.Some? && p.positions != [] && p.repetitions > 0 }

  lemma PlaceIsUnique(positions: seq<int>, i: nat)
    requires CoversPositions(positions) && i < |positions|
    ensures positions[i] in positions && Position(positions, positions[i]) == i
  {
    CoveringIsPermuted(positions);
    assert positions[Position(positions, positions[i])] == positions[i];
  }

  /** A row's pair of repetition and position determines its item. */
  lemma PairOf(p: Plan, rows: seq<Row>, k: nat)
    requires WholePrefix(p, rows) && Ready(p) && k < |rows|
    ensures 1 <= rows[k].repetition <= p.repetitions && 1 <= rows[k].position <= |p.positions| && rows[k].position in p.positions
    ensures k == (rows[k].repetition - 1) * |p.positions| + Position(p.positions, rows[k].position)
    ensures CountsFor(rows[k], TargetOf(p)) <==> Selects(All(p.budget), rows[k])
  {
    var n := |p.positions|;
    RowRepetitions(p, rows, k);
    CoveringIsPermuted(p.positions);
    assert rows[k].item == k && Fits(p, rows[k]);
    PlaceIsUnique(p.positions, k % n);
    assert k == k / n * n + k % n;
  }

  lemma {:induction false} PairsInRows(rows: seq<Row>, t: Target, pair: (int, int))
    ensures pair in OnTime(rows, t) <==> exists k | 0 <= k < |rows| :: CountsFor(rows[k], t) && (rows[k].repetition as int, rows[k].position) == pair
  {
    if rows != [] {
      var front := rows[..|rows| - 1];
      PairsInRows(front, t, pair);
      assert forall k | 0 <= k < |front| :: front[k] == rows[k];
      assert rows[|front|] == rows[|rows| - 1];
    }
  }

  lemma {:induction false} OnTimeSize(p: Plan, rows: seq<Row>)
    requires WholePrefix(p, rows) && Ready(p)
    ensures |OnTime(rows, TargetOf(p))| == Count(rows, All(p.budget))
  {
    if rows != [] {
      var n := |rows| - 1;
      var front, r, t := rows[..n], rows[n], TargetOf(p);
      OnTimeSize(p, front);
      PairOf(p, rows, n);
      var pair := (r.repetition as int, r.position);
      forall k | 0 <= k < n ensures (front[k].repetition as int, front[k].position) != pair {
        PairOf(p, rows, k);
        assert front[k] == rows[k];
      }
      PairsInRows(front, t, pair);
    }
  }

  lemma InTimeIsWhole(p: Plan, rows: seq<Row>, r: nat)
    requires WholePrefix(p, rows) && Ready(p) && 1 <= r <= p.repetitions && EveryItemInTime(p, rows, r, p.budget)
    ensures WholeCopy(OnTime(rows, TargetOf(p)), r, |p.positions|)
  {
    forall position | 1 <= position <= |p.positions| ensures Has(OnTime(rows, TargetOf(p)), r, position) {
      ItemInTime(p, rows, r, position);
    }
  }

  lemma WholeIsInTime(p: Plan, rows: seq<Row>, r: nat)
    requires WholePrefix(p, rows) && Ready(p) && 1 <= r <= p.repetitions && WholeCopy(OnTime(rows, TargetOf(p)), r, |p.positions|)
    ensures EveryItemInTime(p, rows, r, p.budget)
  {
    var n := |p.positions|;
    Scale(0, r - 1, n);
    CoveringIsPermuted(p.positions);
    forall k | (r - 1) * n <= k < (r - 1) * n + n ensures DoneAt(rows, k, p.budget) {
      assert Has(OnTime(rows, TargetOf(p)), r, p.positions[k - (r - 1) * n]);
      PairInTime(p, rows, r, k - (r - 1) * n);
    }
  }

  lemma WholeCopyIff(p: Plan, rows: seq<Row>, r: nat)
    requires WholePrefix(p, rows) && Ready(p) && 1 <= r <= p.repetitions
    ensures WholeCopy(OnTime(rows, TargetOf(p)), r, |p.positions|) <==> EveryItemInTime(p, rows, r, p.budget)
  {
    if EveryItemInTime(p, rows, r, p.budget) { InTimeIsWhole(p, rows, r); }
    if WholeCopy(OnTime(rows, TargetOf(p)), r, |p.positions|) { WholeIsInTime(p, rows, r); }
  }

  lemma ItemInTime(p: Plan, rows: seq<Row>, r: nat, position: int)
    requires WholePrefix(p, rows) && Ready(p) && 1 <= r <= p.repetitions && 1 <= position <= |p.positions|
    requires EveryItemInTime(p, rows, r, p.budget)
    ensures (r as int, position) in OnTime(rows, TargetOf(p))
  {
    assert position in p.positions;
    var i := Position(p.positions, position);
    var k := ItemAt(r, i, |p.positions|);
    assert DoneAt(rows, k, p.budget);
    PairOf(p, rows, k);
    RepetitionOf(k, |p.positions|, r);
    ItemPlace(r, i, |p.positions|);
    assert rows[k].item == k && Fits(p, rows[k]);
    PairsInRows(rows, TargetOf(p), (r as int, position));
  }

  lemma ItemAt(r: nat, i: nat, n: nat) returns (k: nat)
    requires r > 0 && i < n
    ensures k == (r - 1) * n + i && (r - 1) * n <= k < r * n
  {
    Scale(0, r - 1, n);
    assert r * n == (r - 1) * n + n;
    k := (r - 1) * n + i;
  }

  /** Where the i-th case stands in its repetition. */
  lemma ItemPlace(r: nat, i: nat, n: nat)
    requires r > 0 && i < n
    ensures (r - 1) * n + i >= 0 && ((r - 1) * n + i) % n == i && ((r - 1) * n + i) / n == r - 1
  {
    var k := ItemAt(r, i, n);
    RepetitionOf(k, n, r);
    assert k == k / n * n + k % n;
  }

  lemma PairInTime(p: Plan, rows: seq<Row>, r: nat, i: nat)
    requires WholePrefix(p, rows) && Ready(p) && 1 <= r <= p.repetitions && i < |p.positions|
    requires (r as int, p.positions[i]) in OnTime(rows, TargetOf(p))
    ensures DoneAt(rows, (r - 1) * |p.positions| + i, p.budget)
  {
    var t, pair := TargetOf(p), (r as int, p.positions[i]);
    PairsInRows(rows, t, pair);
    var m :| 0 <= m < |rows| && CountsFor(rows[m], t) && (rows[m].repetition as int, rows[m].position) == pair;
    PairOf(p, rows, m);
    PlaceIsUnique(p.positions, i);
  }

  /** Entries that claim all their samples in time. */
  function ClaimsOf(copies: seq<Copy>): nat
  {
    if copies == [] then 0 else ClaimsOf(copies[..|copies| - 1]) + if copies[|copies| - 1].allInBudget == Some(true) then 1 else 0
  }

  lemma {:induction false} CopiesAgree(p: Plan, rows: seq<Row>, to: nat)
    requires WholePrefix(p, rows) && Ready(p) && to <= p.repetitions
    ensures WholeCopies(OnTime(rows, TargetOf(p)), to, |p.positions|) == ClaimsOf(Copies(p, rows, to))
  {
    if to > 0 {
      CopiesAgree(p, rows, to - 1);
      WholeCopyIff(p, rows, to);
      CopyCount(p, rows, to, p.budget);
      CopiesFront(p, rows, to);
      assert CopyOf(p, rows, to).allInBudget == Some(true) <==> EveryItemInTime(p, rows, to, p.budget);
    }
  }

  lemma JudgementsAgree(p: Plan, s: State)
    requires Ready(p) && WholePrefix(p, SortedRows(s))
    requires s.failed <==> exists k | 0 <= k < |SortedRows(s)| :: !SortedRows(s)[k].completed
    ensures var r := ReportOf(p, s);
            Assess(RunOf(p, r), TargetOf(p)) == Assessment(true, r.verdict, r.inBudget, Some(ClaimsOf(r.copies)))
  {
    var rows := SortedRows(s);
    OnTimeSize(p, rows);
    CopiesAgree(p, rows, p.repetitions);
    MetIff(p, s);
    assert Total(p) == p.repetitions * |p.positions|;
  }

  ghost predicate FinishedRun(p: Plan, providers: nat, stopped: bool, es: seq<Event>)
    requires |p.positions| > 0
  {
    Possible(p, Start(providers, stopped), es) && AllDone(After(p, Start(providers, stopped), es))
  }

  /** The second judgement, against the run's own target, gives the report's verdict, its
      number of samples in time and as many whole copies as it claims. */
  predicate Agrees(p: Plan, r: Report)
    requires p.budget.Some?
  {
    Assess(RunOf(p, r), TargetOf(p)) == Assessment(true, r.verdict, r.inBudget, Some(ClaimsOf(r.copies)))
  }

  ghost predicate RunAgrees(p: Plan, providers: nat, stopped: bool, es: seq<Event>)
    requires |p.positions| > 0 && p.budget.Some? && FinishedRun(p, providers, stopped, es)
  {
    Agrees(p, ReportOf(p, After(p, Start(providers, stopped), es)))
  }

  /** Whenever the positions 1 to n all occur, both judgements of any finished batch agree. */
  lemma AssessmentAgreesWithReport(p: Plan, providers: nat, stopped: bool, es: seq<Event>)
    requires Acceptable(p, providers) && FinishedRun(p, providers, stopped, es)
    requires CoversPositions(p.positions) && p.budget.Some?
    ensures RunAgrees(p, providers, stopped, es)
    ensures ReportOf(p, After(p, Start(providers, stopped), es)).verdict in {Met, NotMet, Incomplete, Interrupted}
  {
    Finished(p, providers, stopped, es);
    JudgementsAgree(p, After(p, Start(providers, stopped), es));
  }

  // -------------------------------------------------------- a batch that does everything

  lemma Prepend(p: Plan, s: State, e: Event, es: seq<Event>)
    requires |p.positions| > 0 && Enabled(s, e) && Possible(p, Next(p, s, e), es)
    ensures Possible(p, s, [e] + es) && After(p, s, [e] + es) == After(p, Next(p, s, e), es)
  {
    assert ([e] + es)[1..] == es;
  }

  function DoneRow(p: Plan, k: nat): Row
    requires |p.positions| > 0
  {
    Row(k, p.positions[k % |p.positions|], k / |p.positions| + 1, true, 0)
  }

  /** The first consumer did the first c items at once, the others wait. */
  function Driven(p: Plan, providers: nat, c: nat): State
    requires |p.positions| > 0
  {
    State(c, false, false, false, false, seq(c, k requires 0 <= k < c => DoneRow(p, k)), seq(providers, i => Idle))
  }

  function With(s: State, w: Worker): State
    requires s.workers != []
  {
    s.(workers := s.workers[0 := w])
  }

  /** The consumer's five steps with one item. */
  lemma DriveOne(p: Plan, providers: nat, c: nat, rest: seq<Event>) returns (es: seq<Event>)
    requires Acceptable(p, providers) && p.budget.Some? && c < Total(p) && Possible(p, Driven(p, providers, c + 1), rest)
    ensures Possible(p, Driven(p, providers, c), es)
    ensures After(p, Driven(p, providers, c), es) == After(p, Driven(p, providers, c + 1), rest)
  {
    var s0 := Driven(p, providers, c);
    var s1 := With(s0.(cursor := c + 1), Working(c));
    var s2, s3, s4 := With(s1, Ended(c, true)), With(s1, Checked(c, true)), With(s1, Stamped(c, true, 0));
    assert Next(p, s0, By(0, Take(0))) == s1 && Next(p, s1, By(0, Return)) == s2;
    assert Next(p, s2, By(0, CheckActive(false))) == s3 && Next(p, s3, By(0, Stamp(0))) == s4;
    DriveAppends(p, providers, c, s4);
    es := [By(0, Append)] + rest;
    Prepend(p, s4, By(0, Append), rest);
    Prepend(p, s3, By(0, Stamp(0)), es);
    es := [By(0, Stamp(0))] + es;
    Prepend(p, s2, By(0, CheckActive(false)), es);
    es := [By(0, CheckActive(false))] + es;
    Prepend(p, s1, By(0, Return), es);
    es := [By(0, Return)] + es;
    Prepend(p, s0, By(0, Take(0)), es);
    es := [By(0, Take(0))] + es;
  }

  lemma DriveAppends(p: Plan, providers: nat, c: nat, s: State)
    requires |p.positions| > 0 && providers > 0
    requires s == With(Driven(p, providers, c).(cursor := c + 1), Stamped(c, true, 0))
    ensures Next(p, s, By(0, Append)) == Driven(p, providers, c + 1)
  {
    var s' := Next(p, s, By(0, Append));
    assert s'.rows == Driven(p, providers, c + 1).rows;
    assert s'.workers == Driven(p, providers, c + 1).workers;
  }

  /** From all items done, the first j consumers have ended. */
  function Retired(p: Plan, providers: nat, j: nat): State
    requires |p.positions| > 0
  {
    Driven(p, providers, Total(p)).(workers := seq(providers, i => if i < j then Done else Idle))
  }

  lemma {:induction false} Retire(p: Plan, providers: nat, j: nat) returns (es: seq<Event>)
    requires |p.positions| > 0 && j <= providers
    ensures Possible(p, Retired(p, providers, j), es)
    ensures After(p, Retired(p, providers, j), es) == Retired(p, providers, providers)
    decreases providers - j
  {
    if j == providers { return []; }
    var rest := Retire(p, providers, j + 1);
    var s := Retired(p, providers, j);
    assert Next(p, s, By(j, Take(0))).workers == Retired(p, providers, j + 1).workers;
    assert Next(p, s, By(j, Take(0))) == Retired(p, providers, j + 1);
    Prepend(p, s, By(j, Take(0)), rest);
    return [By(j, Take(0))] + rest;
  }

  lemma {:induction false} Drive(p: Plan, providers: nat, c: nat) returns (es: seq<Event>)
    requires Acceptable(p, providers) && p.budget.Some? && c <= Total(p)
    ensures Possible(p, Driven(p, providers, c), es)
    ensures After(p, Driven(p, providers, c), es) == Retired(p, providers, providers)
    decreases Total(p) - c
  {
    if c == Total(p) {
      assert Driven(p, providers, c).workers == Retired(p, providers, 0).workers;
      es := Retire(p, providers, 0);
    } else {
      var rest := Drive(p, providers, c + 1);
      es := DriveOne(p, providers, c, rest);
    }
  }

  lemma AllRetiredInTime(p: Plan, s: State)
    requires |p.positions| > 0 && p.budget.Some? && s.rows == seq(Total(p), k requires 0 <= k < Total(p) => DoneRow(p, k))
    ensures |SortedRows(s)| == Total(p) && forall k | 0 <= k < Total(p) :: Selects(All(p.budget), SortedRows(s)[k])
  {
    var rows := SortedRows(s);
    assert multiset(rows) == multiset(s.rows);
    assert |rows| == |multiset(rows)| && |s.rows| == |multiset(s.rows)|;
    forall k | 0 <= k < |rows| ensures Selects(All(p.budget), rows[k]) {
      assert rows[k] in multiset(rows) && rows[k] in s.rows;
    }
  }

  /** Every acceptable plan with a budget has a run that completes everything in time. */
  lemma SomeRunIsMet(p: Plan, providers: nat) returns (es: seq<Event>)
    requires Acceptable(p, providers) && p.budget.Some?
    ensures FinishedRun(p, providers, false, es)
    ensures ReportOf(p, After(p, Start(providers, false), es)).verdict == Met
    ensures ReportOf(p, After(p, Start(providers, false), es)).inBudget == Some(Total(p))
  {
    es := Drive(p, providers, 0);
    assert Start(providers, false) == Driven(p, providers, 0);
    var s := Retired(p, providers, providers);
    EachItemOnce(p, providers, false, es);
    MetIffEverythingInTime(p, providers, false, es);
    AllRetiredInTime(p, s);
    Finished(p, providers, false, es);
    MetIff(p, s);
  }

  // ------------------------------------------------------- positions that are not covered

  /** The pairs of repetition and position the second judgement looks for. */
  function Grid(p: Plan): seq<(int, int)>
    requires |p.positions| > 0
  {
    seq(Total(p), k requires 0 <= k < Total(p) => (k / |p.positions| + 1, k % |p.positions| + 1))
  }

  lemma InGrid(p: Plan, r: int, position: int)
    requires |p.positions| > 0 && 1 <= r <= p.repetitions && 1 <= position <= |p.positions|
    ensures (r, position) in Elems(Grid(p))
  {
    var n := |p.positions|;
    var k := ItemAt(r, position - 1, n);
    ItemPlace(r, position - 1, n);
    Scale(r, p.repetitions, n);
    assert Grid(p)[k] == (r, position);
  }

  lemma OnTimeMisses(p: Plan, rows: seq<Row>, v: int)
    requires WholePrefix(p, rows) && p.budget.Some? && p.repetitions > 0 && 1 <= v <= |p.positions| && v !in p.positions
    ensures |OnTime(rows, TargetOf(p))| < Total(p)
  {
    var onTime, grid := OnTime(rows, TargetOf(p)), Elems(Grid(p));
    forall pair | pair in onTime ensures pair in grid - {(1, v)} {
      PairsInRows(rows, TargetOf(p), pair);
      var k :| 0 <= k < |rows| && CountsFor(rows[k], TargetOf(p)) && (rows[k].repetition as int, rows[k].position) == pair;
      assert rows[k].item == k && Fits(p, rows[k]);
      InGrid(p, pair.0, pair.1);
    }
    InGrid(p, 1, v);
    DistinctSize(Grid(p));
    SubsetSize(onTime, grid - {(1, v)});
  }

  /** Where a position from 1 to n does not occur, some finished batch is met and counts
      every item, and the second judgement counts fewer and says it is not met. */
  lemma MissingPositionIsMiscounted(p: Plan, providers: nat, v: int) returns (es: seq<Event>)
    requires Acceptable(p, providers) && p.budget.Some? && 1 <= v <= |p.positions| && v !in p.positions
    ensures FinishedRun(p, providers, false, es)
    ensures var r := ReportOf(p, After(p, Start(providers, false), es));
            && r.verdict == Met && r.inBudget == Some(Total(p))
            && Assess(RunOf(p, r), TargetOf(p)).verdict == NotMet
            && Assess(RunOf(p, r), TargetOf(p)).inBudget.Some? && Assess(RunOf(p, r), TargetOf(p)).inBudget.value < Total(p)
  {
    es := SomeRunIsMet(p, providers);
    var s := After(p, Start(providers, false), es);
    Finished(p, providers, false, es);
    MetIff(p, s);
    OnTimeMisses(p, SortedRows(s), v);
    assert Total(p) == p.repetitions * |p.positions|;
  }

  /** The two judgements agree on every finished batch of a plan, whatever its providers do,
      exactly when each position from 1 to the number of cases occurs among the cases. */
  lemma JudgementsAgreeIff(p: Plan, providers: nat)
    requires Acceptable(p, providers) && p.budget.Some?
    ensures (forall stopped: bool, es: seq<Event> | FinishedRun(p, providers, stopped, es) :: RunAgrees(p, providers, stopped, es))
       <==> CoversPositions(p.positions)
  {
    if CoversPositions(p.positions) {
      forall stopped: bool, es: seq<Event> | FinishedRun(p, providers, stopped, es) ensures RunAgrees(p, providers, stopped, es) {
        AssessmentAgreesWithReport(p, providers, stopped, es);
      }
    } else {
      var v :| 1 <= v <= |p.positions| && v !in p.positions;
      var es := MissingPositionIsMiscounted(p, providers, v);
      assert !RunAgrees(p, providers, false, es);
    }
  }

  const Twice := Plan([1, 1], 1, Some(10))

  /** The smallest case: two cases with one position. A finished batch is met and counts
      two, and is assessed as not met with one. */
  lemma RepeatedPositionIsMiscounted() returns (es: seq<Event>)
    ensures FinishedRun(Twice, 1, false, es)
    ensures var r := ReportOf(Twice, After(Twice, Start(1, false), es));
            && r.verdict == Met && r.inBudget == Some(2)
            && Assess(RunOf(Twice, r), TargetOf(Twice)).verdict == NotMet
            && Assess(RunOf(Twice, r), TargetOf(Twice)).inBudget == Some(1)
  {
    es := MissingPositionIsMiscounted(Twice, 1, 2);
    var s := After(Twice, Start(1, false), es);
    Finished(Twice, 1, false, es);
    MetIffEverythingInTime(Twice, 1, false, es);
    var rows, t := SortedRows(s), TargetOf(Twice);
    assert rows[0].item == 0 && Fits(Twice, rows[0]) && Selects(All(Some(10)), rows[0]);
    PairsInRows(rows, t, (1, 1));
    assert {(1, 1)} <= OnTime(rows, t);
    SubsetSize({(1, 1)}, OnTime(rows, t));
  }
}
