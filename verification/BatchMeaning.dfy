/** What a finished batch and its two judgements say about the run: rows, flags and verdicts
    in terms of what the consumers and providers did. */
module BatchMeaning {
  import opened Basics
  import opened Sorting
  import opened Measurement
  import opened BudgetReport

  // ------------------------------------------------------------------------- the rows

  /** When each item's row was stamped, and which items' requests returned, along a run. */
  datatype Seen = Seen(stamps: map<nat, nat>, returned: set<nat>)

  function SeenBy(s: State, e: Event, h: Seen): Seen
    requires Measurement.Enabled(s, e)
  {
    if e.By? && e.step.Stamp? then h.(stamps := h.stamps[s.workers[e.who].item := e.step.elapsed])
    else if e.By? && e.step.Return? then h.(returned := h.returned + {s.workers[e.who].item})
    else h
  }

  ghost function AllSeen(p: Plan, s: State, es: seq<Event>, h: Seen): Seen
    requires |p.positions| > 0 && Possible(p, s, es)
    decreases |es|
  {
    if es == [] then h else AllSeen(p, Next(p, s, es[0]), es[1..], SeenBy(s, es[0], h))
  }

  /** No item is with two consumers, with one and in a row, or in two rows. */
  ghost predicate Apart(s: State)
  {
    && (forall i, j | 0 <= i < j < |s.workers| && Holds(s.workers[i]) && Holds(s.workers[j]) :: s.workers[i].item != s.workers[j].item)
    && (forall i, r | 0 <= i < |s.workers| && Holds(s.workers[i]) && 0 <= r < |s.rows| :: s.workers[i].item != s.rows[r].item)
    && (forall i | 0 <= i < |s.workers| && Holds(s.workers[i]) :: s.workers[i].item < s.cursor)
    && (forall r | 0 <= r < |s.rows| :: s.rows[r].item < s.cursor)
  }

  predicate RowTells(r: Row, h: Seen)
  {
    r.item in h.stamps && r.at == h.stamps[r.item] && (r.completed <==> r.item in h.returned)
  }

  predicate WorkerTells(w: Worker, h: Seen)
  {
    match w
    case Working(item) => item !in h.returned
    case Raised(item, _) => item !in h.returned
    case Aborting(item, _) => item !in h.returned
    case Ended(item, completed) => completed <==> item in h.returned
    case Stopping(item, completed) => completed <==> item in h.returned
    case Checked(item, completed) => completed <==> item in h.returned
    case Stamped(item, completed, at) => (completed <==> item in h.returned) && item in h.stamps && at == h.stamps[item]
    case _ => true
  }

  ghost predicate Tells(s: State, h: Seen)
  {
    && (forall r | 0 <= r < |s.rows| :: RowTells(s.rows[r], h))
    && (forall i | 0 <= i < |s.workers| :: WorkerTells(s.workers[i], h))
    && (forall k | k in h.returned :: k < s.cursor)
  }

  lemma StepKeepsApart(p: Plan, s: State, e: Event)
    requires |p.positions| > 0 && Measurement.Enabled(s, e) && Apart(s)
    ensures Apart(Next(p, s, e))
  {
    if e.By? { WorkerStep(p, s, e); }
  }

  ghost predicate OwnTells(p: Plan, s: State, e: Event, h: Seen)
    requires |p.positions| > 0 && Measurement.Enabled(s, e) && e.By?
  {
    var s', h' := Next(p, s, e), SeenBy(s, e, h);
    && e.who < |s'.workers| && WorkerTells(s'.workers[e.who], h')
    && (forall r | |s.rows| <= r < |s'.rows| :: RowTells(s'.rows[r], h'))
    && (forall k | k in h'.returned :: k < s'.cursor)
  }

  lemma TakeTells(p: Plan, s: State, e: Event, h: Seen)
    requires |p.positions| > 0 && Measurement.Enabled(s, e) && e.By? && e.step.Take? && Tells(s, h)
    ensures OwnTells(p, s, e, h)
  {
  }

  lemma AppendTells(p: Plan, s: State, e: Event, h: Seen)
    requires |p.positions| > 0 && Measurement.Enabled(s, e) && e.By? && e.step.Append? && Tells(s, h)
    ensures OwnTells(p, s, e, h)
  {
    assert WorkerTells(s.workers[e.who], h);
  }

  lemma InnerTells(p: Plan, s: State, e: Event, h: Seen)
    requires |p.positions| > 0 && Measurement.Enabled(s, e) && e.By? && !e.step.Take? && !e.step.Append? && Apart(s) && Tells(s, h)
    ensures OwnTells(p, s, e, h)
  {
    InnerMoves(p, s, e);
    assert WorkerTells(s.workers[e.who], h);
    assert s.workers[e.who].item < s.cursor;
  }

  /** What a step of one consumer does to its own item. */
  lemma OwnStep(p: Plan, s: State, e: Event, h: Seen)
    requires |p.positions| > 0 && Measurement.Enabled(s, e) && e.By? && Apart(s) && Tells(s, h)
    ensures OwnTells(p, s, e, h)
  {
    if e.step.Take? { TakeTells(p, s, e, h); }
    else if e.step.Append? { AppendTells(p, s, e, h); }
    else { InnerTells(p, s, e, h); }
  }

  lemma StepTells(p: Plan, s: State, e: Event, h: Seen)
    requires |p.positions| > 0 && Measurement.Enabled(s, e) && Apart(s) && Tells(s, h)
    ensures Tells(Next(p, s, e), SeenBy(s, e, h))
  {
    if e.By? {
      var s', h' := Next(p, s, e), SeenBy(s, e, h);
      WorkerStep(p, s, e);
      OwnStep(p, s, e, h);
      forall r | 0 <= r < |s'.rows| ensures RowTells(s'.rows[r], h') {
        if r < |s.rows| { assert s'.rows[r] == s.rows[r] && RowTells(s.rows[r], h); }
      }
      forall i | 0 <= i < |s'.workers| ensures WorkerTells(s'.workers[i], h') {
        if i != e.who { OthersTell(s, s', e, h, i); }
      }
    }
  }

  lemma OthersTell(s: State, s': State, e: Event, h: Seen, i: nat)
    requires Measurement.Enabled(s, e) && e.By? && Apart(s) && Tells(s, h) && i < |s.workers| && i != e.who
    requires |s'.workers| == |s.workers| && s'.workers[i] == s.workers[i]
    ensures WorkerTells(s'.workers[i], SeenBy(s, e, h))
  {
    assert WorkerTells(s.workers[i], h);
  }

  lemma {:induction false} RunTells(p: Plan, s: State, es: seq<Event>, h: Seen)
    requires |p.positions| > 0 && Possible(p, s, es) && Apart(s) && Tells(s, h)
    ensures Tells(After(p, s, es), AllSeen(p, s, es, h))
    decreases |es|
  {
    if es != [] {
      StepKeepsApart(p, s, es[0]);
      StepTells(p, s, es[0], h);
      RunTells(p, Next(p, s, es[0]), es[1..], SeenBy(s, es[0], h));
    }
  }

  /** Under every interleaving each row carries the time its item was stamped with, and says
      "completed" exactly if its request returned. */
  lemma RowsTellTheRun(p: Plan, providers: nat, stopped: bool, es: seq<Event>, k: nat)
    requires |p.positions| > 0 && Possible(p, Start(providers, stopped), es)
    requires k < |SortedRows(After(p, Start(providers, stopped), es))|
    ensures RowTells(SortedRows(After(p, Start(providers, stopped), es))[k], AllSeen(p, Start(providers, stopped), es, Seen(map[], {})))
  {
    var s := After(p, Start(providers, stopped), es);
    RunTells(p, Start(providers, stopped), es, Seen(map[], {}));
    assert SortedRows(s)[k] in multiset(s.rows);
  }

  /** A consumer takes the next item exactly while nothing asked to stop, items are left and
      the budget has not run out; otherwise it ends, and only the budget marks the batch late. */
  lemma ItemsAreTakenInTime(p: Plan, s: State, who: nat, elapsed: nat)
    requires |p.positions| > 0 && Measurement.Enabled(s, By(who, Take(elapsed)))
    ensures var s' := Next(p, s, By(who, Take(elapsed)));
            var open, inTime := !s.abort && s.cursor != Total(p), p.budget.Some? ==> elapsed < p.budget.value;
            && s'.workers[who] == (if open && inTime then Working(s.cursor) else Done)
            && s'.cursor == (if open && inTime then s.cursor + 1 else s.cursor)
            && s' == s.(workers := s'.workers, cursor := s'.cursor, expired := s.expired || (open && !inTime))
  {
  }

  // ------------------------------------------------------------------------- the flags

  /** An error after which the request may still be running. */
  predicate Unclear(e: Error) { e == RequestError(false) || e == OtherError(false) }

  /** A provider that is still busy afterwards, or an unclear error. */
  predicate LeavesUnclear(e: Event)
  {
    e.By? && (e.step == CheckActive(true) || (e.step.Raise? && Unclear(e.step.error)))
  }

  /** What makes consumers stop: a request to, an error, or a busy provider. */
  predicate Stops(e: Event) { e.StopRequested? || (e.By? && (e.step.Raise? || e.step == CheckActive(true))) }

  predicate HoldsUnclear(w: Worker) { (w.Raised? || w.Aborting?) && Unclear(w.error) }

  predicate HoldsStop(w: Worker) { w.Raised? || w.Stopping? }

  predicate SomeWorker(workers: seq<Worker>, holds: Worker -> bool) { exists i | 0 <= i < |workers| :: holds(workers[i]) }

  lemma WorkerUpdate(workers: seq<Worker>, i: nat, w: Worker, holds: Worker -> bool)
    requires i < |workers|
    ensures SomeWorker(workers[i := w], holds) || holds(workers[i]) <==> SomeWorker(workers, holds) || holds(w)
    ensures holds(w) ==> SomeWorker(workers[i := w], holds)
    ensures holds(workers[i]) ==> SomeWorker(workers, holds)
  {
    var workers' := workers[i := w];
    assert workers'[i] == w && forall j | 0 <= j < |workers| && j != i :: workers'[j] == workers[j];
  }

  predicate WillBeUncertain(s: State) { s.uncertain || SomeWorker(s.workers, HoldsUnclear) }

  predicate WillAbort(s: State) { s.abort || SomeWorker(s.workers, HoldsStop) }

  lemma FlagStep(p: Plan, s: State, e: Event)
    requires |p.positions| > 0 && Measurement.Enabled(s, e) && e.By?
    ensures var (s', w) := (Next(p, s, e), s.workers[e.who]);
            && s'.workers == s.workers[e.who := s'.workers[e.who]]
            && (s'.uncertain || HoldsUnclear(s'.workers[e.who]) <==> s.uncertain || HoldsUnclear(w) || LeavesUnclear(e))
            && (s'.abort || HoldsStop(s'.workers[e.who]) <==> s.abort || HoldsStop(w) || Stops(e))
            && (s.uncertain ==> s'.uncertain) && (s.abort ==> s'.abort)
            && (HoldsUnclear(w) ==> s'.uncertain || HoldsUnclear(s'.workers[e.who]))
  {
    match e.step
    case Take(_) =>
    case Return =>
    case Raise(_) =>
    case SetAbort =>
    case Classify =>
    case CheckActive(_) =>
    case SetStop =>
    case Stamp(_) =>
    case Append =>
  }

  lemma StepFlags(p: Plan, s: State, e: Event)
    requires |p.positions| > 0 && Measurement.Enabled(s, e)
    ensures WillBeUncertain(Next(p, s, e)) <==> WillBeUncertain(s) || LeavesUnclear(e)
    ensures WillAbort(Next(p, s, e)) <==> WillAbort(s) || Stops(e)
  {
    if e.By? {
      FlagStep(p, s, e);
      WorkerUpdate(s.workers, e.who, Next(p, s, e).workers[e.who], HoldsUnclear);
      WorkerUpdate(s.workers, e.who, Next(p, s, e).workers[e.who], HoldsStop);
    }
  }

  predicate AnyUnclear(es: seq<Event>) { exists i | 0 <= i < |es| :: LeavesUnclear(es[i]) }

  predicate AnyStop(es: seq<Event>) { exists i | 0 <= i < |es| :: Stops(es[i]) }

  lemma FirstOrRest(es: seq<Event>)
    requires es != []
    ensures AnyUnclear(es) <==> LeavesUnclear(es[0]) || AnyUnclear(es[1..])
    ensures AnyStop(es) <==> Stops(es[0]) || AnyStop(es[1..])
  {
    assert forall i | 0 < i < |es| :: es[1..][i - 1] == es[i];
  }

  lemma {:induction false} RunFlags(p: Plan, s: State, es: seq<Event>)
    requires |p.positions| > 0 && Possible(p, s, es)
    ensures WillBeUncertain(After(p, s, es)) <==> WillBeUncertain(s) || AnyUnclear(es)
    ensures WillAbort(After(p, s, es)) <==> WillAbort(s) || AnyStop(es)
    decreases |es|
  {
    if es != [] {
      StepFlags(p, s, es[0]);
      RunFlags(p, Next(p, s, es[0]), es[1..]);
      FirstOrRest(es);
    }
  }

  /** When a batch has ended, its flags are what happened in it. */
  lemma FlagsTellTheRun(p: Plan, providers: nat, stopped: bool, es: seq<Event>)
    requires |p.positions| > 0 && FinishedRun(p, providers, stopped, es)
    ensures After(p, Start(providers, stopped), es).uncertain <==> AnyUnclear(es)
    ensures After(p, Start(providers, stopped), es).abort <==> stopped || AnyStop(es)
  {
    RunFlags(p, Start(providers, stopped), es);
  }

  // ------------------------------------------------------------------------- the report

  /** The rows completed by the deadline, of one repetition or of all. */
  function InTime(rows: seq<Row>, deadline: Option<nat>, repetition: Option<nat>): set<int>
  {
    set k | 0 <= k < |rows| && rows[k].completed && (deadline.Some? ==> rows[k].at <= deadline.value)
            && (repetition.Some? ==> rows[k].repetition == repetition.value)
  }

  lemma CountsAre(rows: seq<Row>, deadline: Option<nat>, r: nat)
    ensures Count(rows, All(deadline)) == |InTime(rows, deadline, None)|
    ensures Count(rows, Within(deadline, r, r)) == |InTime(rows, deadline, Some(r))|
  {
    CountIsSelected(rows, All(deadline));
    CountIsSelected(rows, Within(deadline, r, r));
    assert Selected(rows, All(deadline)) == InTime(rows, deadline, None);
    assert Selected(rows, Within(deadline, r, r)) == InTime(rows, deadline, Some(r));
  }

  /** One repetition's entry counts its rows. */
  lemma CopyCountsRows(p: Plan, rows: seq<Row>, r: nat)
    ensures var (copy, inTime) := (CopyOf(p, rows, r), |InTime(rows, p.budget, Some(r))|);
            && copy.repetition == r && copy.planned == |p.positions| && copy.completed == |InTime(rows, None, Some(r))|
            && copy.inBudget == (if p.budget.Some? then Some(inTime) else None)
            && copy.allInBudget == (if p.budget.Some? then Some(inTime == |p.positions|) else None)
  {
    CountsAre(rows, None, r);
    CountsAre(rows, p.budget, r);
  }

  /** The report's numbers as sizes of sets of rows, with one entry for each repetition. */
  lemma ReportCountsRows(p: Plan, s: State)
    ensures var (report, rows) := (ReportOf(p, s), SortedRows(s));
            && report.rows == rows && report.started == |rows| && report.planned == |p.positions| * p.repetitions
            && report.completed == |InTime(rows, None, None)| && report.unconfirmed == s.uncertain
            && report.inBudget == (if p.budget.Some? then Some(|InTime(rows, p.budget, None)|) else None)
            && |report.copies| == p.repetitions && forall r | 1 <= r <= p.repetitions :: report.copies[r - 1] == CopyOf(p, rows, r)
  {
    var rows := SortedRows(s);
    CountsAre(rows, None, 1);
    CountsAre(rows, p.budget, 1);
    CopiesListed(p, rows, p.repetitions);
  }

  /** The verdict of a finished batch, by what happened in it: incomplete after a failed row
      or an unclear end, else met if everything was in time, else interrupted after a stop,
      and otherwise not measured or not met. */
  lemma VerdictTellsTheRun(p: Plan, providers: nat, stopped: bool, es: seq<Event>)
    requires Acceptable(p, providers) && FinishedRun(p, providers, stopped, es)
    ensures var s := After(p, Start(providers, stopped), es);
            var rows := SortedRows(s);
            ReportOf(p, s).verdict
            == if AnyUnclear(es) || exists k | 0 <= k < |rows| :: !rows[k].completed then Incomplete
               else if p.budget.Some? && |rows| == Total(p) && (forall k | 0 <= k < |rows| :: rows[k].at <= p.budget.value) then Met
               else if stopped || AnyStop(es) then Interrupted
               else if p.budget.None? then NotMeasured else NotMet
  {
    var s := After(p, Start(providers, stopped), es);
    FlagsTellTheRun(p, providers, stopped, es);
    Finished(p, providers, stopped, es);
    MetIffEverythingInTime(p, providers, stopped, es);
  }

  // --------------------------------------------------------------- the second judgement

  predicate PairInTime(rows: seq<Row>, t: Target, repetition: int, position: int)
  {
    exists k | 0 <= k < |rows| :: rows[k].completed && rows[k].at <= t.budget && rows[k].repetition == repetition && rows[k].position == position
  }

  predicate AllPairsInTime(rows: seq<Row>, t: Target)
  {
    forall repetition, position | 1 <= repetition <= t.students && 1 <= position <= t.samples :: PairInTime(rows, t, repetition, position)
  }

  /** The plan whose pairs the target asks for. */
  function PlanOf(t: Target): Plan
    requires ValidTarget(t)
  {
    Plan(seq(t.samples, i => i + 1), t.students, Some(t.budget))
  }

  lemma OnTimeIff(rows: seq<Row>, t: Target, repetition: int, position: int)
    ensures (repetition, position) in OnTime(rows, t)
       <==> 1 <= repetition <= t.students && 1 <= position <= t.samples && PairInTime(rows, t, repetition, position)
  {
    PairsInRows(rows, t, (repetition, position));
  }

  lemma GridIsDistinct(p: Plan)
    requires |p.positions| > 0
    ensures Distinct(Grid(p))
  {
    var n := |p.positions|;
    forall i, j | 0 <= i < j < Total(p) ensures Grid(p)[i] != Grid(p)[j] {
      assert i == i / n * n + i % n && j == j / n * n + j % n;
    }
  }

  lemma FullSubset(a: set<(int, int)>, b: set<(int, int)>)
    requires a <= b
    ensures |a| == |b| <==> a == b
  {
    assert b == a + (b - a);
    assert |b| == |a| + |b - a|;
  }

  lemma OnTimeInGrid(rows: seq<Row>, t: Target)
    requires ValidTarget(t)
    ensures OnTime(rows, t) <= Elems(Grid(PlanOf(t)))
    ensures |Elems(Grid(PlanOf(t)))| == t.students * t.samples
  {
    var p := PlanOf(t);
    forall pair | pair in OnTime(rows, t) ensures pair in Elems(Grid(p)) {
      OnTimeIff(rows, t, pair.0, pair.1);
      InGrid(p, pair.0, pair.1);
    }
    GridIsDistinct(p);
    DistinctSize(Grid(p));
    assert Total(p) == t.samples * t.students == t.students * t.samples;
  }

  lemma GridPairs(t: Target, k: nat)
    requires ValidTarget(t) && k < |Grid(PlanOf(t))|
    ensures var (repetition, position) := Grid(PlanOf(t))[k]; 1 <= repetition <= t.students && 1 <= position <= t.samples
  {
    var p := PlanOf(t);
    RepetitionOf(k, |p.positions|, p.repetitions);
  }

  /** There are as many pairs in time as planned items exactly if every pair is in time. */
  lemma AllOnTimeIff(rows: seq<Row>, t: Target)
    requires ValidTarget(t)
    ensures |OnTime(rows, t)| == t.students * t.samples <==> AllPairsInTime(rows, t)
  {
    var p, onTime := PlanOf(t), OnTime(rows, t);
    OnTimeInGrid(rows, t);
    FullSubset(onTime, Elems(Grid(p)));
    if AllPairsInTime(rows, t) {
      forall pair | pair in Elems(Grid(p)) ensures pair in onTime {
        var k :| 0 <= k < |Grid(p)| && Grid(p)[k] == pair;
        GridPairs(t, k);
        assert PairInTime(rows, t, pair.0, pair.1);
        OnTimeIff(rows, t, pair.0, pair.1);
      }
      assert onTime == Elems(Grid(p));
    }
    if onTime == Elems(Grid(p)) {
      forall repetition, position | 1 <= repetition <= t.students && 1 <= position <= t.samples ensures PairInTime(rows, t, repetition, position) {
        InGrid(p, repetition, position);
        OnTimeIff(rows, t, repetition, position);
      }
    }
  }

  /** The saved run is one of the target's workload: its samples, students and budget. */
  predicate OfWorkload(run: Run, t: Target)
  {
    && run.samples == t.samples && run.repetitions == t.students && run.budget == Some(t.budget)
    && run.measured.Some? && run.measured.value.planned == t.students * t.samples
  }

  /** The judgement, exactly: not tested on another workload or model, incomplete after an
      unconfirmed end, met if every pair of repetition and position is in time, and otherwise
      what the report said of an early end, or not met. */
  lemma AssessmentIs(run: Run, t: Target)
    requires ValidTarget(t)
    ensures var a := Assess(run, t);
            && (a.matches <==> OfWorkload(run, t))
            && (!a.matches ==> a.inBudget.None? && a.completeCopies.None?)
            && (!a.matches || !run.realModel || !run.sameModel ==> a.verdict == NotTested)
            && (a.matches && run.realModel && run.sameModel ==>
                  var report := run.measured.value;
                  a.verdict == if report.unconfirmed then Incomplete
                               else if AllPairsInTime(report.rows, t) then Met
                               else if report.verdict == Incomplete || report.verdict == Interrupted then report.verdict else NotMet)
  {
    if OfWorkload(run, t) { AllOnTimeIff(run.measured.value.rows, t); }
  }

  /** Repetitions whose positions are all in time. */
  function WholeRepetitions(rows: seq<Row>, t: Target): set<int>
  {
    set r | r in Range(1, t.students) && forall position | 1 <= position <= t.samples :: PairInTime(rows, t, r, position)
  }

  lemma WholeIff(rows: seq<Row>, t: Target, r: int)
    requires 1 <= r <= t.students
    ensures WholeCopy(OnTime(rows, t), r, t.samples) <==> forall position | 1 <= position <= t.samples :: PairInTime(rows, t, r, position)
  {
    forall position | 1 <= position <= t.samples ensures Has(OnTime(rows, t), r, position) <==> PairInTime(rows, t, r, position) {
      OnTimeIff(rows, t, r, position);
    }
  }

  function WholeUpTo(onTime: set<(int, int)>, n: nat, samples: int): set<int>
  {
    set r | r in Range(1, n) && WholeCopy(onTime, r, samples)
  }

  lemma {:induction false} WholeCopiesAre(onTime: set<(int, int)>, n: nat, samples: int)
    ensures WholeCopies(onTime, n, samples) == |WholeUpTo(onTime, n, samples)|
  {
    if n == 0 {
      assert WholeUpTo(onTime, 0, samples) == {};
    } else {
      WholeCopiesAre(onTime, n - 1, samples);
      assert WholeUpTo(onTime, n, samples) == WholeUpTo(onTime, n - 1, samples) + if WholeCopy(onTime, n, samples) then {n as int} else {};
    }
  }

  /** The number of whole copies is the number of those repetitions. */
  lemma CompleteCopiesAre(run: Run, t: Target)
    requires ValidTarget(t) && OfWorkload(run, t)
    ensures Assess(run, t).completeCopies == Some(|WholeRepetitions(run.measured.value.rows, t)|)
  {
    var rows := run.measured.value.rows;
    WholeCopiesAre(OnTime(rows, t), t.students, t.samples);
    forall r | r in Range(1, t.students) ensures WholeCopy(OnTime(rows, t), r, t.samples) <==> r in WholeRepetitions(rows, t) { WholeIff(rows, t, r); }
    assert WholeUpTo(OnTime(rows, t), t.students, t.samples) == WholeRepetitions(rows, t);
  }
}
