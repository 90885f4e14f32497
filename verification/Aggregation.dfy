/** Sample outcomes, their checks, and the challenge aggregate over exact rationals. */
module Aggregation {
  import opened Basics
  import opened Evaluation

  datatype Task = Segmentation | Upos | Xpos | Dependency | Transliteration
  datatype Score = Seg(seg: SegmentationScore) | Tag(tag: TaggingScore) | Dep(dep: DependencyScore) | Trans(trans: TransliterationScore)
  datatype ErrorCode =
    | UnknownTask | InvalidJson | TopLevelNotObject | MissingField | ExtraField | WrongType | EmptyValue | InvalidValue
    | InvalidTag | DuplicateTokenId | LengthMismatch | TokenIdMismatch | InvalidHeadId

  datatype Outcome = Outcome(sample: nat, task: Task, goldItems: int, score: Option<Score>, error: Option<ErrorCode>)

  predicate Fits(task: Task, score: Score)
  {
    match task
    case Segmentation => score.Seg?
    case Upos => score.Tag?
    case Xpos => score.Tag?
    case Dependency => score.Dep?
    case Transliteration => score.Trans?
  }

  function GoldItems(score: Score): int
  {
    match score
    case Seg(s) => s.gold
    case Tag(s) => s.total
    case Dep(s) => s.total
    case Trans(s) => s.total
  }

  /** A metric in [0, 1] that equals what its counts give. */
  predicate Metric(value: real, expected: real) { 0.0 <= value <= 1.0 && value == expected }

  predicate Structural(score: Score)
  {
    match score
    case Seg(s) => !s.validSurface ==> s.correct == 0 && !s.exactMatch
    case Tag(s) => s.validLength
    case Dep(s) => s.validStructure
    case Trans(s) => s.validLength
  }

  predicate CountsAgree(score: Score)
  {
    match score
    case Seg(s) =>
      && s.correct <= s.predicted && s.correct <= s.gold
      && Metric(s.precision, Ratio(s.correct, s.predicted))
      && Metric(s.recall, Ratio(s.correct, s.gold))
      && Metric(s.f1, F1(Ratio(s.correct, s.predicted), Ratio(s.correct, s.gold)))
    case Tag(s) => s.correct <= s.total && Metric(s.accuracy, Ratio(s.correct, s.total))
    case Dep(s) =>
      && s.labeled <= s.heads <= s.total
      && Metric(s.uas, Ratio(s.heads, s.total)) && Metric(s.las, Ratio(s.labeled, s.total))
    case Trans(s) =>
      && s.correct <= s.total && Metric(s.accuracy, Ratio(s.correct, s.total))
      && (s.exactMatch <==> s.correct == s.total)
  }

  /** What the outcome's constructor lets through. */
  predicate Valid(o: Outcome)
  {
    && o.goldItems > 0
    && o.error != Some(UnknownTask)
    && (o.score.None? <==> o.error.Some?)
    && (o.score.Some? ==>
          && Fits(o.task, o.score.value) && GoldItems(o.score.value) == o.goldItems
          && Structural(o.score.value) && CountsAgree(o.score.value))
  }

  // --------------------------------------- the scorers only produce acceptable outcomes

  lemma SegmentationScoresAreValid(sample: nat, gold: seq<string>, predicted: seq<string>)
    requires gold != [] && ScoreSegmentation(gold, predicted).Some?
    ensures Valid(Outcome(sample, Segmentation, |gold|, Some(Seg(ScoreSegmentation(gold, predicted).value)), None))
  {
    var s := ScoreSegmentation(gold, predicted).value;
    CorrectWithinBoth(gold, predicted);
    F1OfCounts(s.correct, |predicted|, |gold|);
    RatioIsOne(s.correct, |gold|);
    if |predicted| > 0 { RatioIsOne(s.correct, |predicted|); }
  }

  lemma TagScoresAreValid(sample: nat, task: Task, gold: seq<string>, predicted: seq<string>)
    requires task.Upos? || task.Xpos?
    requires gold != [] && ScoreTags(gold, predicted).Some?
    ensures ScoreTags(gold, predicted).value.validLength
       <==> Valid(Outcome(sample, task, |gold|, Some(Tag(ScoreTags(gold, predicted).value)), None))
  {
    if |gold| == |predicted| {
      MatchesBounds(gold, predicted);
      RatioIsOne(Matches(gold, predicted), |gold|);
    }
  }

  lemma DependencyScoresAreValid(sample: nat, gold: seq<Arc>, predicted: seq<Arc>)
    requires gold != [] && ScoreDependencies(gold, predicted).Some?
    ensures ScoreDependencies(gold, predicted).value.validStructure
       <==> Valid(Outcome(sample, Dependency, |gold|, Some(Dep(ScoreDependencies(gold, predicted).value)), None))
  {
    var s := ScoreDependencies(gold, predicted).value;
    DependencyBounds(gold, predicted);
    RatioIsOne(s.heads, s.total);
    RatioIsOne(s.labeled, s.total);
  }

  lemma TransliterationScoresAreValid(sample: nat, gold: seq<string>, predicted: seq<string>, nfc: string -> string)
    requires gold != [] && ScoreTransliteration(gold, predicted, nfc).Some?
    ensures ScoreTransliteration(gold, predicted, nfc).value.validLength
       <==> Valid(Outcome(sample, Transliteration, |gold|, Some(Trans(ScoreTransliteration(gold, predicted, nfc).value)), None))
  {
    if |gold| == |predicted| {
      MatchesBounds(Normalized(gold, nfc), Normalized(predicted, nfc));
      RatioIsOne(Matches(Normalized(gold, nfc), Normalized(predicted, nfc)), |gold|);
    }
  }

  // --------------------------------------------------------------------------- counters

  datatype Counter = GoldCount | CorrectTokens | PredictedTokens | CorrectTags | CorrectHeads | CorrectLabels | CorrectForms | ExactSentences | Scored
                   | TwiceCorrect | PredictedAndGold

  function CountIn(o: Outcome, c: Counter): int
    decreases if c.TwiceCorrect? || c.PredictedAndGold? then 1 else 0
  {
    match c
    case GoldCount => o.goldItems
    case Scored => if o.score.Some? then 1 else 0
    case TwiceCorrect => 2 * CountIn(o, CorrectTokens)
    case PredictedAndGold => CountIn(o, PredictedTokens) + o.goldItems
    case _ =>
      if o.score.None? then 0 else
      match (c, o.score.value)
      case (CorrectTokens, Seg(s)) => s.correct
      case (PredictedTokens, Seg(s)) => s.predicted
      case (CorrectTags, Tag(s)) => s.correct
      case (CorrectHeads, Dep(s)) => s.heads
      case (CorrectLabels, Dep(s)) => s.labeled
      case (CorrectForms, Trans(s)) => s.correct
      case (ExactSentences, Trans(s)) => if s.exactMatch then 1 else 0
      case (_, _) => 0
  }

  function Total(os: seq<Outcome>, c: Counter): int
  {
    if os == [] then 0 else Total(os[..|os| - 1], c) + CountIn(os[|os| - 1], c)
  }

  type Metrics = map<string, real>

  function SegmentationMetrics(os: seq<Outcome>): Metrics
  {
    var precision, recall := Ratio(Total(os, CorrectTokens), Total(os, PredictedTokens)), Ratio(Total(os, CorrectTokens), Total(os, GoldCount));
    map["micro_precision" := precision, "micro_recall" := recall, "micro_f1" := F1(precision, recall)]
  }

  function TaggingMetrics(os: seq<Outcome>): Metrics
  {
    map["micro_accuracy" := Ratio(Total(os, CorrectTags), Total(os, GoldCount))]
  }

  function DependencyMetrics(os: seq<Outcome>): Metrics
  {
    map["uas" := Ratio(Total(os, CorrectHeads), Total(os, GoldCount)), "las" := Ratio(Total(os, CorrectLabels), Total(os, GoldCount))]
  }

  function TransliterationMetrics(os: seq<Outcome>): Metrics
  {
    map["token_accuracy" := Ratio(Total(os, CorrectForms), Total(os, GoldCount)),
        "sentence_exact_match_rate" := Ratio(Total(os, ExactSentences), |os|)]
  }

  function TaskMetrics(task: Task, os: seq<Outcome>): Metrics
  {
    match task
    case Segmentation => SegmentationMetrics(os)
    case Upos => TaggingMetrics(os)
    case Xpos => TaggingMetrics(os)
    case Dependency => DependencyMetrics(os)
    case Transliteration => TransliterationMetrics(os)
  }

  method AggregateSegmentation(os: seq<Outcome>) returns (m: Metrics)
    ensures m == SegmentationMetrics(os)
  {
    var correct, predicted, gold := 0, 0, 0;
    for i := 0 to |os|
      invariant correct == Total(os[..i], CorrectTokens) && predicted == Total(os[..i], PredictedTokens) && gold == Total(os[..i], GoldCount)
    {
      assert os[..i + 1][..i] == os[..i];
      gold := gold + os[i].goldItems;
      if os[i].score.Some? && os[i].score.value.Seg? {
        correct := correct + os[i].score.value.seg.correct;
        predicted := predicted + os[i].score.value.seg.predicted;
      }
    }
    assert os[..|os|] == os;
    var precision, recall := Ratio(correct, predicted), Ratio(correct, gold);
    return map["micro_precision" := precision, "micro_recall" := recall, "micro_f1" := F1(precision, recall)];
  }

  method AggregateDependency(os: seq<Outcome>) returns (m: Metrics)
    ensures m == DependencyMetrics(os)
  {
    var heads, labels := 0, 0;
    for i := 0 to |os|
      invariant heads == Total(os[..i], CorrectHeads) && labels == Total(os[..i], CorrectLabels)
    {
      assert os[..i + 1][..i] == os[..i];
      if os[i].score.Some? && os[i].score.value.Dep? {
        heads := heads + os[i].score.value.dep.heads;
        labels := labels + os[i].score.value.dep.labeled;
      }
    }
    assert os[..|os|] == os;
    var total := Total(os, GoldCount);
    return map["uas" := Ratio(heads, total), "las" := Ratio(labels, total)];
  }

  method AggregateTransliteration(os: seq<Outcome>) returns (m: Metrics)
    ensures m == TransliterationMetrics(os)
  {
    var correct, exact := 0, 0;
    for i := 0 to |os|
      invariant correct == Total(os[..i], CorrectForms) && exact == Total(os[..i], ExactSentences)
    {
      assert os[..i + 1][..i] == os[..i];
      if os[i].score.Some? && os[i].score.value.Trans? {
        correct := correct + os[i].score.value.trans.correct;
        if os[i].score.value.trans.exactMatch { exact := exact + 1; }
      }
    }
    assert os[..|os|] == os;
    return map["token_accuracy" := Ratio(correct, Total(os, GoldCount)), "sentence_exact_match_rate" := Ratio(exact, |os|)];
  }

  // ------------------------------------------------------------------------- the result

  /** Sample to gold items, as the private manifest lists them. */
  type Manifest = map<nat, int>

  function Samples(os: seq<Outcome>): seq<nat> { seq(|os|, i requires 0 <= i < |os| => os[i].sample) }

  /** Outcomes `aggregate_challenge` accepts for a task and manifest. */
  predicate Covers(os: seq<Outcome>, task: Task, manifest: Manifest)
  {
    && os != []
    && Distinct(Samples(os))
    && (forall i | 0 <= i < |os| :: os[i].task == task)
    && Elems(Samples(os)) == manifest.Keys
    && (forall i | 0 <= i < |os| :: os[i].sample in manifest && os[i].goldItems == manifest[os[i].sample])
  }

  function CountError(os: seq<Outcome>, e: ErrorCode): nat
  {
    if os == [] then 0 else CountError(os[..|os| - 1], e) + if os[|os| - 1].error == Some(e) then 1 else 0
  }

  function Codes(os: seq<Outcome>): set<ErrorCode>
  {
    if os == [] then {} else Codes(os[..|os| - 1]) + if os[|os| - 1].error.Some? then {os[|os| - 1].error.value} else {}
  }

  datatype Result = Result(total: nat, valid: int, invalid: int, primary: string, score: real, metrics: Metrics,
                           errors: map<ErrorCode, nat>)

  function Primary(task: Task): string
  {
    match task
    case Segmentation => "micro_f1"
    case Upos => "micro_accuracy"
    case Xpos => "micro_accuracy"
    case Dependency => "las"
    case Transliteration => "token_accuracy"
  }

  function Declared(task: Task): set<string>
  {
    match task
    case Segmentation => {"micro_f1", "micro_precision", "micro_recall"}
    case Upos => {"micro_accuracy"}
    case Xpos => {"micro_accuracy"}
    case Dependency => {"las", "uas"}
    case Transliteration => {"token_accuracy", "sentence_exact_match_rate"}
  }

  function AggregateChallenge(os: seq<Outcome>, task: Task, manifest: Manifest): Option<Result>
  {
    if !Covers(os, task, manifest) then None
    else
      var metrics := TaskMetrics(task, os);
      var valid := Total(os, Scored);
      Some(Result(|os|, valid, |os| - valid, Primary(task), metrics[Primary(task)], metrics, ErrorCounts(os)))
  }

  ghost function SumOf(codes: set<ErrorCode>, m: map<ErrorCode, nat>): nat
    requires codes <= m.Keys
  {
    if codes == {} then 0 else var e :| e in codes; m[e] + SumOf(codes - {e}, m)
  }

  /** The checks of the result's constructor. */
  ghost predicate ResultChecks(r: Result, task: Task)
  {
    && r.valid >= 0 && r.invalid >= 0 && r.total == r.valid + r.invalid && r.total > 0
    && r.metrics.Keys == Declared(task) && r.primary == Primary(task)
    && (forall name | name in r.metrics :: 0.0 <= r.metrics[name] <= 1.0)
    && r.primary in r.metrics && r.score == r.metrics[r.primary]
    && (forall e | e in r.errors :: r.errors[e] > 0)
    && SumOf(r.errors.Keys, r.errors) == r.invalid
  }

  ghost predicate AllValid(os: seq<Outcome>) { forall i | 0 <= i < |os| :: Valid(os[i]) }

  // ------------------------------------------------------------------------------ proofs

  lemma {:induction false} TotalOfConcat(a: seq<Outcome>, b: seq<Outcome>, c: Counter)
    ensures Total(a + b, c) == Total(a, c) + Total(b, c)
  {
    if b == [] {
      assert a + b == a;
    } else {
      TotalOfConcat(a, b[..|b| - 1], c);
      assert (a + b)[..|a + b| - 1] == a + b[..|b| - 1];
    }
  }

  lemma {:induction false} TotalIgnoresOrder(a: seq<Outcome>, b: seq<Outcome>, c: Counter)
    requires multiset(a) == multiset(b)
    ensures Total(a, c) == Total(b, c)
  {
    if a != [] {
      var i := MatchLast(a, b);
      var front, rest := a[..|a| - 1], b[..i] + b[i + 1..];
      TotalIgnoresOrder(front, rest, c);
      assert b == b[..i] + ([b[i]] + b[i + 1..]);
      TotalOfConcat(b[..i], [b[i]] + b[i + 1..], c);
      TotalOfConcat([b[i]], b[i + 1..], c);
      TotalOfConcat(b[..i], b[i + 1..], c);
      assert Total([b[i]], c) == CountIn(b[i], c) by { assert [b[i]][..0] == []; }
    } else {
      assert |b| == |multiset(b)|;
    }
  }

  /** Where the last element of one arrangement stands in another; the rests agree too. */
  lemma MatchLast(a: seq<Outcome>, b: seq<Outcome>) returns (i: nat)
    requires multiset(a) == multiset(b) && a != []
    ensures i < |b| && b[i] == a[|a| - 1]
    ensures multiset(a[..|a| - 1]) == multiset(b[..i] + b[i + 1..])
  {
    var last := a[|a| - 1];
    assert last in multiset(b);
    i :| 0 <= i < |b| && b[i] == last;
    assert a == a[..|a| - 1] + [last];
    WithoutOne(b, i);
    SameRest(multiset(a[..|a| - 1]), multiset(b[..i] + b[i + 1..]), last);
  }

  lemma WithoutOne(b: seq<Outcome>, i: nat)
    requires i < |b|
    ensures multiset(b) == multiset(b[..i] + b[i + 1..]) + multiset{b[i]}
  {
    assert b == b[..i] + ([b[i]] + b[i + 1..]);
  }

  lemma SameRest(x: multiset<Outcome>, y: multiset<Outcome>, last: Outcome)
    requires x + multiset{last} == y + multiset{last}
    ensures x == y
  {
    assert x == (x + multiset{last}) - multiset{last} == y;
  }

  function Sum(xs: seq<int>): int
  {
    if xs == [] then 0 else Sum(xs[..|xs| - 1]) + xs[|xs| - 1]
  }

  function Counts(os: seq<Outcome>, c: Counter): seq<int>
  {
    seq(|os|, i requires 0 <= i < |os| => CountIn(os[i], c))
  }

  lemma {:induction false} TotalIsSum(os: seq<Outcome>, c: Counter)
    ensures Total(os, c) == Sum(Counts(os, c))
  {
    if os != [] {
      TotalIsSum(os[..|os| - 1], c);
      assert Counts(os, c)[..|os| - 1] == Counts(os[..|os| - 1], c);
    }
  }

  /** lo <= n / d <= hi, multiplied out. */
  predicate RatioWithin(n: int, d: int, lo: real, hi: real)
  {
    lo * d as real <= n as real <= hi * d as real
  }

  lemma AddBetween(n: int, d: int, n': int, d': int, lo: real, hi: real)
    requires RatioWithin(n, d, lo, hi) && RatioWithin(n', d', lo, hi)
    ensures RatioWithin(n + n', d + d', lo, hi)
  {
    Distribute(lo, d, d');
    Distribute(hi, d, d');
  }

  lemma Distribute(x: real, a: int, b: int)
    ensures x * (a + b) as real == x * a as real + x * b as real
  {
  }

  /** A ratio of sums lies between any bounds that hold of every summand's ratio. */
  lemma {:induction false} MediantBounds(ns: seq<int>, ds: seq<int>, lo: real, hi: real)
    requires |ns| == |ds| && forall i | 0 <= i < |ds| :: RatioWithin(ns[i], ds[i], lo, hi)
    ensures RatioWithin(Sum(ns), Sum(ds), lo, hi)
  {
    if ns == [] {
    } else {
      var k := |ns| - 1;
      var ns', ds' := ns[..k], ds[..k];
      assert forall i | 0 <= i < k :: ns'[i] == ns[i] && ds'[i] == ds[i];
      MediantBounds(ns', ds', lo, hi);
      AddBetween(Sum(ns'), Sum(ds'), ns[k], ds[k], lo, hi);
    }
  }

  lemma {:induction false} SumPositive(ds: seq<int>)
    requires ds != [] && forall i | 0 <= i < |ds| :: ds[i] > 0
    ensures Sum(ds) > 0
  {
    if |ds| > 1 {
      SumPositive(ds[..|ds| - 1]);
    }
  }

  lemma ScaleRatio(n: int, d: int, lo: real, hi: real)
    requires d > 0
    ensures lo <= Ratio(n, d) <= hi <==> RatioWithin(n, d, lo, hi)
  {
    QuotientTimes(n as real, d as real);
    var q, y := n as real / d as real, d as real;
    assert q * y == n as real;
    assert lo <= q <==> lo * y <= q * y by { Monotone(lo, q, y); }
    assert q <= hi <==> q * y <= hi * y by { Monotone(q, hi, y); }
  }

  lemma Monotone(a: real, b: real, y: real)
    requires y > 0.0
    ensures a <= b <==> a * y <= b * y
  {
    assert (b - a) * y == b * y - a * y;
  }

  lemma {:induction false} TotalDouble(os: seq<Outcome>)
    ensures Total(os, TwiceCorrect) == 2 * Total(os, CorrectTokens)
    ensures Total(os, PredictedAndGold) == Total(os, PredictedTokens) + Total(os, GoldCount)
  {
    if os != [] {
      TotalDouble(os[..|os| - 1]);
    }
  }

  predicate Below(xs: seq<int>, ys: seq<int>)
  {
    |xs| == |ys| && forall i | 0 <= i < |xs| :: 0 <= xs[i] <= ys[i]
  }

  lemma {:induction false} SumOrdered(xs: seq<int>, ys: seq<int>)
    requires Below(xs, ys)
    ensures 0 <= Sum(xs) <= Sum(ys)
    ensures Sum(xs) == Sum(ys) <==> xs == ys
  {
    if xs != [] {
      var k := |xs| - 1;
      SumOrdered(xs[..k], ys[..k]);
      assert xs == xs[..k] + [xs[k]] && ys == ys[..k] + [ys[k]];
    }
  }

  predicate CountsOrdered(os: seq<Outcome>, a: Counter, b: Counter)
  {
    forall i | 0 <= i < |os| :: 0 <= CountIn(os[i], a) <= CountIn(os[i], b)
  }

  predicate CountsEqual(os: seq<Outcome>, a: Counter, b: Counter)
  {
    forall i | 0 <= i < |os| :: CountIn(os[i], a) == CountIn(os[i], b)
  }

  /** Sums of counts that are ordered sample by sample are ordered. */
  lemma TotalOrdered(os: seq<Outcome>, a: Counter, b: Counter)
    requires CountsOrdered(os, a, b)
    ensures 0 <= Total(os, a) <= Total(os, b)
    ensures Total(os, a) == Total(os, b) <==> CountsEqual(os, a, b)
  {
    CountsBelow(os, a, b);
    CountsEqualIff(os, a, b);
    SumOrdered(Counts(os, a), Counts(os, b));
    TotalIsSum(os, a);
    TotalIsSum(os, b);
  }

  lemma CountsBelow(os: seq<Outcome>, a: Counter, b: Counter)
    requires CountsOrdered(os, a, b)
    ensures Below(Counts(os, a), Counts(os, b))
  {
  }

  lemma CountsEqualIff(os: seq<Outcome>, a: Counter, b: Counter)
    ensures CountsEqual(os, a, b) <==> Counts(os, a) == Counts(os, b)
  {
    var xs, ys := Counts(os, a), Counts(os, b);
    if xs == ys {
      forall i | 0 <= i < |os| ensures CountIn(os[i], a) == CountIn(os[i], b) { assert xs[i] == ys[i]; }
    }
  }

  lemma CorrectWithinCounts(os: seq<Outcome>)
    requires AllValid(os)
    ensures CountsOrdered(os, CorrectTokens, PredictedTokens) && CountsOrdered(os, CorrectTokens, GoldCount)
  {
  }

  lemma {:induction false} GoldPositive(os: seq<Outcome>)
    requires AllValid(os) && os != []
    ensures Total(os, GoldCount) > 0
  {
    if |os| > 1 {
      GoldPositive(os[..|os| - 1]);
    }
  }

  // ----------------------------------------------------------------------- main results

  /** One sample's own value of the primary metric; a malformed sample counts 0. */
  function SampleValue(o: Outcome): real
  {
    match o.score
    case None => 0.0
    case Some(Seg(s)) => s.f1
    case Some(Tag(s)) => s.accuracy
    case Some(Dep(s)) => s.las
    case Some(Trans(s)) => s.accuracy
  }

  function SampleUas(o: Outcome): real
  {
    if o.score.Some? && o.score.value.Dep? then o.score.value.dep.uas else 0.0
  }

  function Numerator(task: Task): Counter
  {
    match task
    case Segmentation => TwiceCorrect
    case Upos => CorrectTags
    case Xpos => CorrectTags
    case Dependency => CorrectLabels
    case Transliteration => CorrectForms
  }

  function Denominator(task: Task): Counter { if task.Segmentation? then PredictedAndGold else GoldCount }

  lemma SampleIsRatio(o: Outcome)
    requires Valid(o)
    ensures SampleValue(o) == Ratio(CountIn(o, Numerator(o.task)), CountIn(o, Denominator(o.task)))
    ensures CountIn(o, Denominator(o.task)) > 0
    ensures o.task.Dependency? ==> SampleUas(o) == Ratio(CountIn(o, CorrectHeads), CountIn(o, GoldCount))
  {
    if o.score.Some? && o.score.value.Seg? {
      var s := o.score.value.seg;
      F1OfCounts(s.correct, s.predicted, s.gold);
    }
  }

  lemma MicroF1IsRatio(os: seq<Outcome>)
    requires AllValid(os) && os != []
    ensures SegmentationMetrics(os)["micro_f1"] == Ratio(Total(os, TwiceCorrect), Total(os, PredictedAndGold))
    ensures 0.0 <= SegmentationMetrics(os)["micro_f1"] <= 1.0
    ensures SegmentationMetrics(os)["micro_f1"] == 1.0
       <==> Total(os, CorrectTokens) == Total(os, PredictedTokens) == Total(os, GoldCount)
  {
    CorrectWithinCounts(os);
    TotalOrdered(os, CorrectTokens, PredictedTokens);
    TotalOrdered(os, CorrectTokens, GoldCount);
    GoldPositive(os);
    TotalDouble(os);
    F1OfCounts(Total(os, CorrectTokens), Total(os, PredictedTokens), Total(os, GoldCount));
  }

  lemma RatioBetween(os: seq<Outcome>, num: Counter, den: Counter, lo: real, hi: real)
    requires os != []
    requires forall i | 0 <= i < |os| :: CountIn(os[i], den) > 0
    requires forall i | 0 <= i < |os| :: lo <= Ratio(CountIn(os[i], num), CountIn(os[i], den)) <= hi
    ensures lo <= Ratio(Total(os, num), Total(os, den)) <= hi
  {
    TotalIsSum(os, num);
    TotalIsSum(os, den);
    var ns, ds := Counts(os, num), Counts(os, den);
    forall i | 0 <= i < |os| ensures RatioWithin(ns[i], ds[i], lo, hi) {
      ScaleRatio(ns[i], ds[i], lo, hi);
    }
    MediantBounds(ns, ds, lo, hi);
    SumPositive(ds);
    ScaleRatio(Sum(ns), Sum(ds), lo, hi);
  }

  /** The primary metric lies between the smallest and the largest sample value. */
  lemma MicroBetweenSamples(os: seq<Outcome>, task: Task, lo: real, hi: real)
    requires os != [] && AllValid(os) && forall i | 0 <= i < |os| :: os[i].task == task
    requires forall i | 0 <= i < |os| :: lo <= SampleValue(os[i]) <= hi
    ensures lo <= TaskMetrics(task, os)[Primary(task)] <= hi
  {
    var num, den := Numerator(task), Denominator(task);
    forall i | 0 <= i < |os|
      ensures CountIn(os[i], den) > 0 && lo <= Ratio(CountIn(os[i], num), CountIn(os[i], den)) <= hi
    {
      SampleIsRatio(os[i]);
    }
    RatioBetween(os, num, den, lo, hi);
    if task.Segmentation? { MicroF1IsRatio(os); }
  }

  lemma UasBetweenSamples(os: seq<Outcome>, lo: real, hi: real)
    requires os != [] && AllValid(os) && forall i | 0 <= i < |os| :: os[i].task.Dependency?
    requires forall i | 0 <= i < |os| :: lo <= SampleUas(os[i]) <= hi
    ensures lo <= DependencyMetrics(os)["uas"] <= hi
  {
    forall i | 0 <= i < |os|
      ensures CountIn(os[i], GoldCount) > 0 && lo <= Ratio(CountIn(os[i], CorrectHeads), CountIn(os[i], GoldCount)) <= hi
    {
      SampleIsRatio(os[i]);
    }
    RatioBetween(os, CorrectHeads, GoldCount, lo, hi);
  }

  /** The outcome is malformed, or was scored from token lists with gold tokens. */
  ghost predicate FromSegmentation(o: Outcome)
  {
    o.score.None? || (o.score.value.Seg? && exists gold, predicted :: gold != [] && ScoreSegmentation(gold, predicted) == Some(o.score.value.seg))
  }

  predicate ExactMatch(o: Outcome) { o.score.Some? && o.score.value.Seg? && o.score.value.seg.exactMatch }

  lemma ExactByCounts(gold: seq<string>, predicted: seq<string>)
    requires gold != [] && ScoreSegmentation(gold, predicted).Some?
    ensures var s := ScoreSegmentation(gold, predicted).value;
            && s.predicted == |predicted| && s.gold == |gold| && 0 <= s.correct <= s.predicted && s.correct <= s.gold
            && (s.exactMatch <==> s.correct == s.predicted == s.gold)
  {
    var s := ScoreSegmentation(gold, predicted).value;
    CorrectWithinBoth(gold, predicted);
    PerfectExactlyWhenIdentical(gold, predicted);
    RatioIsOne(s.correct, |gold|);
  }

  lemma ExactMatchByCounts(o: Outcome)
    requires Valid(o) && o.task.Segmentation? && FromSegmentation(o)
    ensures ExactMatch(o) <==> CountIn(o, CorrectTokens) == CountIn(o, PredictedTokens) == CountIn(o, GoldCount)
    ensures 0 <= CountIn(o, CorrectTokens) <= CountIn(o, PredictedTokens) && CountIn(o, CorrectTokens) <= CountIn(o, GoldCount)
  {
    if o.score.Some? {
      var gold, predicted :| gold != [] && ScoreSegmentation(gold, predicted) == Some(o.score.value.seg);
      ExactByCounts(gold, predicted);
    }
  }

  /** Micro-F1 is 1 exactly when every sample is an exact match. */
  lemma MicroF1OneIffAllExact(os: seq<Outcome>)
    requires os != [] && AllValid(os) && forall i | 0 <= i < |os| :: os[i].task.Segmentation? && FromSegmentation(os[i])
    ensures SegmentationMetrics(os)["micro_f1"] == 1.0 <==> forall i | 0 <= i < |os| :: ExactMatch(os[i])
  {
    forall i | 0 <= i < |os|
      ensures ExactMatch(os[i]) <==> CountIn(os[i], CorrectTokens) == CountIn(os[i], PredictedTokens) == CountIn(os[i], GoldCount)
      ensures 0 <= CountIn(os[i], CorrectTokens) <= CountIn(os[i], PredictedTokens) && CountIn(os[i], CorrectTokens) <= CountIn(os[i], GoldCount)
    {
      ExactMatchByCounts(os[i]);
    }
    MicroF1IsRatio(os);
    TotalOrdered(os, CorrectTokens, PredictedTokens);
    TotalOrdered(os, CorrectTokens, GoldCount);
  }

  lemma MetricsInRange(os: seq<Outcome>, task: Task)
    requires os != [] && AllValid(os) && forall i | 0 <= i < |os| :: os[i].task == task
    ensures forall name | name in TaskMetrics(task, os) :: 0.0 <= TaskMetrics(task, os)[name] <= 1.0
  {
    match task
    case Segmentation => SegmentationInRange(os);
    case Dependency => DependencyInRange(os);
    case Transliteration => TransliterationInRange(os);
    case _ => TaggingInRange(os);
  }

  predicate Within01(m: Metrics) { forall name | name in m :: 0.0 <= m[name] <= 1.0 }

  lemma SegmentationInRange(os: seq<Outcome>)
    requires os != [] && AllValid(os) && forall i | 0 <= i < |os| :: os[i].task == Segmentation
    ensures Within01(SegmentationMetrics(os))
  {
    GoldPositive(os);
    MicroF1IsRatio(os);
    TotalOrdered(os, CorrectTokens, PredictedTokens);
    TotalOrdered(os, CorrectTokens, GoldCount);
    RatioInRange(Total(os, CorrectTokens), Total(os, PredictedTokens));
    RatioInRange(Total(os, CorrectTokens), Total(os, GoldCount));
  }

  lemma DependencyInRange(os: seq<Outcome>)
    requires os != [] && AllValid(os) && forall i | 0 <= i < |os| :: os[i].task == Dependency
    ensures Within01(DependencyMetrics(os))
  {
    GoldPositive(os);
    TotalOrdered(os, CorrectHeads, GoldCount);
    TotalOrdered(os, CorrectLabels, GoldCount);
    RatioInRange(Total(os, CorrectHeads), Total(os, GoldCount));
    RatioInRange(Total(os, CorrectLabels), Total(os, GoldCount));
  }

  lemma TransliterationInRange(os: seq<Outcome>)
    requires os != [] && AllValid(os) && forall i | 0 <= i < |os| :: os[i].task == Transliteration
    ensures Within01(TransliterationMetrics(os))
  {
    GoldPositive(os);
    TotalOrdered(os, CorrectForms, GoldCount);
    ScoredBounds(os, ExactSentences);
    RatioInRange(Total(os, CorrectForms), Total(os, GoldCount));
    RatioInRange(Total(os, ExactSentences), |os|);
  }

  lemma TaggingInRange(os: seq<Outcome>)
    requires os != [] && AllValid(os) && forall i | 0 <= i < |os| :: os[i].task == Upos || os[i].task == Xpos
    ensures Within01(TaggingMetrics(os))
  {
    GoldPositive(os);
    TotalOrdered(os, CorrectTags, GoldCount);
    RatioInRange(Total(os, CorrectTags), Total(os, GoldCount));
  }

  lemma RatioInRange(n: int, d: int)
    requires 0 <= n <= d
    ensures 0.0 <= Ratio(n, d) <= 1.0
  {
    if d > 0 { RatioIsOne(n, d); }
  }

  lemma {:induction false} ScoredBounds(os: seq<Outcome>, c: Counter)
    requires c.ExactSentences? || c.Scored?
    ensures 0 <= Total(os, c) <= |os|
  {
    if os != [] {
      ScoredBounds(os[..|os| - 1], c);
    }
  }

  // ------------------------------------------------------------------------ error counts

  lemma {:induction false} SumOfPick(codes: set<ErrorCode>, m: map<ErrorCode, nat>, e: ErrorCode)
    requires e in codes && codes <= m.Keys
    ensures SumOf(codes, m) == m[e] + SumOf(codes - {e}, m)
  {
    var x := SumOfSome(codes, m);
    if x != e {
      var both := codes - {x, e};
      assert codes - {x} - {e} == both && codes - {e} - {x} == both;
      SumOfPick(codes - {x}, m, e);
      SumOfPick(codes - {e}, m, x);
    }
  }

  lemma SumOfSome(codes: set<ErrorCode>, m: map<ErrorCode, nat>) returns (x: ErrorCode)
    requires codes != {} && codes <= m.Keys
    ensures x in codes && SumOf(codes, m) == m[x] + SumOf(codes - {x}, m)
  {
    x :| x in codes && SumOf(codes, m) == m[x] + SumOf(codes - {x}, m);
  }

  lemma {:induction false} SumOfAgree(codes: set<ErrorCode>, m: map<ErrorCode, nat>, m': map<ErrorCode, nat>)
    requires codes <= m.Keys && codes <= m'.Keys && forall e | e in codes :: m[e] == m'[e]
    ensures SumOf(codes, m) == SumOf(codes, m')
  {
    if codes != {} {
      var e :| e in codes;
      SumOfPick(codes, m, e);
      SumOfPick(codes, m', e);
      SumOfAgree(codes - {e}, m, m');
    }
  }

  function ErrorCounts(os: seq<Outcome>): map<ErrorCode, nat>
  {
    map e | e in Codes(os) :: CountError(os, e)
  }

  lemma {:induction false} CodesAreCounted(os: seq<Outcome>, e: ErrorCode)
    ensures e in Codes(os) <==> CountError(os, e) > 0
  {
    if os != [] {
      CodesAreCounted(os[..|os| - 1], e);
    }
  }

  lemma {:induction false} ErrorsAddUp(os: seq<Outcome>)
    requires AllValid(os)
    ensures SumOf(Codes(os), ErrorCounts(os)) == |os| - Total(os, Scored)
  {
    if os != [] {
      var front, last := os[..|os| - 1], os[|os| - 1];
      ErrorsAddUp(front);
      var m, m' := ErrorCounts(front), ErrorCounts(os);
      if last.error.Some? {
        var e := last.error.value;
        CodesAreCounted(front, e);
        SumOfPick(Codes(os), m', e);
        SumOfAgree(Codes(front) - {e}, m, m');
        assert Codes(os) - {e} == Codes(front) - {e};
        if e in Codes(front) {
          SumOfPick(Codes(front), m, e);
        } else {
          assert Codes(front) - {e} == Codes(front);
        }
      } else {
        assert Codes(os) == Codes(front);
        SumOfAgree(Codes(os), m, m');
      }
    }
  }

  /** Every aggregate of acceptable outcomes passes the result's own checks. */
  lemma ResultsPassChecks(os: seq<Outcome>, task: Task, manifest: Manifest)
    requires AllValid(os) && Covers(os, task, manifest)
    ensures ResultChecks(AggregateChallenge(os, task, manifest).value, task)
  {
    MetricsInRange(os, task);
    ScoredBounds(os, Scored);
    ErrorsAddUp(os);
    assert ErrorCounts(os).Keys == Codes(os);
    forall e ensures e in Codes(os) <==> CountError(os, e) > 0 {
      CodesAreCounted(os, e);
    }
  }

  lemma {:induction false} ErrorsOfConcat(a: seq<Outcome>, b: seq<Outcome>, e: ErrorCode)
    ensures CountError(a + b, e) == CountError(a, e) + CountError(b, e)
  {
    if b == [] {
      assert a + b == a;
    } else {
      ErrorsOfConcat(a, b[..|b| - 1], e);
      assert (a + b)[..|a + b| - 1] == a + b[..|b| - 1];
    }
  }

  lemma {:induction false} ErrorsIgnoreOrder(a: seq<Outcome>, b: seq<Outcome>, e: ErrorCode)
    requires multiset(a) == multiset(b)
    ensures CountError(a, e) == CountError(b, e)
  {
    if a != [] {
      var i := MatchLast(a, b);
      ErrorsIgnoreOrder(a[..|a| - 1], b[..i] + b[i + 1..], e);
      assert b == b[..i] + ([b[i]] + b[i + 1..]);
      ErrorsOfConcat(b[..i], [b[i]] + b[i + 1..], e);
      ErrorsOfConcat([b[i]], b[i + 1..], e);
      ErrorsOfConcat(b[..i], b[i + 1..], e);
      assert CountError([b[i]], e) == if b[i].error == Some(e) then 1 else 0 by { assert [b[i]][..0] == []; }
    } else {
      assert |b| == |multiset(b)|;
    }
  }

  lemma CoversIgnoresOrder(a: seq<Outcome>, b: seq<Outcome>, task: Task, manifest: Manifest)
    requires multiset(a) == multiset(b) && Covers(a, task, manifest)
    ensures Covers(b, task, manifest)
  {
    assert |a| == |multiset(a)| == |multiset(b)| == |b|;
    forall i | 0 <= i < |b|
      ensures b[i].task == task && b[i].sample in manifest && b[i].goldItems == manifest[b[i].sample]
    {
      assert b[i] in multiset(a);
    }
    SamplesIgnoreOrder(a, b);
    DistinctSize(Samples(a));
    DistinctSize(Samples(b));
  }

  lemma SamplesIgnoreOrder(a: seq<Outcome>, b: seq<Outcome>)
    requires multiset(a) == multiset(b)
    ensures Elems(Samples(a)) == Elems(Samples(b))
  {
    forall x ensures x in Elems(Samples(a)) <==> x in Elems(Samples(b)) {
      if x in Elems(Samples(a)) { SampleAlso(a, b, x); }
      if x in Elems(Samples(b)) { SampleAlso(b, a, x); }
    }
  }

  lemma SampleAlso(a: seq<Outcome>, b: seq<Outcome>, x: nat)
    requires multiset(a) == multiset(b) && x in Samples(a)
    ensures x in Samples(b)
  {
    var i :| 0 <= i < |a| && Samples(a)[i] == x;
    assert a[i] in multiset(b);
    var j :| 0 <= j < |b| && b[j] == a[i];
    assert Samples(b)[j] == x;
  }

  /** The whole result, refusal, metrics and error counts alike, ignores the order of the
      outcomes. */
  lemma OrderIsIrrelevant(a: seq<Outcome>, b: seq<Outcome>, task: Task, manifest: Manifest)
    requires multiset(a) == multiset(b)
    ensures AggregateChallenge(a, task, manifest) == AggregateChallenge(b, task, manifest)
  {
    if Covers(a, task, manifest) {
      CoversIgnoresOrder(a, b, task, manifest);
      SameResult(a, b, task, manifest);
    } else if Covers(b, task, manifest) {
      CoversIgnoresOrder(b, a, task, manifest);
    }
  }

  lemma SameResult(a: seq<Outcome>, b: seq<Outcome>, task: Task, manifest: Manifest)
    requires multiset(a) == multiset(b) && Covers(a, task, manifest) && Covers(b, task, manifest)
    ensures AggregateChallenge(a, task, manifest) == AggregateChallenge(b, task, manifest)
  {
    forall c ensures Total(a, c) == Total(b, c) {
      TotalIgnoresOrder(a, b, c);
    }
    assert |a| == |multiset(a)| == |multiset(b)| == |b|;
    forall e ensures CountError(a, e) == CountError(b, e) && (e in Codes(a) <==> e in Codes(b)) {
      ErrorsIgnoreOrder(a, b, e);
      CodesAreCounted(a, e);
      CodesAreCounted(b, e);
    }
    assert ErrorCounts(a) == ErrorCounts(b);
  }
}
