/** What a challenge result says of its outcomes: which outcomes are accepted at all, what the
    micro metrics pool, and what the error counts count. */
module AggregateMeaning {
  import opened Basics
  import opened Evaluation
  import opened Aggregation

  // ----------------------------------------------------------------------- what is pooled

  /** A sum over the outcomes, from the first on. */
  function SumOver(os: seq<Outcome>, f: Outcome -> int): int
  {
    if os == [] then 0 else f(os[0]) + SumOver(os[1..], f)
  }

  function SegCorrect(o: Outcome): int { if o.score.Some? && o.score.value.Seg? then o.score.value.seg.correct else 0 }

  function SegPredicted(o: Outcome): int { if o.score.Some? && o.score.value.Seg? then o.score.value.seg.predicted else 0 }

  function TagCorrect(o: Outcome): int { if o.score.Some? && o.score.value.Tag? then o.score.value.tag.correct else 0 }

  function DepHeads(o: Outcome): int { if o.score.Some? && o.score.value.Dep? then o.score.value.dep.heads else 0 }

  function DepLabeled(o: Outcome): int { if o.score.Some? && o.score.value.Dep? then o.score.value.dep.labeled else 0 }

  function FormsCorrect(o: Outcome): int { if o.score.Some? && o.score.value.Trans? then o.score.value.trans.correct else 0 }

  function Exact(o: Outcome): int { if o.score.Some? && o.score.value.Trans? && o.score.value.trans.exactMatch then 1 else 0 }

  function Gold(o: Outcome): int { o.goldItems }

  lemma {:induction false} TotalIsSumOver(os: seq<Outcome>, c: Counter, f: Outcome -> int)
    requires forall o :: CountIn(o, c) == f(o)
    ensures Total(os, c) == SumOver(os, f)
  {
    if os != [] {
      TotalIsSumOver(os[1..], c, f);
      assert os == [os[0]] + os[1..];
      TotalOfConcat([os[0]], os[1..], c);
      assert [os[0]][..0] == [];
    }
  }

  lemma SegCorrectSum(os: seq<Outcome>)
    ensures Total(os, CorrectTokens) == SumOver(os, SegCorrect)
  {
    forall o ensures CountIn(o, CorrectTokens) == SegCorrect(o) { }
    TotalIsSumOver(os, CorrectTokens, SegCorrect);
  }

  lemma SegPredictedSum(os: seq<Outcome>)
    ensures Total(os, PredictedTokens) == SumOver(os, SegPredicted)
  {
    forall o ensures CountIn(o, PredictedTokens) == SegPredicted(o) { }
    TotalIsSumOver(os, PredictedTokens, SegPredicted);
  }

  lemma GoldSum(os: seq<Outcome>)
    ensures Total(os, GoldCount) == SumOver(os, Gold)
  {
    forall o ensures CountIn(o, GoldCount) == Gold(o) { }
    TotalIsSumOver(os, GoldCount, Gold);
  }

  lemma TagCorrectSum(os: seq<Outcome>)
    ensures Total(os, CorrectTags) == SumOver(os, TagCorrect)
  {
    forall o ensures CountIn(o, CorrectTags) == TagCorrect(o) { }
    TotalIsSumOver(os, CorrectTags, TagCorrect);
  }

  lemma DepHeadsSum(os: seq<Outcome>)
    ensures Total(os, CorrectHeads) == SumOver(os, DepHeads)
  {
    forall o ensures CountIn(o, CorrectHeads) == DepHeads(o) { }
    TotalIsSumOver(os, CorrectHeads, DepHeads);
  }

  lemma DepLabeledSum(os: seq<Outcome>)
    ensures Total(os, CorrectLabels) == SumOver(os, DepLabeled)
  {
    forall o ensures CountIn(o, CorrectLabels) == DepLabeled(o) { }
    TotalIsSumOver(os, CorrectLabels, DepLabeled);
  }

  lemma FormsCorrectSum(os: seq<Outcome>)
    ensures Total(os, CorrectForms) == SumOver(os, FormsCorrect)
  {
    forall o ensures CountIn(o, CorrectForms) == FormsCorrect(o) { }
    TotalIsSumOver(os, CorrectForms, FormsCorrect);
  }

  lemma ExactSum(os: seq<Outcome>)
    ensures Total(os, ExactSentences) == SumOver(os, Exact)
  {
    forall o ensures CountIn(o, ExactSentences) == Exact(o) { }
    TotalIsSumOver(os, ExactSentences, Exact);
  }

  lemma SegmentationPools(os: seq<Outcome>)
    ensures var correct, predicted, gold := SumOver(os, SegCorrect), SumOver(os, SegPredicted), SumOver(os, Gold);
            SegmentationMetrics(os) == map["micro_precision" := Ratio(correct, predicted), "micro_recall" := Ratio(correct, gold),
                                           "micro_f1" := F1(Ratio(correct, predicted), Ratio(correct, gold))]
  {
    SegCorrectSum(os);
    SegPredictedSum(os);
    GoldSum(os);
  }

  lemma TaggingPools(os: seq<Outcome>)
    ensures TaggingMetrics(os) == map["micro_accuracy" := Ratio(SumOver(os, TagCorrect), SumOver(os, Gold))]
  {
    TagCorrectSum(os);
    GoldSum(os);
  }

  lemma DependencyPools(os: seq<Outcome>)
    ensures DependencyMetrics(os) == map["uas" := Ratio(SumOver(os, DepHeads), SumOver(os, Gold)),
                                         "las" := Ratio(SumOver(os, DepLabeled), SumOver(os, Gold))]
  {
    DepHeadsSum(os);
    DepLabeledSum(os);
    GoldSum(os);
  }

  lemma FormsPool(os: seq<Outcome>)
    ensures Ratio(Total(os, CorrectForms), Total(os, GoldCount)) == Ratio(SumOver(os, FormsCorrect), SumOver(os, Gold))
  {
    FormsCorrectSum(os);
    GoldSum(os);
  }

  lemma ExactPool(os: seq<Outcome>, n: nat)
    ensures Ratio(Total(os, ExactSentences), n) == Ratio(SumOver(os, Exact), n)
  {
    ExactSum(os);
  }

  function FormMetrics(tokens: real, sentences: real): Metrics
  {
    map["token_accuracy" := tokens, "sentence_exact_match_rate" := sentences]
  }

  lemma FormMetricsAre(os: seq<Outcome>)
    ensures TransliterationMetrics(os) == FormMetrics(Ratio(Total(os, CorrectForms), Total(os, GoldCount)), Ratio(Total(os, ExactSentences), |os|))
  {
  }

  lemma TransliterationPools(os: seq<Outcome>)
    ensures TransliterationMetrics(os) == FormMetrics(Ratio(SumOver(os, FormsCorrect), SumOver(os, Gold)), Ratio(SumOver(os, Exact), |os|))
  {
    FormMetricsAre(os);
    FormsPool(os);
    ExactPool(os, |os|);
  }

  /** The micro metrics of a task as ratios of counts summed over the outcomes. */
  function Pooled(task: Task, os: seq<Outcome>): Metrics
  {
    var gold := SumOver(os, Gold);
    match task
    case Segmentation =>
      var correct, predicted := SumOver(os, SegCorrect), SumOver(os, SegPredicted);
      map["micro_precision" := Ratio(correct, predicted), "micro_recall" := Ratio(correct, gold),
          "micro_f1" := F1(Ratio(correct, predicted), Ratio(correct, gold))]
    case Upos => map["micro_accuracy" := Ratio(SumOver(os, TagCorrect), gold)]
    case Xpos => map["micro_accuracy" := Ratio(SumOver(os, TagCorrect), gold)]
    case Dependency => map["uas" := Ratio(SumOver(os, DepHeads), gold), "las" := Ratio(SumOver(os, DepLabeled), gold)]
    case Transliteration => FormMetrics(Ratio(SumOver(os, FormsCorrect), gold), Ratio(SumOver(os, Exact), |os|))
  }

  /** Each micro metric is a ratio of counts summed over all outcomes, malformed ones too:
      they add their gold items and nothing else. */
  lemma MetricsPoolCounts(task: Task, os: seq<Outcome>)
    ensures TaskMetrics(task, os) == Pooled(task, os)
  {
    match task
    case Segmentation => SegmentationPools(os);
    case Dependency => DependencyPools(os);
    case Transliteration => TransliterationPools(os);
    case _ => TaggingPools(os);
  }

  /** A challenge of one well-formed outcome has that outcome's own scores. */
  lemma OneOutcomeIsItself(o: Outcome)
    requires Valid(o) && o.score.Some?
    ensures match o.score.value
            case Seg(s) => SegmentationMetrics([o]) == map["micro_precision" := s.precision, "micro_recall" := s.recall, "micro_f1" := s.f1]
            case Tag(s) => TaggingMetrics([o]) == map["micro_accuracy" := s.accuracy]
            case Dep(s) => DependencyMetrics([o]) == map["uas" := s.uas, "las" := s.las]
            case Trans(s) => TransliterationMetrics([o]) == map["token_accuracy" := s.accuracy,
                                                                "sentence_exact_match_rate" := if s.exactMatch then 1.0 else 0.0]
  {
    forall c ensures Total([o], c) == CountIn(o, c) { assert [o][..0] == []; }
  }

  // -------------------------------------------------------- which outcomes can be built

  /** The score's counts fit the gold items, and its metrics are their ratios. */
  predicate Consistent(o: Outcome, score: Score)
  {
    match score
    case Seg(s) =>
      && o.task.Segmentation? && s.gold == o.goldItems && s.correct <= s.predicted && s.correct <= s.gold
      && s.precision == Ratio(s.correct, s.predicted) && s.recall == Ratio(s.correct, s.gold)
      && s.f1 == Ratio(2 * s.correct, s.predicted + s.gold)
      && (s.validSurface || (s.correct == 0 && !s.exactMatch))
    case Tag(s) =>
      (o.task.Upos? || o.task.Xpos?) && s.validLength && s.total == o.goldItems && s.correct <= s.total && s.accuracy == Ratio(s.correct, s.total)
    case Dep(s) =>
      && o.task.Dependency? && s.validStructure && s.total == o.goldItems && s.labeled <= s.heads <= s.total
      && s.uas == Ratio(s.heads, s.total) && s.las == Ratio(s.labeled, s.total)
    case Trans(s) =>
      && o.task.Transliteration? && s.validLength && s.total == o.goldItems && s.correct <= s.total
      && s.accuracy == Ratio(s.correct, s.total) && (s.exactMatch <==> s.correct == s.total)
  }

  /** An outcome can be built exactly with gold items and either an error or a consistent
      score: that its metrics lie in [0, 1] follows from its counts. */
  lemma ValidIff(o: Outcome)
    ensures Valid(o) <==> && o.goldItems > 0
                          && match o.score
                             case None => o.error.Some? && o.error != Some(UnknownTask)
                             case Some(score) => o.error.None? && Consistent(o, score)
  {
    if o.score.Some? && o.goldItems > 0 { InRange(o, o.score.value); }
  }

  lemma InRange(o: Outcome, score: Score)
    requires o.goldItems > 0
    ensures Consistent(o, score) <==> Fits(o.task, score) && GoldItems(score) == o.goldItems && Structural(score) && CountsAgree(score)
  {
    match score
    case Seg(s) =>
      if s.gold == o.goldItems && s.correct <= s.predicted && s.correct <= s.gold {
        F1OfCounts(s.correct, s.predicted, s.gold);
        RatioIsOne(s.correct, s.gold);
        if s.predicted > 0 { RatioIsOne(s.correct, s.predicted); }
      }
    case Tag(s) => if s.total == o.goldItems && s.correct <= s.total { RatioIsOne(s.correct, s.total); }
    case Dep(s) =>
      if s.total == o.goldItems && s.labeled <= s.heads <= s.total {
        RatioIsOne(s.heads, s.total);
        RatioIsOne(s.labeled, s.total);
      }
    case Trans(s) => if s.total == o.goldItems && s.correct <= s.total { RatioIsOne(s.correct, s.total); }
  }

  // ------------------------------------------------------------------- what is accepted

  ghost predicate Listed(os: seq<Outcome>, sample: nat, gold: int)
  {
    exists i | 0 <= i < |os| :: os[i].sample == sample && os[i].goldItems == gold
  }

  /** As many outcomes as samples, all of the task, and for each sample one with its gold items. */
  ghost predicate OneForEach(os: seq<Outcome>, task: Task, manifest: Manifest)
  {
    && os != [] && |os| == |manifest|
    && (forall i | 0 <= i < |os| :: os[i].task == task)
    && (forall m | m in manifest :: Listed(os, m, manifest[m]))
  }

  lemma CoveringIsOneForEach(os: seq<Outcome>, task: Task, manifest: Manifest)
    requires Covers(os, task, manifest)
    ensures OneForEach(os, task, manifest)
  {
    DistinctSize(Samples(os));
    assert |manifest| == |manifest.Keys|;
    forall m | m in manifest ensures Listed(os, m, manifest[m]) {
      assert m in Elems(Samples(os));
      var i :| 0 <= i < |os| && Samples(os)[i] == m;
      assert os[i].sample == m && os[i].goldItems == manifest[m];
    }
  }

  lemma FullSubset(a: set<nat>, b: set<nat>)
    requires a <= b && |b| <= |a|
    ensures a == b
  {
    assert b == a + (b - a);
    assert |b| == |a| + |b - a|;
  }

  lemma OneForEachCovers(os: seq<Outcome>, task: Task, manifest: Manifest)
    requires OneForEach(os, task, manifest)
    ensures Covers(os, task, manifest)
  {
    var samples := Samples(os);
    forall m | m in manifest.Keys ensures m in Elems(samples) {
      var i :| 0 <= i < |os| && os[i].sample == m && os[i].goldItems == manifest[m];
      assert samples[i] == m;
    }
    DistinctSize(samples);
    assert |manifest| == |manifest.Keys|;
    FullSubset(manifest.Keys, Elems(samples));
    forall i | 0 <= i < |os| ensures os[i].sample in manifest && os[i].goldItems == manifest[os[i].sample] {
      assert samples[i] in Elems(samples);
      var j :| 0 <= j < |os| && os[j].sample == os[i].sample && os[j].goldItems == manifest[os[i].sample];
      assert samples[j] == samples[i];
    }
  }

  /** Outcomes are aggregated exactly when there is one for each sample of the manifest, with
      its gold items, and all are of the task. */
  lemma AggregatedIff(os: seq<Outcome>, task: Task, manifest: Manifest)
    ensures AggregateChallenge(os, task, manifest).Some? <==> OneForEach(os, task, manifest)
  {
    if Covers(os, task, manifest) { CoveringIsOneForEach(os, task, manifest); }
    if OneForEach(os, task, manifest) { OneForEachCovers(os, task, manifest); }
  }

  // -------------------------------------------------------------------- what is counted

  function WithError(os: seq<Outcome>, e: ErrorCode): set<int> { set i | 0 <= i < |os| && os[i].error == Some(e) }

  lemma {:induction false} ErrorsAreCounted(os: seq<Outcome>, e: ErrorCode)
    ensures CountError(os, e) == |WithError(os, e)|
  {
    if os != [] {
      var n := |os| - 1;
      ErrorsAreCounted(os[..n], e);
      WithErrorStep(os, e);
    }
  }

  lemma WithErrorStep(os: seq<Outcome>, e: ErrorCode)
    requires os != []
    ensures var n := |os| - 1;
            n !in WithError(os[..n], e) && WithError(os, e) == WithError(os[..n], e) + if os[n].error == Some(e) then {n} else {}
  {
    assert forall i | 0 <= i < |os| - 1 :: os[..|os| - 1][i] == os[i];
  }

  function WellFormed(os: seq<Outcome>): set<int> { set i | 0 <= i < |os| && os[i].score.Some? }

  lemma WellFormedStep(os: seq<Outcome>)
    requires os != []
    ensures var n := |os| - 1;
            n !in WellFormed(os[..n]) && WellFormed(os) == WellFormed(os[..n]) + if os[n].score.Some? then {n} else {}
  {
    assert forall i | 0 <= i < |os| - 1 :: os[..|os| - 1][i] == os[i];
  }

  lemma {:induction false} ScoredAreWellFormed(os: seq<Outcome>)
    ensures Total(os, Scored) == |WellFormed(os)|
  {
    if os != [] {
      ScoredAreWellFormed(os[..|os| - 1]);
      WellFormedStep(os);
    }
  }

  /** The result counts the outcomes, those with a score, and for each error code that
      occurs the outcomes with it; its score is its primary metric. */
  lemma ResultCountsOutcomes(os: seq<Outcome>, task: Task, manifest: Manifest, e: ErrorCode)
    requires AggregateChallenge(os, task, manifest).Some?
    ensures var r := AggregateChallenge(os, task, manifest).value;
            && r.total == |os| && r.valid == |WellFormed(os)| && r.valid + r.invalid == |os|
            && (e in r.errors <==> WithError(os, e) != {})
            && (e in r.errors ==> r.errors[e] == |WithError(os, e)|)
            && r.metrics == TaskMetrics(task, os) && r.primary == Primary(task) && r.score == r.metrics[r.primary]
  {
    ScoredAreWellFormed(os);
    ErrorsAreCounted(os, e);
    CodesAreCounted(os, e);
    assert ErrorCounts(os).Keys == Codes(os);
  }
}
