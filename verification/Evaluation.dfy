/** The deterministic scorers, over exact rationals. */
module Evaluation {
  import opened Basics

  datatype SegmentationScore = SegmentationScore(precision: real, recall: real, f1: real, correct: nat, predicted: nat, gold: nat,
                                                 exactMatch: bool, validSurface: bool)
  datatype TaggingScore = TaggingScore(accuracy: real, correct: nat, total: nat, validLength: bool)
  datatype DependencyScore = DependencyScore(uas: real, las: real, heads: nat, labeled: nat, total: nat, validStructure: bool)
  datatype TransliterationScore = TransliterationScore(accuracy: real, correct: nat, total: nat, exactMatch: bool, validLength: bool)

  datatype Arc = Arc(token: int, head: int, deprel: string)

  function Ratio(numerator: int, denominator: int): real
  {
    if denominator == 0 then 0.0 else numerator as real / denominator as real
  }

  function F1(precision: real, recall: real): real
  {
    if precision + recall == 0.0 then 0.0 else 2.0 * precision * recall / (precision + recall)
  }

  predicate ValidTokens(tokens: seq<string>) { forall i | 0 <= i < |tokens| :: tokens[i] != "" }

  // ---------------------------------------------------------------------- segmentation

  type Span = (int, int)

  function Surface(tokens: seq<string>): string
  {
    if tokens == [] then "" else Surface(tokens[..|tokens| - 1]) + tokens[|tokens| - 1]
  }

  function Spans(tokens: seq<string>): set<Span>
  {
    if tokens == [] then {}
    else
      var front := tokens[..|tokens| - 1];
      Spans(front) + {(|Surface(front)|, |Surface(tokens)|)}
  }

  method TokenSpans(tokens: seq<string>) returns (surface: string, spans: set<Span>)
    ensures surface == Surface(tokens) && spans == Spans(tokens)
  {
    surface, spans := "", {};
    var cursor := 0;
    for i := 0 to |tokens|
      invariant surface == Surface(tokens[..i]) && spans == Spans(tokens[..i]) && cursor == |surface|
    {
      assert tokens[..i + 1][..i] == tokens[..i];
      var start := cursor;
      cursor := cursor + |tokens[i]|;
      spans := spans + {(start, cursor)};
      surface := surface + tokens[i];
    }
    assert tokens[..|tokens|] == tokens;
  }

  function ScoreSegmentation(gold: seq<string>, predicted: seq<string>): Option<SegmentationScore>
  {
    if !ValidTokens(gold) || !ValidTokens(predicted) then None
    else
      var valid := Surface(gold) == Surface(predicted);
      var correct := if valid then |Spans(gold) * Spans(predicted)| else 0;
      var precision, recall := Ratio(correct, |predicted|), Ratio(correct, |gold|);
      if gold == [] && predicted == [] then Some(SegmentationScore(1.0, 1.0, 1.0, correct, 0, 0, true, valid))
      else Some(SegmentationScore(precision, recall, F1(precision, recall), correct, |predicted|, |gold|,
                                  valid && gold == predicted, valid))
  }

  lemma {:induction false} SpansInside(tokens: seq<string>, s: Span)
    requires ValidTokens(tokens) && s in Spans(tokens)
    ensures 0 <= s.0 < s.1 <= |Surface(tokens)|
    ensures s.1 == |Surface(tokens)| <==> s == (|Surface(tokens[..|tokens| - 1])|, |Surface(tokens)|)
  {
    var front := tokens[..|tokens| - 1];
    if s in Spans(front) {
      SpansInside(front, s);
    }
  }

  lemma {:induction false} OneSpanPerToken(tokens: seq<string>)
    requires ValidTokens(tokens)
    ensures |Spans(tokens)| == |tokens|
  {
    if tokens != [] {
      var front := tokens[..|tokens| - 1];
      OneSpanPerToken(front);
      var last := (|Surface(front)|, |Surface(tokens)|);
      if last in Spans(front) {
        SpansInside(front, last);
      }
    }
  }

  lemma EmptySurface(tokens: seq<string>)
    requires ValidTokens(tokens)
    ensures Surface(tokens) == "" <==> tokens == []
  {
  }

  /** Over one surface, a list whose spans all occur in another list is that list. */
  lemma {:induction false} TilingIsRigid(a: seq<string>, b: seq<string>)
    requires ValidTokens(a) && ValidTokens(b) && Surface(a) == Surface(b) && Spans(a) <= Spans(b)
    ensures a == b
  {
    if a == [] {
      EmptySurface(b);
    } else {
      var fa := a[..|a| - 1];
      var last := (|Surface(fa)|, |Surface(a)|);
      assert last in Spans(b);
      SpansInside(b, last);
      var fb := b[..|b| - 1];
      assert |Surface(fa)| == |Surface(fb)|;
      assert Surface(fa) == Surface(a)[..|Surface(fa)|] == Surface(fb);
      forall s | s in Spans(fa) ensures s in Spans(fb) {
        SpansInside(fa, s);
      }
      TilingIsRigid(fa, fb);
      assert a[|a| - 1] == Surface(a)[|Surface(fa)|..] == b[|b| - 1];
      assert a == fa + [a[|a| - 1]] && b == fb + [b[|b| - 1]];
    }
  }

  lemma FullIntersection(a: set<Span>, b: set<Span>)
    ensures |a * b| <= |a| && |a * b| <= |b|
    ensures |a * b| == |a| <==> a <= b
  {
    SubsetSize(a * b, a);
    SubsetSize(a * b, b);
    assert a == a * b + (a - b);
    assert |a| == |a * b| + |a - b|;
    if !(a <= b) {
      assert a - b != {};
    } else {
      assert a * b == a;
    }
  }

  lemma RatioIsOne(n: nat, d: nat)
    requires n <= d && d > 0
    ensures 0.0 <= Ratio(n, d) <= 1.0
    ensures Ratio(n, d) == 1.0 <==> n == d
    ensures Ratio(n, d) == 0.0 <==> n == 0
  {
  }

  /** The harmonic mean of correct/p and correct/g is 2 * correct / (p + g). */
  lemma F1OfCounts(c: nat, p: nat, g: nat)
    requires c <= p && c <= g && p + g > 0
    ensures F1(Ratio(c, p), Ratio(c, g)) == Ratio(2 * c, p + g)
    ensures 0.0 <= F1(Ratio(c, p), Ratio(c, g)) <= 1.0
    ensures F1(Ratio(c, p), Ratio(c, g)) == 1.0 <==> c == p == g
  {
    if c > 0 {
      F1Positive(c, p, g);
    }
    RatioIsOne(2 * c, p + g);
  }

  lemma F1Positive(c: nat, p: nat, g: nat)
    requires 0 < c <= p && c <= g
    ensures F1(Ratio(c, p), Ratio(c, g)) == Ratio(2 * c, p + g)
  {
    var x, y, z := c as real, p as real, g as real;
    QuotientTimes(x, y);
    QuotientTimes(x, z);
    HarmonicMean(x, y, z, x / y, x / z);
    assert 2.0 * x == (2 * c) as real && y + z == (p + g) as real;
  }

  lemma HarmonicMean(x: real, y: real, z: real, precision: real, recall: real)
    requires x > 0.0 && y > 0.0 && z > 0.0 && precision * y == x && recall * z == x && precision > 0.0 && recall > 0.0
    ensures F1(precision, recall) == 2.0 * x / (y + z)
  {
    QuotientTimes(2.0 * precision * recall, precision + recall);
    F1Algebra(x, y, z, precision, recall, 2.0 * precision * recall / (precision + recall));
  }

  lemma QuotientTimes(x: real, y: real)
    requires y > 0.0
    ensures x / y * y == x
    ensures x > 0.0 ==> x / y > 0.0
  {
  }

  lemma F1Algebra(x: real, y: real, z: real, precision: real, recall: real, f: real)
    requires x > 0.0 && y > 0.0 && z > 0.0 && precision * y == x && recall * z == x
    requires f * (precision + recall) == 2.0 * precision * recall
    ensures f == 2.0 * x / (y + z)
  {
    var yz := y * z;
    assert yz > 0.0;
    assert precision * yz == x * z by { assert precision * (y * z) == (precision * y) * z; }
    assert recall * yz == x * y by { assert recall * (y * z) == (recall * z) * y; }
    assert f * (precision + recall) * yz == f * (x * z + x * y) by {
      assert f * (precision + recall) * yz == f * (precision * yz + recall * yz);
    }
    assert 2.0 * precision * recall * yz == 2.0 * x * x by {
      assert precision * recall * (y * z) == (precision * y) * (recall * z);
      assert 2.0 * precision * recall * yz == 2.0 * (precision * recall * yz);
    }
    assert f * (x * z + x * y) == x * (f * (y + z));
    assert x * (f * (y + z)) == x * (2.0 * x);
    assert f * (y + z) == 2.0 * x;
  }

  lemma CorrectWithinBoth(gold: seq<string>, predicted: seq<string>)
    requires ScoreSegmentation(gold, predicted).Some?
    ensures var s := ScoreSegmentation(gold, predicted).value;
            s.correct <= |gold| && s.correct <= |predicted|
  {
    OneSpanPerToken(gold);
    OneSpanPerToken(predicted);
    FullIntersection(Spans(gold), Spans(predicted));
  }

  /** On non-empty gold, every metric is 1 exactly when the two token lists are identical. */
  lemma PerfectExactlyWhenIdentical(gold: seq<string>, predicted: seq<string>)
    requires gold != [] && ScoreSegmentation(gold, predicted).Some?
    ensures var s := ScoreSegmentation(gold, predicted).value;
            && (s.recall == 1.0 <==> gold == predicted)
            && (s.precision == 1.0 <==> gold == predicted)
            && (s.f1 == 1.0 <==> gold == predicted)
            && (s.exactMatch <==> gold == predicted)
            && s.f1 == Ratio(2 * s.correct, |predicted| + |gold|)
  {
    var s := ScoreSegmentation(gold, predicted).value;
    CorrectWithinBoth(gold, predicted);
    OneSpanPerToken(gold);
    OneSpanPerToken(predicted);
    F1OfCounts(s.correct, |predicted|, |gold|);
    RatioIsOne(s.correct, |gold|);
    if |predicted| > 0 { RatioIsOne(s.correct, |predicted|); }
    if s.validSurface {
      FullIntersection(Spans(gold), Spans(predicted));
      FullIntersection(Spans(predicted), Spans(gold));
      assert Spans(gold) * Spans(predicted) == Spans(predicted) * Spans(gold);
      if Spans(gold) <= Spans(predicted) { TilingIsRigid(gold, predicted); }
      if Spans(predicted) <= Spans(gold) { TilingIsRigid(predicted, gold); }
    }
  }

  /** Exchanging gold and prediction exchanges precision and recall and keeps F1. */
  lemma SwapExchangesPrecisionAndRecall(gold: seq<string>, predicted: seq<string>)
    ensures ScoreSegmentation(gold, predicted).Some? <==> ScoreSegmentation(predicted, gold).Some?
    ensures ScoreSegmentation(gold, predicted).Some? ==>
              var s, t := ScoreSegmentation(gold, predicted).value, ScoreSegmentation(predicted, gold).value;
              && s.precision == t.recall && s.recall == t.precision && s.f1 == t.f1
              && s.correct == t.correct && s.exactMatch == t.exactMatch && s.validSurface == t.validSurface
  {
    assert Spans(gold) * Spans(predicted) == Spans(predicted) * Spans(gold);
  }

  // ------------------------------------------------------------ aligned token sequences

  function Matches(a: seq<string>, b: seq<string>): nat
    requires |a| == |b|
  {
    if a == [] then 0
    else Matches(a[..|a| - 1], b[..|b| - 1]) + if a[|a| - 1] == b[|b| - 1] then 1 else 0
  }

  lemma {:induction false} MatchesBounds(a: seq<string>, b: seq<string>)
    requires |a| == |b|
    ensures Matches(a, b) <= |a|
    ensures Matches(a, b) == |a| <==> a == b
  {
    if a != [] {
      var fa, fb := a[..|a| - 1], b[..|b| - 1];
      MatchesBounds(fa, fb);
      assert a == fa + [a[|a| - 1]] && b == fb + [b[|b| - 1]];
    }
  }

  function ScoreTags(gold: seq<string>, predicted: seq<string>): Option<TaggingScore>
  {
    if !ValidTokens(gold) || !ValidTokens(predicted) then None
    else if |gold| != |predicted| then Some(TaggingScore(0.0, 0, |gold|, false))
    else
      var correct := Matches(gold, predicted);
      Some(TaggingScore(if gold == [] then 1.0 else Ratio(correct, |gold|), correct, |gold|, true))
  }

  function Normalized(tokens: seq<string>, nfc: string -> string): seq<string>
  {
    seq(|tokens|, i requires 0 <= i < |tokens| => nfc(tokens[i]))
  }

  /** `nfc` is Unicode canonical composition. */
  function ScoreTransliteration(gold: seq<string>, predicted: seq<string>, nfc: string -> string): Option<TransliterationScore>
  {
    if !ValidTokens(gold) || !ValidTokens(predicted) then None
    else if |gold| != |predicted| then Some(TransliterationScore(0.0, 0, |gold|, false, false))
    else
      var g, p := Normalized(gold, nfc), Normalized(predicted, nfc);
      var correct := Matches(g, p);
      Some(TransliterationScore(if gold == [] then 1.0 else Ratio(correct, |gold|), correct, |gold|, g == p, true))
  }

  // ---------------------------------------------------------------------- dependencies

  predicate ValidArc(a: Arc) { a.token > 0 && a.head >= 0 && a.deprel != "" }

  /** The arcs by token, unless one is invalid or a token occurs twice. */
  function IndexArcs(arcs: seq<Arc>): Option<map<int, Arc>>
  {
    if arcs == [] then Some(map[])
    else
      var m, a := IndexArcs(arcs[..|arcs| - 1]), arcs[|arcs| - 1];
      if m.None? || !ValidArc(a) || a.token in m.value then None else Some(m.value[a.token := a])
  }

  function Tokens(arcs: seq<Arc>): set<int>
  {
    if arcs == [] then {} else Tokens(arcs[..|arcs| - 1]) + {arcs[|arcs| - 1].token}
  }

  lemma TokensStep(arcs: seq<Arc>, i: nat)
    requires i < |arcs|
    ensures Tokens(arcs[..i + 1]) == Tokens(arcs[..i]) + {arcs[i].token}
  {
    assert arcs[..i + 1][..i] == arcs[..i];
  }

  lemma {:induction false} IndexKeys(arcs: seq<Arc>)
    requires IndexArcs(arcs).Some?
    ensures IndexArcs(arcs).value.Keys == Tokens(arcs) && |IndexArcs(arcs).value| == |arcs|
  {
    if arcs != [] {
      IndexKeys(arcs[..|arcs| - 1]);
    }
  }

  lemma {:induction false} IndexEntry(arcs: seq<Arc>, i: nat)
    requires IndexArcs(arcs).Some? && i < |arcs|
    ensures ValidArc(arcs[i]) && arcs[i].token !in Tokens(arcs[..i])
    ensures arcs[i].token in IndexArcs(arcs).value && IndexArcs(arcs).value[arcs[i].token] == arcs[i]
  {
    var front := arcs[..|arcs| - 1];
    IndexKeys(front);
    if i < |arcs| - 1 {
      IndexEntry(front, i);
      assert front[i] == arcs[i] && front[..i] == arcs[..i];
    }
  }

  /** Conversely, valid arcs of distinct tokens are indexed. */
  lemma {:induction false} DistinctArcsIndex(arcs: seq<Arc>)
    requires forall i | 0 <= i < |arcs| :: ValidArc(arcs[i]) && arcs[i].token !in Tokens(arcs[..i])
    ensures IndexArcs(arcs).Some?
  {
    if arcs != [] {
      var front := arcs[..|arcs| - 1];
      assert forall i | 0 <= i < |front| :: front[i] == arcs[i] && front[..i] == arcs[..i];
      DistinctArcsIndex(front);
      IndexKeys(front);
    }
  }

  function HeadMatches(gold: map<int, Arc>, predicted: map<int, Arc>): set<int>
  {
    set t | t in gold && t in predicted && gold[t].head == predicted[t].head
  }

  function LabelMatches(gold: map<int, Arc>, predicted: map<int, Arc>): set<int>
  {
    set t | t in gold && t in predicted && gold[t].head == predicted[t].head && gold[t].deprel == predicted[t].deprel
  }

  function ScoreDependencies(gold: seq<Arc>, predicted: seq<Arc>): Option<DependencyScore>
  {
    var g, p := IndexArcs(gold), IndexArcs(predicted);
    if g.None? || p.None? then None
    else if g.value.Keys != p.value.Keys then Some(DependencyScore(0.0, 0.0, 0, 0, |gold|, false))
    else
      var heads, labeled := |HeadMatches(g.value, p.value)|, |LabelMatches(g.value, p.value)|;
      Some(if gold == [] then DependencyScore(1.0, 1.0, heads, labeled, 0, true)
           else DependencyScore(Ratio(heads, |gold|), Ratio(labeled, |gold|), heads, labeled, |gold|, true))
  }

  lemma AddOne(all: set<int>, done: set<int>, t: int)
    requires t !in done
    ensures |all * (done + {t})| == |all * done| + if t in all then 1 else 0
  {
    if t in all {
      assert all * (done + {t}) == all * done + {t};
    } else {
      assert all * (done + {t}) == all * done;
    }
  }

  /** The scorer's own loop over the gold arcs, in their order. */
  method ComputeDependencies(gold: seq<Arc>, predicted: seq<Arc>) returns (r: Option<DependencyScore>)
    ensures r == ScoreDependencies(gold, predicted)
  {
    var g, p := IndexArcs(gold), IndexArcs(predicted);
    if g.None? || p.None? { return None; }
    if g.value.Keys != p.value.Keys { return Some(DependencyScore(0.0, 0.0, 0, 0, |gold|, false)); }
    var heads, labeled := 0, 0;
    ghost var allHeads, allLabels := HeadMatches(g.value, p.value), LabelMatches(g.value, p.value);
    for i := 0 to |gold|
      invariant heads == |allHeads * Tokens(gold[..i])|
      invariant labeled == |allLabels * Tokens(gold[..i])|
    {
      var t := gold[i].token;
      IndexEntry(gold, i);
      TokensStep(gold, i);
      AddOne(allHeads, Tokens(gold[..i]), t);
      AddOne(allLabels, Tokens(gold[..i]), t);
      assert t in g.value.Keys;
      if gold[i].head == p.value[t].head {
        heads := heads + 1;
        if gold[i].deprel == p.value[t].deprel { labeled := labeled + 1; }
      }
    }
    IndexKeys(gold);
    assert gold[..|gold|] == gold;
    assert allHeads * Tokens(gold) == allHeads && allLabels * Tokens(gold) == allLabels;
    if gold == [] { return Some(DependencyScore(1.0, 1.0, heads, labeled, 0, true)); }
    return Some(DependencyScore(Ratio(heads, |gold|), Ratio(labeled, |gold|), heads, labeled, |gold|, true));
  }

  lemma DependencyBounds(gold: seq<Arc>, predicted: seq<Arc>)
    requires ScoreDependencies(gold, predicted).Some?
    ensures var s := ScoreDependencies(gold, predicted).value;
            s.labeled <= s.heads <= s.total == |gold|
  {
    var g, p := IndexArcs(gold).value, IndexArcs(predicted).value;
    IndexKeys(gold);
    SubsetSize(LabelMatches(g, p), HeadMatches(g, p));
    SubsetSize(HeadMatches(g, p), g.Keys);
  }
}
