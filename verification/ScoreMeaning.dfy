/** What the scorers count, token by token and arc by arc: the sets of spans, matches and
    indexed arcs they work with, said again of the lists they were given. */
module ScoreMeaning {
  import opened Basics
  import opened Evaluation

  // ---------------------------------------------------------------------- segmentation

  /** The gold token i stands in the prediction too: the same text behind the same text. */
  predicate Kept(gold: seq<string>, predicted: seq<string>, i: nat)
    requires i < |gold|
  {
    exists j | 0 <= j < |predicted| :: StandsAt(gold, predicted, i, j)
  }

  predicate StandsAt(gold: seq<string>, predicted: seq<string>, i: nat, j: nat)
    requires i < |gold| && j < |predicted|
  {
    Surface(gold[..i]) == Surface(predicted[..j]) && gold[i] == predicted[j]
  }

  function KeptTokens(gold: seq<string>, predicted: seq<string>): set<int>
  {
    set i | 0 <= i < |gold| && Kept(gold, predicted, i)
  }

  function SpanOf(tokens: seq<string>, i: nat): Span
    requires i < |tokens|
  {
    (|Surface(tokens[..i])|, |Surface(tokens[..i + 1])|)
  }

  lemma SurfaceStep(tokens: seq<string>, i: nat)
    requires i < |tokens|
    ensures Surface(tokens[..i + 1]) == Surface(tokens[..i]) + tokens[i]
  {
    assert tokens[..i + 1][..i] == tokens[..i];
  }

  lemma {:induction false} PrefixOfSurface(tokens: seq<string>, i: nat)
    requires i <= |tokens|
    ensures Surface(tokens[..i]) <= Surface(tokens)
  {
    if i < |tokens| {
      var front := tokens[..|tokens| - 1];
      PrefixOfSurface(front, i);
      assert front[..i] == tokens[..i];
    } else {
      assert tokens[..i] == tokens;
    }
  }

  lemma {:induction false} SpansAre(tokens: seq<string>, s: Span)
    ensures s in Spans(tokens) <==> exists i | 0 <= i < |tokens| :: SpanOf(tokens, i) == s
  {
    if tokens != [] {
      var n := |tokens| - 1;
      var front := tokens[..n];
      SpansAre(front, s);
      forall i | 0 <= i < n ensures SpanOf(front, i) == SpanOf(tokens, i) { SameSpan(tokens, n, i); }
      assert tokens[..n + 1] == tokens;
      assert SpanOf(tokens, n) == (|Surface(front)|, |Surface(tokens)|);
    }
  }

  lemma SameSpan(tokens: seq<string>, n: nat, i: nat)
    requires i < n <= |tokens|
    ensures SpanOf(tokens[..n], i) == SpanOf(tokens, i)
  {
    assert tokens[..n][..i] == tokens[..i] && tokens[..n][..i + 1] == tokens[..i + 1];
  }

  /** A token is the stretch of the surface its span names, behind the text before it. */
  lemma TokenIsSlice(tokens: seq<string>, i: nat)
    requires i < |tokens|
    ensures var (from, to) := SpanOf(tokens, i);
            && 0 <= from <= to <= |Surface(tokens)| && to - from == |tokens[i]|
            && Surface(tokens[..i]) == Surface(tokens)[..from] && tokens[i] == Surface(tokens)[from..to]
  {
    SurfaceStep(tokens, i);
    PrefixOfSurface(tokens, i);
    PrefixOfSurface(tokens, i + 1);
    assert Surface(tokens[..i + 1]) == Surface(tokens)[..SpanOf(tokens, i).1];
  }

  /** Over one surface a span of both is a token of both. */
  lemma SpanIsToken(gold: seq<string>, predicted: seq<string>, i: nat, j: nat)
    requires i < |gold| && j < |predicted| && Surface(gold) == Surface(predicted)
    ensures SpanOf(gold, i) == SpanOf(predicted, j) <==> StandsAt(gold, predicted, i, j)
  {
    TokenIsSlice(gold, i);
    TokenIsSlice(predicted, j);
  }

  lemma KeptIffSpan(gold: seq<string>, predicted: seq<string>, i: nat)
    requires i < |gold| && Surface(gold) == Surface(predicted)
    ensures SpanOf(gold, i) in Spans(predicted) <==> Kept(gold, predicted, i)
  {
    SpansAre(predicted, SpanOf(gold, i));
    forall j | 0 <= j < |predicted| ensures SpanOf(predicted, j) == SpanOf(gold, i) <==> StandsAt(gold, predicted, i, j) {
      SpanIsToken(gold, predicted, i, j);
    }
  }

  function SpansIn(tokens: seq<string>, spans: set<Span>): set<int>
  {
    set i | 0 <= i < |tokens| && SpanOf(tokens, i) in spans
  }

  lemma LastSpan(tokens: seq<string>)
    requires ValidTokens(tokens) && tokens != []
    ensures var n := |tokens| - 1;
            SpanOf(tokens, n) !in Spans(tokens[..n]) && Spans(tokens) == Spans(tokens[..n]) + {SpanOf(tokens, n)}
  {
    var n := |tokens| - 1;
    assert tokens[..n + 1] == tokens;
    if SpanOf(tokens, n) in Spans(tokens[..n]) { SpansInside(tokens[..n], SpanOf(tokens, n)); }
  }

  lemma SpansInStep(tokens: seq<string>, spans: set<Span>)
    requires tokens != []
    ensures var n := |tokens| - 1;
            SpansIn(tokens, spans) == SpansIn(tokens[..n], spans) + if SpanOf(tokens, n) in spans then {n} else {}
  {
    var n := |tokens| - 1;
    forall i | 0 <= i < n ensures SpanOf(tokens[..n], i) == SpanOf(tokens, i) { SameSpan(tokens, n, i); }
  }

  lemma OneMore<T>(a: set<T>, b: set<T>, x: T)
    requires x !in a
    ensures |(a + {x}) * b| == |a * b| + if x in b then 1 else 0
  {
    assert (a + {x}) * b == a * b + if x in b then {x} else {};
  }

  lemma {:induction false} CountSpans(tokens: seq<string>, spans: set<Span>)
    requires ValidTokens(tokens)
    ensures |Spans(tokens) * spans| == |SpansIn(tokens, spans)|
  {
    if tokens == [] {
      assert Spans(tokens) * spans == {} && SpansIn(tokens, spans) == {};
    } else {
      var front := tokens[..|tokens| - 1];
      CountSpans(front, spans);
      LastSpan(tokens);
      SpansInStep(tokens, spans);
      OneMore(Spans(front), spans, SpanOf(tokens, |front|));
    }
  }

  /** Over one surface the correct count is the number of gold tokens that stand in the
      prediction with the same text before them; over two it is none. */
  lemma CorrectAreTheKept(gold: seq<string>, predicted: seq<string>)
    requires ScoreSegmentation(gold, predicted).Some?
    ensures var s := ScoreSegmentation(gold, predicted).value;
            var correct := if Surface(gold) == Surface(predicted) then |KeptTokens(gold, predicted)| else 0;
            && s.correct == correct && s.predicted == |predicted| && s.gold == |gold|
            && (s.validSurface <==> Surface(gold) == Surface(predicted))
            && (gold != [] || predicted != [] ==> s.precision == Ratio(correct, |predicted|) && s.recall == Ratio(correct, |gold|))
            && (gold == [] && predicted == [] ==> s.precision == s.recall == s.f1 == 1.0)
  {
    if Surface(gold) == Surface(predicted) {
      CountSpans(gold, Spans(predicted));
      forall i | 0 <= i < |gold| ensures SpanOf(gold, i) in Spans(predicted) <==> Kept(gold, predicted, i) {
        KeptIffSpan(gold, predicted, i);
      }
      assert SpansIn(gold, Spans(predicted)) == KeptTokens(gold, predicted);
    }
  }

  // ------------------------------------------------------------ aligned token sequences

  function SamePlaces(a: seq<string>, b: seq<string>): set<int>
    requires |a| == |b|
  {
    set i | 0 <= i < |a| && a[i] == b[i]
  }

  lemma {:induction false} MatchesAreSamePlaces(a: seq<string>, b: seq<string>)
    requires |a| == |b|
    ensures Matches(a, b) == |SamePlaces(a, b)|
  {
    if a != [] {
      var n := |a| - 1;
      MatchesAreSamePlaces(a[..n], b[..n]);
      assert SamePlaces(a, b) == SamePlaces(a[..n], b[..n]) + if a[n] == b[n] then {n} else {};
    }
  }

  /** A tag score counts the places with equal tags; a wrong length scores nothing. */
  lemma TagsCountPlaces(gold: seq<string>, predicted: seq<string>)
    requires ScoreTags(gold, predicted).Some?
    ensures var s := ScoreTags(gold, predicted).value;
            && s.total == |gold| && (s.validLength <==> |gold| == |predicted|)
            && (|gold| != |predicted| ==> s.correct == 0 && s.accuracy == 0.0)
            && (|gold| == |predicted| ==> s.correct == |SamePlaces(gold, predicted)|)
            && (|gold| == |predicted| && gold != [] ==> s.accuracy == Ratio(s.correct, |gold|))
  {
    if |gold| == |predicted| {
      MatchesAreSamePlaces(gold, predicted);
    }
  }

  /** A transliteration counts the places whose canonical compositions are equal. */
  lemma FormsCountPlaces(gold: seq<string>, predicted: seq<string>, nfc: string -> string)
    requires ScoreTransliteration(gold, predicted, nfc).Some?
    ensures var s := ScoreTransliteration(gold, predicted, nfc).value;
            && s.total == |gold| && (s.validLength <==> |gold| == |predicted|)
            && (|gold| != |predicted| ==> s.correct == 0 && s.accuracy == 0.0 && !s.exactMatch)
            && (|gold| == |predicted| ==>
                  && s.correct == |set i | 0 <= i < |gold| && nfc(gold[i]) == nfc(predicted[i])|
                  && (s.exactMatch <==> forall i | 0 <= i < |gold| :: nfc(gold[i]) == nfc(predicted[i])))
            && (|gold| == |predicted| && gold != [] ==> s.accuracy == Ratio(s.correct, |gold|))
  {
    if |gold| == |predicted| {
      MatchesAreSamePlaces(Normalized(gold, nfc), Normalized(predicted, nfc));
      SameForms(gold, predicted, nfc);
    }
  }

  lemma SameForms(gold: seq<string>, predicted: seq<string>, nfc: string -> string)
    requires |gold| == |predicted|
    ensures var g, p := Normalized(gold, nfc), Normalized(predicted, nfc);
            && SamePlaces(g, p) == (set i | 0 <= i < |gold| && nfc(gold[i]) == nfc(predicted[i]))
            && (g == p <==> forall i | 0 <= i < |gold| :: nfc(gold[i]) == nfc(predicted[i]))
  {
    var g, p := Normalized(gold, nfc), Normalized(predicted, nfc);
    if g == p {
      forall i | 0 <= i < |gold| ensures nfc(gold[i]) == nfc(predicted[i]) { assert g[i] == p[i]; }
    }
  }

  // ---------------------------------------------------------------------- dependencies

  /** Gold arcs whose token has, in the prediction, the same head, and the same label too. */
  function SameHeads(gold: seq<Arc>, predicted: seq<Arc>): set<int>
  {
    set i | 0 <= i < |gold| && HeadFound(gold[i], predicted)
  }

  predicate HeadFound(a: Arc, predicted: seq<Arc>) { exists j | 0 <= j < |predicted| :: predicted[j].token == a.token && predicted[j].head == a.head }

  function SameArcs(gold: seq<Arc>, predicted: seq<Arc>): set<int>
  {
    set i | 0 <= i < |gold| && gold[i] in predicted
  }

  /** The arcs are valid and no token has two. */
  predicate OneArcEach(arcs: seq<Arc>)
  {
    && (forall i | 0 <= i < |arcs| :: arcs[i].token > 0 && arcs[i].head >= 0 && arcs[i].deprel != "")
    && (forall i, j | 0 <= i < j < |arcs| :: arcs[i].token != arcs[j].token)
  }

  lemma {:induction false} TokensAre(arcs: seq<Arc>, t: int)
    ensures t in Tokens(arcs) <==> exists i | 0 <= i < |arcs| :: arcs[i].token == t
  {
    if arcs != [] {
      var front := arcs[..|arcs| - 1];
      TokensAre(front, t);
      assert forall i | 0 <= i < |front| :: front[i] == arcs[i];
    }
  }

  lemma IndexedIff(arcs: seq<Arc>)
    ensures IndexArcs(arcs).Some? <==> OneArcEach(arcs)
  {
    if IndexArcs(arcs).Some? {
      forall i, j | 0 <= i < j < |arcs| ensures arcs[i].token != arcs[j].token {
        IndexEntry(arcs, j);
        TokensAre(arcs[..j], arcs[i].token);
        assert arcs[..j][i] == arcs[i];
      }
      forall i | 0 <= i < |arcs| ensures ValidArc(arcs[i]) { IndexEntry(arcs, i); }
    } else if OneArcEach(arcs) {
      forall i | 0 <= i < |arcs| ensures ValidArc(arcs[i]) && arcs[i].token !in Tokens(arcs[..i]) {
        TokensAre(arcs[..i], arcs[i].token);
        assert forall j | 0 <= j < i :: arcs[..i][j] == arcs[j];
      }
      DistinctArcsIndex(arcs);
    }
  }

  /** The indexed arc of a token is the one in the list. */
  lemma Looked(arcs: seq<Arc>, t: int)
    requires IndexArcs(arcs).Some?
    ensures t in IndexArcs(arcs).value <==> exists i | 0 <= i < |arcs| :: arcs[i].token == t
    ensures t in IndexArcs(arcs).value ==> IndexArcs(arcs).value[t] in arcs && IndexArcs(arcs).value[t].token == t
  {
    IndexKeys(arcs);
    TokensAre(arcs, t);
    if t in Tokens(arcs) {
      var i :| 0 <= i < |arcs| && arcs[i].token == t;
      IndexEntry(arcs, i);
    }
  }

  lemma Found(predicted: seq<Arc>, a: Arc)
    requires IndexArcs(predicted).Some?
    ensures HeadFound(a, predicted) <==> a.token in IndexArcs(predicted).value && IndexArcs(predicted).value[a.token].head == a.head
    ensures a in predicted <==> a.token in IndexArcs(predicted).value && IndexArcs(predicted).value[a.token] == a
  {
    Looked(predicted, a.token);
    forall j | 0 <= j < |predicted| ensures predicted[j].token in IndexArcs(predicted).value && IndexArcs(predicted).value[predicted[j].token] == predicted[j] {
      IndexEntry(predicted, j);
    }
  }

  function ArcsOf(arcs: seq<Arc>, ts: set<int>): set<int> { set i | 0 <= i < |arcs| && arcs[i].token in ts }

  lemma ArcsStep(arcs: seq<Arc>, ts: set<int>)
    requires OneArcEach(arcs) && arcs != []
    ensures var n := |arcs| - 1;
            var t := arcs[n].token;
            && t !in Tokens(arcs[..n]) && OneArcEach(arcs[..n])
            && ArcsOf(arcs, ts) == ArcsOf(arcs[..n], ts - {t}) + if t in ts then {n} else {}
  {
    var n := |arcs| - 1;
    assert forall i | 0 <= i < n :: arcs[..n][i] == arcs[i];
    TokensAre(arcs[..n], arcs[n].token);
  }

  lemma WithoutOne(ts: set<int>, t: int)
    ensures |ts| == |ts - {t}| + if t in ts then 1 else 0
  {
    if t in ts { assert ts == ts - {t} + {t}; } else { assert ts == ts - {t}; }
  }

  /** A set of tokens counts the positions of the arcs with those tokens. */
  lemma {:induction false} CountTokens(arcs: seq<Arc>, ts: set<int>)
    requires OneArcEach(arcs) && ts <= Tokens(arcs)
    ensures |ts| == |ArcsOf(arcs, ts)|
  {
    if arcs == [] {
      assert ArcsOf(arcs, ts) == {};
    } else {
      var t := arcs[|arcs| - 1].token;
      ArcsStep(arcs, ts);
      CountTokens(arcs[..|arcs| - 1], ts - {t});
      WithoutOne(ts, t);
    }
  }

  /** The attachment scores count the gold arcs whose head, and whose head and label, the
      prediction has for their token; there is a score exactly for valid arcs with one each,
      and other tokens than the gold's score nothing. */
  lemma DependenciesCountArcs(gold: seq<Arc>, predicted: seq<Arc>)
    ensures ScoreDependencies(gold, predicted).Some? <==> OneArcEach(gold) && OneArcEach(predicted)
    ensures ScoreDependencies(gold, predicted).Some? ==>
              var s := ScoreDependencies(gold, predicted).value;
              && s.total == |gold| && (s.validStructure <==> Tokens(gold) == Tokens(predicted))
              && (!s.validStructure ==> s.heads == s.labeled == 0 && s.uas == s.las == 0.0)
              && (s.validStructure ==> s.heads == |SameHeads(gold, predicted)| && s.labeled == |SameArcs(gold, predicted)|)
              && (s.validStructure && gold != [] ==> s.uas == Ratio(s.heads, |gold|) && s.las == Ratio(s.labeled, |gold|))
  {
    IndexedIff(gold);
    IndexedIff(predicted);
    if OneArcEach(gold) && OneArcEach(predicted) {
      IndexKeys(gold);
      IndexKeys(predicted);
      HeadsAreArcs(gold, predicted);
    }
  }

  lemma HeadsAreArcs(gold: seq<Arc>, predicted: seq<Arc>)
    requires OneArcEach(gold) && IndexArcs(gold).Some? && IndexArcs(predicted).Some?
    ensures |HeadMatches(IndexArcs(gold).value, IndexArcs(predicted).value)| == |SameHeads(gold, predicted)|
    ensures |LabelMatches(IndexArcs(gold).value, IndexArcs(predicted).value)| == |SameArcs(gold, predicted)|
  {
    var g, p := IndexArcs(gold).value, IndexArcs(predicted).value;
    var heads, labels := HeadMatches(g, p), LabelMatches(g, p);
    IndexKeys(gold);
    CountTokens(gold, heads);
    CountTokens(gold, labels);
    forall i | 0 <= i < |gold|
      ensures gold[i].token in heads <==> HeadFound(gold[i], predicted)
      ensures gold[i].token in labels <==> gold[i] in predicted
    {
      IndexEntry(gold, i);
      Found(predicted, gold[i]);
      Looked(predicted, gold[i].token);
    }
    assert SameHeads(gold, predicted) == ArcsOf(gold, heads);
    assert SameArcs(gold, predicted) == ArcsOf(gold, labels);
  }
}
