/** Reservoir selection of challenge samples: what every random outcome yields, and over
    all outcomes, that every matching sample has the same share. */
module Selection {
  import opened Basics
  import opened Sorting

  /** Identifiers are only compared, so any total order serves. */
  datatype Sample = Sample(id: int, content: nat)

  datatype Selected = Ok(samples: seq<Sample>) | CountNotPositive | DuplicateSampleId | InsufficientSamples

  // ------------------------------------------------------------- outcomes and reservoir

  function Draws(n: nat, count: nat): nat { if n > count then n - count else 0 }

  /** `draws[k]` is what randrange(count + k + 1) returned. */
  predicate ValidDraws(draws: seq<int>, n: nat, count: nat)
  {
    |draws| == Draws(n, count) && forall k | 0 <= k < |draws| :: 0 <= draws[k] < count + k + 1
  }

  /** The positions held after n matching samples. */
  function Reservoir(n: nat, count: nat, draws: seq<int>): seq<nat>
    requires ValidDraws(draws, n, count)
    ensures |Reservoir(n, count, draws)| == if n < count then n else count
  {
    if n == 0 then []
    else if n <= count then Reservoir(n - 1, count, []) + [n - 1]
    else
      var r, d := Reservoir(n - 1, count, draws[..|draws| - 1]), draws[|draws| - 1];
      if d < count then r[d := n - 1] else r
  }

  predicate Below(positions: seq<nat>, n: nat) { forall k | 0 <= k < |positions| :: positions[k] < n }

  lemma {:induction false} ReservoirDistinct(n: nat, count: nat, draws: seq<int>)
    requires ValidDraws(draws, n, count)
    ensures Distinct(Reservoir(n, count, draws))
    ensures Below(Reservoir(n, count, draws), n)
  {
    if 0 < n <= count {
      ReservoirDistinct(n - 1, count, []);
    } else if n > 0 {
      ReservoirDistinct(n - 1, count, draws[..|draws| - 1]);
    }
  }

  // -------------------------------------------------------------------------- the method

  predicate ById(a: Sample, b: Sample) { a.id <= b.id }

  function Ids(s: seq<Sample>): seq<int> { seq(|s|, i requires 0 <= i < |s| => s[i].id) }

  function Pick(samples: seq<Sample>, positions: seq<nat>): seq<Sample>
    requires Below(positions, |samples|)
  {
    seq(|positions|, i requires 0 <= i < |positions| => samples[positions[i]])
  }

  /** The loop over the matching samples; `draws` is what the random source will return. */
  method SelectSamples(samples: seq<Sample>, count: int, draws: seq<int>) returns (r: Selected)
    requires count > 0 ==> ValidDraws(draws, |samples|, count)
    ensures r.CountNotPositive? <==> count <= 0
    ensures r.DuplicateSampleId? <==> count > 0 && !Distinct(Ids(samples))
    ensures r.InsufficientSamples? <==> count > 0 && Distinct(Ids(samples)) && |samples| < count
    ensures r.Ok? ==> Below(Reservoir(|samples|, count, draws), |samples|)
    ensures r.Ok? ==> r.samples == Sort(Pick(samples, Reservoir(|samples|, count, draws)), ById)
  {
    if count <= 0 { return CountNotPositive; }
    var reservoir: seq<Sample>, seen: set<int> := [], {};
    ghost var held: seq<nat> := [];
    for i := 0 to |samples|
      invariant Seen(samples, i, seen)
      invariant Holding(samples, count, draws, i, held, reservoir)
    {
      var sample := samples[i];
      if sample.id in seen {
        DuplicateFound(samples, i, seen);
        return DuplicateSampleId;
      }
      OneMoreId(samples, i, seen);
      seen := seen + {sample.id};
      if |reservoir| < count {
        AppendNext(samples, count, draws, i, held, reservoir);
        reservoir, held := reservoir + [sample], held + [i];
      } else {
        var replacement := draws[i - count];
        DrawNext(samples, count, draws, i, held, reservoir);
        if replacement < count {
          reservoir, held := reservoir[replacement := sample], held[replacement := i];
        }
      }
    }
    AllTaken(samples, count, draws, held, reservoir, seen);
    if |samples| < count { return InsufficientSamples; }
    return Ok(Sort(reservoir, ById));
  }

  /** The loop's state after i samples, `held` being the positions of the reservoir. */
  predicate Holding(samples: seq<Sample>, count: nat, draws: seq<int>, i: nat, held: seq<nat>, reservoir: seq<Sample>)
    requires i <= |samples| && ValidDraws(draws, |samples|, count)
  {
    var past := draws[..Draws(i, count)];
    ValidDraws(past, i, count) && held == Reservoir(i, count, past) && Below(held, i) && reservoir == Pick(samples, held)
  }

  lemma AppendNext(samples: seq<Sample>, count: nat, draws: seq<int>, i: nat, held: seq<nat>, reservoir: seq<Sample>)
    requires i < |samples| && ValidDraws(draws, |samples|, count) && Holding(samples, count, draws, i, held, reservoir)
    requires |reservoir| < count
    ensures Holding(samples, count, draws, i + 1, held + [i], reservoir + [samples[i]])
  {
    assert draws[..Draws(i, count)] == [] == draws[..Draws(i + 1, count)];
  }

  lemma DrawNext(samples: seq<Sample>, count: nat, draws: seq<int>, i: nat, held: seq<nat>, reservoir: seq<Sample>)
    requires i < |samples| && ValidDraws(draws, |samples|, count) && Holding(samples, count, draws, i, held, reservoir)
    requires 0 < count <= |reservoir|
    ensures count <= i && |reservoir| == count
    ensures var d := draws[i - count];
            Holding(samples, count, draws, i + 1, if d < count then held[d := i] else held, if d < count then reservoir[d := samples[i]] else reservoir)
  {
    var now := draws[..Draws(i + 1, count)];
    assert now[..|now| - 1] == draws[..Draws(i, count)];
    var d := draws[i - count];
    if d < count {
      assert Pick(samples, held[d := i]) == reservoir[d := samples[i]];
    }
  }

  /** The first i identifiers, none of them twice. */
  predicate Seen(samples: seq<Sample>, i: nat, seen: set<int>)
  {
    i <= |samples| && seen == Elems(Ids(samples[..i])) && Distinct(Ids(samples[..i]))
  }

  lemma OneMoreId(samples: seq<Sample>, i: nat, seen: set<int>)
    requires i < |samples| && Seen(samples, i, seen) && samples[i].id !in seen
    ensures Seen(samples, i + 1, seen + {samples[i].id})
  {
    assert Ids(samples[..i + 1]) == Ids(samples[..i]) + [samples[i].id];
  }

  lemma DuplicateFound(samples: seq<Sample>, i: nat, seen: set<int>)
    requires i < |samples| && Seen(samples, i, seen) && samples[i].id in seen
    ensures !Distinct(Ids(samples))
  {
    var j :| 0 <= j < i && Ids(samples[..i])[j] == samples[i].id;
    assert Ids(samples)[j] == Ids(samples)[i];
  }

  lemma AllTaken(samples: seq<Sample>, count: nat, draws: seq<int>, held: seq<nat>, reservoir: seq<Sample>, seen: set<int>)
    requires ValidDraws(draws, |samples|, count)
    requires Seen(samples, |samples|, seen) && Holding(samples, count, draws, |samples|, held, reservoir)
    ensures Distinct(Ids(samples))
    ensures held == Reservoir(|samples|, count, draws) && Below(held, |samples|) && reservoir == Pick(samples, held)
  {
    assert samples[..|samples|] == samples && draws[..|draws|] == draws;
  }

  // ----------------------------------------------------------------- the manifest checks

  /** Uniqueness, order and count, as the manifest is validated. */
  predicate ManifestChecks(ids: seq<int>, count: int)
  {
    ids != [] && Distinct(ids) && Ordered(ids, (a: int, b: int) => a <= b) && |ids| == count
  }

  /** Every outcome yields `count` distinct identifiers in strictly increasing order. */
  lemma SelectionPassesManifest(samples: seq<Sample>, count: nat, draws: seq<int>)
    requires 0 < count <= |samples| && Distinct(Ids(samples)) && ValidDraws(draws, |samples|, count)
    ensures Below(Reservoir(|samples|, count, draws), |samples|)
    ensures var ids := Ids(Sort(Pick(samples, Reservoir(|samples|, count, draws)), ById));
            ManifestChecks(ids, count) && StrictlyIncreasing(ids)
  {
    var held := Reservoir(|samples|, count, draws);
    ReservoirDistinct(|samples|, count, draws);
    SortedPickIncreases(samples, held);
  }

  lemma SortedPickIncreases(samples: seq<Sample>, held: seq<nat>)
    requires Below(held, |samples|) && Distinct(held) && Distinct(Ids(samples))
    ensures StrictlyIncreasing(Ids(Sort(Pick(samples, held), ById)))
  {
    var picked := Pick(samples, held);
    var sorted := Sort(picked, ById);
    forall i, j | 0 <= i < j < |picked| ensures picked[i] != picked[j] {
      assert Ids(samples)[held[i]] != Ids(samples)[held[j]];
    }
    SameDistinct(picked, sorted);
    forall i, j | 0 <= i < j < |sorted| ensures Ids(sorted)[i] < Ids(sorted)[j] {
      assert ById(sorted[i], sorted[j]) && sorted[i] != sorted[j];
      assert sorted[i] in multiset(sorted) && sorted[j] in multiset(sorted);
      DifferentIds(samples, held, sorted[i], sorted[j]);
    }
  }

  lemma DifferentIds(samples: seq<Sample>, held: seq<nat>, x: Sample, y: Sample)
    requires Below(held, |samples|) && Distinct(Ids(samples))
    requires x in multiset(Pick(samples, held)) && y in multiset(Pick(samples, held)) && x != y
    ensures x.id != y.id
  {
    var a := PickedFrom(samples, held, x);
    var b := PickedFrom(samples, held, y);
    assert Ids(samples)[a] != Ids(samples)[b];
  }

  lemma PickedFrom(samples: seq<Sample>, held: seq<nat>, x: Sample) returns (a: nat)
    requires Below(held, |samples|) && x in multiset(Pick(samples, held))
    ensures a < |samples| && samples[a] == x
  {
    var k :| 0 <= k < |held| && Pick(samples, held)[k] == x;
    a := held[k];
  }

  lemma SameDistinct(s: seq<Sample>, t: seq<Sample>)
    requires multiset(s) == multiset(t) && Distinct(s)
    ensures Distinct(t)
  {
    DistinctSize(s);
    DistinctSize(t);
    assert |s| == |multiset(s)| && |t| == |multiset(t)|;
    forall x ensures x in Elems(s) <==> x in Elems(t) {
      assert x in s <==> x in multiset(s);
      assert x in t <==> x in multiset(t);
    }
    assert Elems(s) == Elems(t);
  }

  // ---------------------------------------------------------------------------- fairness

  /** Sequences of `ds` with one more draw each, any of those `picks` allows it. */
  function Extend(ds: set<seq<int>>, picks: seq<int> -> set<int>): set<seq<int>>
  {
    set d, r | d in ds && r in picks(d) :: d + [r]
  }

  lemma InExtend(ds: set<seq<int>>, picks: seq<int> -> set<int>, s: seq<int>)
    ensures s in Extend(ds, picks) <==> s != [] && s[..|s| - 1] in ds && s[|s| - 1] in picks(s[..|s| - 1])
  {
    if s in Extend(ds, picks) {
      var d, r :| d in ds && r in picks(d) && s == d + [r];
      assert s[..|s| - 1] == d;
    }
    if s != [] && s[..|s| - 1] in ds && s[|s| - 1] in picks(s[..|s| - 1]) {
      var d, r := s[..|s| - 1], s[|s| - 1];
      assert d in ds && r in picks(d) && s == d + [r];
    }
  }

  lemma {:induction false} ExtendOne(d: seq<int>, picks: set<int>)
    ensures |set r | r in picks :: d + [r]| == |picks|
  {
    var image := set r | r in picks :: d + [r];
    if picks == {} {
      assert image == {};
    } else {
      var x := Member(picks);
      var rest := set r | r in picks - {x} :: d + [r];
      ExtendOne(d, picks - {x});
      assert image == rest + {d + [x]};
      forall s | s in rest ensures s != d + [x] {
        var r :| r in picks - {x} && s == d + [r];
        assert s[|d|] == r && (d + [x])[|d|] == x;
      }
    }
  }

  /** Extending each sequence in `m` ways gives m times as many. */
  lemma {:induction false} ExtendSize(ds: set<seq<int>>, picks: seq<int> -> set<int>, m: nat)
    requires forall d | d in ds :: |picks(d)| == m
    ensures |Extend(ds, picks)| == |ds| * m
  {
    if ds == {} {
      assert Extend(ds, picks) == {};
    } else {
      var d := Member(ds);
      ExtendSize(ds - {d}, picks, m);
      ExtendOne(d, picks(d));
      SplitExtend(ds, picks, d);
      assert |ds - {d}| * m + m == |ds| * m;
    }
  }

  lemma InOwn(d: seq<int>, picks: set<int>, s: seq<int>)
    ensures s in (set r | r in picks :: d + [r]) <==> s != [] && s[..|s| - 1] == d && s[|s| - 1] in picks
  {
    if s != [] && s[..|s| - 1] == d && s[|s| - 1] in picks {
      var r := s[|s| - 1];
      assert r in picks && s == d + [r];
    }
  }

  lemma SplitExtend(ds: set<seq<int>>, picks: seq<int> -> set<int>, d: seq<int>)
    requires d in ds
    ensures |Extend(ds, picks)| == |Extend(ds - {d}, picks)| + |set r | r in picks(d) :: d + [r]|
  {
    var rest, own := Extend(ds - {d}, picks), set r | r in picks(d) :: d + [r];
    forall s ensures s in Extend(ds, picks) <==> s in rest || s in own {
      InExtend(ds, picks, s);
      InExtend(ds - {d}, picks, s);
      InOwn(d, picks(d), s);
    }
    forall s | s in own ensures s !in rest {
      InExtend(ds - {d}, picks, s);
      assert s[..|s| - 1] == d;
    }
    assert Extend(ds, picks) == rest + own && rest !! own;
  }

  /** What randrange(n) may return, whatever was drawn before. */
  function AnyBelow(n: nat): seq<int> -> set<int> { d => Range(0, n - 1) }

  /** Every draw sequence the random source can produce for n matching samples. */
  function Outcomes(n: nat, count: nat): set<seq<int>>
  {
    if n <= count then {[]} else Extend(Outcomes(n - 1, count), AnyBelow(n))
  }

  lemma {:induction false} OutcomesAreValid(n: nat, count: nat, draws: seq<int>)
    ensures draws in Outcomes(n, count) <==> ValidDraws(draws, n, count)
  {
    if n > count {
      if draws == [] {
        assert draws !in Extend(Outcomes(n - 1, count), AnyBelow(n));
      } else {
        var front := draws[..|draws| - 1];
        OutcomesAreValid(n - 1, count, front);
        InOutcomes(n, count, draws);
        ValidFromFront(n, count, draws);
      }
    }
  }

  lemma InOutcomes(n: nat, count: nat, draws: seq<int>)
    requires n > count && draws != []
    ensures draws in Outcomes(n, count) <==> draws[..|draws| - 1] in Outcomes(n - 1, count) && 0 <= draws[|draws| - 1] < n
  {
    InExtend(Outcomes(n - 1, count), AnyBelow(n), draws);
  }

  lemma ValidFromFront(n: nat, count: nat, draws: seq<int>)
    requires n > count && draws != []
    ensures ValidDraws(draws, n, count)
       <==> ValidDraws(draws[..|draws| - 1], n - 1, count) && 0 <= draws[|draws| - 1] < n
  {
    var front := draws[..|draws| - 1];
    if ValidDraws(front, n - 1, count) && 0 <= draws[|draws| - 1] < n {
      forall k | 0 <= k < |draws| ensures 0 <= draws[k] < count + k + 1 {
        if k < |front| { assert front[k] == draws[k]; }
      }
    }
  }

  predicate Selects(n: nat, count: nat, i: nat, d: seq<int>)
  {
    ValidDraws(d, n, count) && i in Reservoir(n, count, d)
  }

  /** The outcomes that leave position i in the reservoir. */
  function Selecting(n: nat, count: nat, i: nat): set<seq<int>>
  {
    set d | d in Outcomes(n, count) && Selects(n, count, i, d)
  }

  lemma InSelecting(n: nat, count: nat, i: nat, d: seq<int>)
    ensures d in Selecting(n, count, i) <==> Selects(n, count, i, d)
  {
    OutcomesAreValid(n, count, d);
  }

  /** Where position i stands, or the size when it does not. */
  function SlotOf(held: seq<nat>, i: nat): nat
  {
    if held == [] then 0
    else if held[0] == i then 0 else 1 + SlotOf(held[1..], i)
  }

  lemma {:induction false} SlotFinds(held: seq<nat>, i: nat)
    requires i in held
    ensures SlotOf(held, i) < |held| && held[SlotOf(held, i)] == i
  {
    if held[0] != i { SlotFinds(held[1..], i); }
  }

  /** The draws at step n that keep an older position: all but its own slot. */
  function Sparing(n: nat, count: nat, i: nat, d: seq<int>): set<int>
  {
    if n > count && ValidDraws(d, n - 1, count)
    then Range(0, n - 1) - {SlotOf(Reservoir(n - 1, count, d), i)}
    else {}
  }

  function Keeping(n: nat, count: nat, i: nat): seq<int> -> set<int> { d => Sparing(n, count, i, d) }

  lemma KeptIff(n: nat, count: nat, i: nat, d: seq<int>, r: int)
    requires n > count && i < n - 1 && ValidDraws(d, n - 1, count) && 0 <= r < n
    ensures ValidDraws(d + [r], n, count)
    ensures i in Reservoir(n, count, d + [r]) <==> i in Reservoir(n - 1, count, d) && r in Keeping(n, count, i)(d)
  {
    var held := Reservoir(n - 1, count, d);
    ReservoirDistinct(n - 1, count, d);
    assert (d + [r])[..|d|] == d;
    if r < count {
      ReplacedKeeps(held, i, r, n - 1);
    } else if i in held {
      SlotFinds(held, i);
    }
  }

  lemma ReplacedKeeps(held: seq<nat>, i: nat, r: nat, x: nat)
    requires Distinct(held) && r < |held| && i != x
    ensures i in held[r := x] <==> i in held && r != SlotOf(held, i)
  {
    var replaced := held[r := x];
    if i in held {
      SlotFinds(held, i);
      var slot := SlotOf(held, i);
      assert held[slot] == i;
      if r != slot { assert replaced[slot] == i; }
    }
    if i in replaced {
      var k :| 0 <= k < |replaced| && replaced[k] == i;
      assert held[k] == i;
    }
  }

  lemma SparedSize(n: nat, count: nat, i: nat, d: seq<int>)
    requires n > count && i < n - 1 && Selects(n - 1, count, i, d)
    ensures |Sparing(n, count, i, d)| == n - 1
  {
    var held := Reservoir(n - 1, count, d);
    var slot := SlotOf(held, i);
    SlotFinds(held, i);
    assert slot in Range(0, n - 1);
  }

  lemma SparedSizes(n: nat, count: nat, i: nat, older: set<seq<int>>)
    requires n > count && i < n - 1 && older <= Selecting(n - 1, count, i)
    ensures forall d | d in older :: |Keeping(n, count, i)(d)| == n - 1
  {
    forall d | d in older ensures |Keeping(n, count, i)(d)| == n - 1 {
      SparedSize(n, count, i, d);
    }
  }

  lemma SparedExtendSize(n: nat, count: nat, i: nat, older: set<seq<int>>)
    requires n > count && i < n - 1 && older <= Selecting(n - 1, count, i)
    ensures |Extend(older, Keeping(n, count, i))| == |older| * (n - 1)
  {
    SparedSizes(n, count, i, older);
    ExtendSize(older, Keeping(n, count, i), n - 1);
  }

  lemma SelectingOld(n: nat, count: nat, i: nat)
    requires n > count > 0 && i < n - 1
    ensures |Selecting(n, count, i)| == |Selecting(n - 1, count, i)| * (n - 1)
  {
    SelectingOldSet(n, count, i);
    SparedExtendSize(n, count, i, Selecting(n - 1, count, i));
  }

  lemma SelectingOldSet(n: nat, count: nat, i: nat)
    requires n > count > 0 && i < n - 1
    ensures Selecting(n, count, i) == Extend(Selecting(n - 1, count, i), Keeping(n, count, i))
  {
    var selecting, extended := Selecting(n, count, i), Extend(Selecting(n - 1, count, i), Keeping(n, count, i));
    forall s ensures s in selecting <==> s in extended {
      if s == [] {
        NoDrawsSelectNone(n, count, i);
      } else {
        assert s == s[..|s| - 1] + [s[|s| - 1]];
        OldMember(n, count, i, s[..|s| - 1], s[|s| - 1]);
      }
    }
  }

  lemma OldSelects(n: nat, count: nat, i: nat, d: seq<int>, r: int)
    requires n > count > 0 && i < n - 1
    ensures Selects(n, count, i, d + [r]) <==> Selects(n - 1, count, i, d) && r in Keeping(n, count, i)(d)
  {
    ValidFromFront(n, count, d + [r]);
    assert (d + [r])[..|d|] == d;
    if ValidDraws(d, n - 1, count) && 0 <= r < n { KeptIff(n, count, i, d, r); }
  }

  lemma NoDrawsSelectNone(n: nat, count: nat, i: nat)
    requires n > count
    ensures [] !in Selecting(n, count, i) && [] !in Extend(Selecting(n - 1, count, i), Keeping(n, count, i))
  {
    InSelecting(n, count, i, []);
    InExtend(Selecting(n - 1, count, i), Keeping(n, count, i), []);
  }

  lemma OldMember(n: nat, count: nat, i: nat, d: seq<int>, r: int)
    requires n > count > 0 && i < n - 1
    ensures d + [r] in Selecting(n, count, i) <==> d + [r] in Extend(Selecting(n - 1, count, i), Keeping(n, count, i))
  {
    InSelecting(n, count, i, d + [r]);
    InSelecting(n - 1, count, i, d);
    InExtend(Selecting(n - 1, count, i), Keeping(n, count, i), d + [r]);
    assert (d + [r])[..|d|] == d;
    OldSelects(n, count, i, d, r);
  }

  lemma NewIff(n: nat, count: nat, d: seq<int>, r: int)
    requires n > count > 0 && ValidDraws(d, n - 1, count) && 0 <= r < n
    ensures ValidDraws(d + [r], n, count)
    ensures n - 1 in Reservoir(n, count, d + [r]) <==> r < count
  {
    var held := Reservoir(n - 1, count, d);
    ReservoirDistinct(n - 1, count, d);
    assert (d + [r])[..|d|] == d;
    if r < count {
      assert held[r := n - 1][r] == n - 1;
    }
  }

  lemma NewSelects(n: nat, count: nat, d: seq<int>, r: int)
    requires n > count > 0
    ensures Selects(n, count, n - 1, d + [r]) <==> ValidDraws(d, n - 1, count) && 0 <= r < count
  {
    ValidFromFront(n, count, d + [r]);
    assert (d + [r])[..|d|] == d;
    if ValidDraws(d, n - 1, count) && 0 <= r < n { NewIff(n, count, d, r); }
  }

  lemma NewMember(n: nat, count: nat, s: seq<int>)
    requires n > count > 0
    ensures s in Selecting(n, count, n - 1) <==> s in Extend(Outcomes(n - 1, count), AnyBelow(count))
  {
    InSelecting(n, count, n - 1, s);
    InExtend(Outcomes(n - 1, count), AnyBelow(count), s);
    if s != [] {
      var d, r := s[..|s| - 1], s[|s| - 1];
      assert s == d + [r];
      OutcomesAreValid(n - 1, count, d);
      NewSelects(n, count, d, r);
    }
  }

  lemma SelectingNew(n: nat, count: nat)
    requires n > count > 0
    ensures |Selecting(n, count, n - 1)| == |Outcomes(n - 1, count)| * count
  {
    var selecting, extended := Selecting(n, count, n - 1), Extend(Outcomes(n - 1, count), AnyBelow(count));
    forall s ensures s in selecting <==> s in extended {
      NewMember(n, count, s);
    }
    assert selecting == extended;
    ExtendSize(Outcomes(n - 1, count), AnyBelow(count), count);
  }

  lemma OutcomesGrow(n: nat, count: nat)
    requires n > count
    ensures |Outcomes(n, count)| == |Outcomes(n - 1, count)| * n
  {
    ExtendSize(Outcomes(n - 1, count), AnyBelow(n), n);
  }

  lemma ShareOfNew(n: nat, count: nat)
    requires n > count > 0
    ensures |Selecting(n, count, n - 1)| * n == count * |Outcomes(n, count)|
  {
    SelectingNew(n, count);
    OutcomesGrow(n, count);
    Regroup(|Outcomes(n - 1, count)|, count, n);
  }

  lemma ShareOfOld(n: nat, count: nat, i: nat)
    requires n > count > 0 && i < n - 1
    requires |Selecting(n - 1, count, i)| * (n - 1) == count * |Outcomes(n - 1, count)|
    ensures |Selecting(n, count, i)| * n == count * |Outcomes(n, count)|
  {
    SelectingOld(n, count, i);
    OutcomesGrow(n, count);
    Regroup(|Outcomes(n - 1, count)|, count, n);
  }

  lemma Regroup(before: nat, count: nat, n: nat)
    ensures before * count * n == count * (before * n) == count * before * n
  {
  }

  /** Fairness by counting: of all outcome sequences, exactly the share count / n selects
      any given one of the n matching samples. */
  lemma {:induction false} EverySampleHasTheSameShare(n: nat, count: nat, i: nat)
    requires 0 < count <= n && i < n
    ensures |Selecting(n, count, i)| * n == count * |Outcomes(n, count)|
  {
    if n == count {
      FirstAreAllHeld(n, count, i);
      assert Selecting(n, count, i) == {[]};
    } else if i == n - 1 {
      ShareOfNew(n, count);
    } else {
      EverySampleHasTheSameShare(n - 1, count, i);
      ShareOfOld(n, count, i);
    }
  }

  lemma {:induction false} FirstAreAllHeld(n: nat, count: nat, i: nat)
    requires i < n <= count
    ensures i in Reservoir(n, count, [])
  {
    if i < n - 1 {
      FirstAreAllHeld(n - 1, count, i);
    }
  }
}
