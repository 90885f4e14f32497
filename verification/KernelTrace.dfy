/** Kernel traces: overlapping intervals are measured once. */
module KernelTrace {
  import opened Basics
  import opened Sorting

  datatype Interval = Interval(left: int, right: int)

  /** Tuple order. */
  predicate Before(a: Interval, b: Interval)
  {
    a.left < b.left || (a.left == b.left && a.right <= b.right)
  }

  ghost predicate Forward(s: seq<Interval>)
  {
    forall i | 0 <= i < |s| :: s[i].left <= s[i].right
  }

  /** The unit cells of one half-open interval, and of a whole list. */
  function Cells(i: Interval): set<int> { Range(i.left, i.right - 1) }

  function Covered(s: seq<Interval>): set<int>
  {
    set i, p | 0 <= i < |s| && p in Cells(s[i]) :: p
  }

  lemma CoveredMore(s: seq<Interval>, n: nat)
    requires n < |s|
    ensures Covered(s[..n + 1]) == Covered(s[..n]) + Cells(s[n])
  {
    var a, b := s[..n], s[..n + 1];
    forall p ensures p in Covered(b) <==> p in Covered(a) + Cells(s[n]) {
      if p in Covered(b) {
        var i :| 0 <= i < |b| && p in Cells(b[i]);
        if i < n { assert a[i] == b[i]; }
      }
      if p in Covered(a) {
        var i :| 0 <= i < |a| && p in Cells(a[i]);
        assert b[i] == a[i];
      }
      if p in Cells(s[n]) { assert b[n] == s[n]; }
    }
  }

  lemma SameCells(s: seq<Interval>, t: seq<Interval>)
    requires multiset(s) == multiset(t)
    ensures Covered(s) == Covered(t)
    ensures Forward(s) ==> Forward(t)
  {
    SomeCell(s, t);
    SomeCell(t, s);
    if Forward(s) {
      forall i | 0 <= i < |t| ensures t[i].left <= t[i].right {
        assert t[i] in multiset(t) && t[i] in s;
      }
    }
  }

  lemma SomeCell(s: seq<Interval>, t: seq<Interval>)
    requires multiset(s) == multiset(t)
    ensures Covered(s) <= Covered(t)
  {
    forall p | p in Covered(s) ensures p in Covered(t) {
      var i :| 0 <= i < |s| && p in Cells(s[i]);
      assert s[i] in multiset(t);
      assert s[i] in t;
    }
  }

  /** The covered cells are the closed ones and the open stretch [start, end). */
  ghost predicate Consists(covered: set<int>, closed: set<int>, start: int, end: int)
  {
    forall p :: p in covered <==> p in closed || start <= p < end
  }

  /** After n > 0 intervals: `closed` is done and lies left of the open stretch. */
  ghost predicate Swept(s: seq<Interval>, n: nat, total: int, start: int, end: int, closed: set<int>)
  {
    && 0 < n <= |s|
    && start <= end && start <= s[n - 1].left
    && total == |closed|
    && (forall p | p in closed :: p < start)
    && Consists(Covered(s[..n]), closed, start, end)
  }

  lemma CellIn(s: seq<Interval>, n: nat, p: int)
    requires n < |s|
    ensures p in Covered(s[..n + 1]) <==> p in Covered(s[..n]) || s[n].left <= p < s[n].right
  {
    CoveredMore(s, n);
  }

  lemma SweepFirst(s: seq<Interval>)
    requires s != [] && s[0].left <= s[0].right
    ensures Swept(s, 1, 0, s[0].left, s[0].right, {})
  {
    forall p ensures p in Covered(s[..1]) <==> s[0].left <= p < s[0].right {
      CellIn(s, 0, p);
      assert Covered(s[..0]) == {};
    }
  }

  lemma SweepExtend(s: seq<Interval>, n: nat, total: int, start: int, end: int, closed: set<int>)
    requires n < |s| && Swept(s, n, total, start, end, closed)
    requires s[n - 1].left <= s[n].left <= s[n].right && s[n].left <= end
    ensures Swept(s, n + 1, total, start, if s[n].right > end then s[n].right else end, closed)
  {
    var covered, covered' := Covered(s[..n]), Covered(s[..n + 1]);
    forall p ensures p in covered' <==> p in covered || s[n].left <= p < s[n].right { CellIn(s, n, p); }
  }

  lemma SweepJump(s: seq<Interval>, n: nat, total: int, start: int, end: int, closed: set<int>)
    requires n < |s| && Swept(s, n, total, start, end, closed)
    requires end < s[n].left <= s[n].right
    ensures Swept(s, n + 1, total + (end - start), s[n].left, s[n].right, closed + Range(start, end - 1))
  {
    var covered, covered' := Covered(s[..n]), Covered(s[..n + 1]);
    forall p ensures p in covered' <==> p in covered || s[n].left <= p < s[n].right { CellIn(s, n, p); }
    LeftOf(closed, start, end, s[n].left);
  }

  /** Cells left of a stretch, and the stretch, are apart and all left of what follows. */
  lemma LeftOf(closed: set<int>, start: int, end: int, next: int)
    requires start <= end < next && forall p | p in closed :: p < start
    ensures |closed + Range(start, end - 1)| == |closed| + (end - start)
    ensures var all := closed + Range(start, end - 1);
            forall p | p in all :: p < next
  {
    assert closed !! Range(start, end - 1);
  }

  lemma SweepEnd(s: seq<Interval>, total: int, start: int, end: int, closed: set<int>)
    requires Swept(s, |s|, total, start, end, closed)
    ensures |Covered(s)| == total + (end - start)
  {
    assert s[..|s|] == s;
    LeftOf(closed, start, end, end + 1);
    assert Covered(s) == closed + Range(start, end - 1);
  }

  /** The sweep over the sorted list yields the measure of the union. */
  method IntervalUnion(intervals: seq<Interval>) returns (busy: int)
    requires Forward(intervals)
    ensures busy == |Covered(intervals)|
  {
    var s := Sort(intervals, Before);
    SameCells(intervals, s);
    if s == [] {
      assert Covered(s) == {};
      return 0;
    }
    SweepFirst(s);
    var total, start, end := 0, s[0].left, s[0].right;
    ghost var closed: set<int> := {};
    for n := 1 to |s|
      invariant Swept(s, n, total, start, end, closed)
    {
      var left, right := s[n].left, s[n].right;
      assert Before(s[n - 1], s[n]);
      if left <= end {
        SweepExtend(s, n, total, start, end, closed);
        if right > end { end := right; }
      } else {
        SweepJump(s, n, total, start, end, closed);
        closed := closed + Range(start, end - 1);
        total := total + (end - start);
        start, end := left, right;
      }
    }
    SweepEnd(s, total, start, end, closed);
    return total + (end - start);
  }

  // -------------------------------------------------------------------- bounds and sums

  function SummedDurations(s: seq<Interval>): int
  {
    if s == [] then 0 else SummedDurations(s[..|s| - 1]) + (s[|s| - 1].right - s[|s| - 1].left)
  }

  function First(s: seq<Interval>): (m: int)
    requires s != []
    ensures forall i | 0 <= i < |s| :: m <= s[i].left
    ensures exists i | 0 <= i < |s| :: s[i].left == m
  {
    if |s| == 1 then s[0].left
    else var m := First(s[..|s| - 1]); if s[|s| - 1].left < m then s[|s| - 1].left else m
  }

  function Last(s: seq<Interval>): (m: int)
    requires s != []
    ensures forall i | 0 <= i < |s| :: s[i].right <= m
    ensures exists i | 0 <= i < |s| :: s[i].right == m
  {
    if |s| == 1 then s[0].right
    else var m := Last(s[..|s| - 1]); if s[|s| - 1].right > m then s[|s| - 1].right else m
  }

  lemma UnionSize(a: set<int>, b: set<int>)
    ensures |a + b| <= |a| + |b|
  {
    assert a + b == a + (b - a);
    SubsetSize(b - a, b);
  }

  lemma {:induction false} BusyWithinSum(s: seq<Interval>)
    requires Forward(s)
    ensures |Covered(s)| <= SummedDurations(s)
  {
    if s == [] {
      assert Covered(s) == {};
    } else {
      var n := |s| - 1;
      BusyWithinSum(s[..n]);
      CoveredMore(s, n);
      assert s[..n + 1] == s;
      UnionSize(Covered(s[..n]), Cells(s[n]));
    }
  }

  lemma BusyWithinSpan(s: seq<Interval>)
    requires Forward(s) && s != []
    ensures |Covered(s)| <= Last(s) - First(s)
  {
    var i :| 0 <= i < |s| && s[i].left == First(s);
    assert First(s) <= Last(s);
    SubsetSize(Covered(s), Range(First(s), Last(s) - 1));
  }

  // ------------------------------------------------------------------------- the summary

  datatype Event = Kernel(name: string, start: int, duration: int, device: int) | Other
  datatype Group = Group(calls: nat, summed: int)
  datatype Summary = Summary(device: int, kernelEvents: nat, summed: int, union: int, span: int, groups: map<string, Group>)

  predicate ValidKernel(e: Event)
  {
    e.Other? || (e.name != "" && e.start >= 0 && e.duration >= 0 && e.device >= 0)
  }

  function Intervals(es: seq<Event>): seq<Interval>
  {
    if es == [] then []
    else Intervals(es[..|es| - 1]) +
         match es[|es| - 1] case Other => [] case Kernel(_, start, duration, _) => [Interval(start, start + duration)]
  }

  function Calls(es: seq<Event>, name: string): nat
  {
    if es == [] then 0
    else Calls(es[..|es| - 1], name) + if es[|es| - 1].Kernel? && es[|es| - 1].name == name then 1 else 0
  }

  function TimeIn(es: seq<Event>, name: string): int
  {
    if es == [] then 0
    else TimeIn(es[..|es| - 1], name) + if es[|es| - 1].Kernel? && es[|es| - 1].name == name then es[|es| - 1].duration else 0
  }

  /** The sum of the groups' times, in any order of the names. */
  ghost function TotalTime(names: set<string>, es: seq<Event>): int
  {
    if names == {} then 0 else var n :| n in names; TimeIn(es, n) + TotalTime(names - {n}, es)
  }

  lemma {:induction false} TotalTimePick(names: set<string>, es: seq<Event>, n: string)
    requires n in names
    ensures TotalTime(names, es) == TimeIn(es, n) + TotalTime(names - {n}, es)
  {
    var m :| m in names && TotalTime(names, es) == TimeIn(es, m) + TotalTime(names - {m}, es);
    if m != n {
      TotalTimePick(names - {m}, es, n);
      TotalTimePick(names - {n}, es, m);
      assert names - {m} - {n} == names - {n} - {m};
    }
  }

  lemma {:induction false} TotalTimeStep(names: set<string>, es: seq<Event>)
    requires es != []
    ensures var last := es[|es| - 1];
            TotalTime(names, es) == TotalTime(names, es[..|es| - 1]) + if last.Kernel? && last.name in names then last.duration else 0
  {
    if names != {} {
      var n :| n in names;
      TotalTimePick(names, es, n);
      TotalTimePick(names, es[..|es| - 1], n);
      TotalTimeStep(names - {n}, es);
    }
  }

  lemma {:induction false} TotalTimeEmpty(names: set<string>)
    ensures TotalTime(names, []) == 0
  {
    if names != {} {
      var n :| n in names;
      TotalTimePick(names, [], n);
      TotalTimeEmpty(names - {n});
    }
  }

  function Names(es: seq<Event>): set<string> { set i | 0 <= i < |es| && es[i].Kernel? :: es[i].name }

  lemma NamesStep(es: seq<Event>, i: nat)
    requires i < |es|
    ensures Names(es[..i + 1]) == Names(es[..i]) + if es[i].Kernel? then {es[i].name} else {}
  {
    var a, b := es[..i], es[..i + 1];
    assert b == a + [es[i]];
    forall n | n in Names(a) ensures n in Names(b) {
      var j :| 0 <= j < |a| && a[j].Kernel? && a[j].name == n;
      assert b[j] == a[j];
    }
    if es[i].Kernel? { assert b[i].name == es[i].name; }
  }

  /** The per-name times add up to the summed durations: no event is lost or counted twice. */
  lemma {:induction false} GroupsAddUp(es: seq<Event>, names: set<string>)
    requires Names(es) <= names
    ensures TotalTime(names, es) == SummedDurations(Intervals(es))
  {
    if es == [] {
      TotalTimeEmpty(names);
    } else {
      var n := |es| - 1;
      NamesStep(es, n);
      assert es[..n + 1] == es;
      GroupsAddUp(es[..n], names);
      TotalTimeStep(names, es);
      if es[n].Kernel? {
        assert Intervals(es)[..|Intervals(es)| - 1] == Intervals(es[..n]);
      } else {
        assert Intervals(es) == Intervals(es[..n]);
      }
    }
  }

  lemma {:induction false} IntervalsForward(es: seq<Event>)
    requires forall i | 0 <= i < |es| :: ValidKernel(es[i])
    ensures Forward(Intervals(es))
  {
    if es != [] {
      IntervalsForward(es[..|es| - 1]);
    }
  }

  /** What the dictionary of groups holds after some events. */
  ghost predicate Grouped(es: seq<Event>, groups: map<string, Group>)
  {
    && groups.Keys == Names(es)
    && (forall n | n in groups :: groups[n] == Group(Calls(es, n), TimeIn(es, n)))
    && (forall n | n !in groups :: Calls(es, n) == 0 && TimeIn(es, n) == 0)
  }

  function AddToGroup(groups: map<string, Group>, e: Event): map<string, Group>
    requires e.Kernel?
  {
    var group := if e.name in groups then groups[e.name] else Group(0, 0);
    groups[e.name := Group(group.calls + 1, group.summed + e.duration)]
  }

  lemma GroupStep(es: seq<Event>, i: nat, groups: map<string, Group>)
    requires i < |es| && Grouped(es[..i], groups)
    ensures Grouped(es[..i + 1], if es[i].Kernel? then AddToGroup(groups, es[i]) else groups)
  {
    NamesStep(es, i);
    forall name { CountsStep(es, i, name); }
  }

  lemma CountsStep(es: seq<Event>, i: nat, name: string)
    requires i < |es|
    ensures Calls(es[..i + 1], name) == Calls(es[..i], name) + if es[i].Kernel? && es[i].name == name then 1 else 0
    ensures TimeIn(es[..i + 1], name) == TimeIn(es[..i], name) + if es[i].Kernel? && es[i].name == name then es[i].duration else 0
  {
    assert es[..i + 1][..i] == es[..i];
  }

  function NamedKernels(es: seq<Event>, name: string): set<int> { set i | 0 <= i < |es| && es[i].Kernel? && es[i].name == name }

  lemma NamedStep(es: seq<Event>, name: string)
    requires es != []
    ensures var n := |es| - 1;
            n !in NamedKernels(es[..n], name)
            && NamedKernels(es, name) == NamedKernels(es[..n], name) + if es[n].Kernel? && es[n].name == name then {n} else {}
  {
    assert forall i | 0 <= i < |es| - 1 :: es[..|es| - 1][i] == es[i];
  }

  /** A group's calls are the kernel events of its name. */
  lemma {:induction false} CallsAreEvents(es: seq<Event>, name: string)
    ensures Calls(es, name) == |NamedKernels(es, name)|
  {
    if es != [] {
      CallsAreEvents(es[..|es| - 1], name);
      NamedStep(es, name);
    }
  }

  lemma IntervalStep(es: seq<Event>, i: nat)
    requires i < |es|
    ensures Intervals(es[..i + 1]) == Intervals(es[..i]) + if es[i].Kernel? then [Interval(es[i].start, es[i].start + es[i].duration)] else []
  {
    assert es[..i + 1][..i] == es[..i];
  }

  lemma OneMember(s: set<int>, x: int)
    requires |s| == 1 && x in s
    ensures s == {x}
  {
    assert |s - {x}| == 0;
  }

  ghost predicate AllValid(es: seq<Event>) { forall j | 0 <= j < |es| :: ValidKernel(es[j]) }

  function Devices(es: seq<Event>): set<int>
  {
    if es == [] then {} else Devices(es[..|es| - 1]) + if es[|es| - 1].Kernel? then {es[|es| - 1].device} else {}
  }

  lemma {:induction false} DevicesAre(es: seq<Event>, d: int)
    ensures d in Devices(es) <==> exists i | 0 <= i < |es| :: es[i].Kernel? && es[i].device == d
  {
    if es != [] {
      DevicesAre(es[..|es| - 1], d);
      assert forall i | 0 <= i < |es| - 1 :: es[..|es| - 1][i] == es[i];
    }
  }

  ghost predicate OneDevice(es: seq<Event>)
  {
    forall i, j | 0 <= i < j < |es| && es[i].Kernel? && es[j].Kernel? :: es[i].device == es[j].device
  }

  lemma DeviceIn(es: seq<Event>, i: nat)
    requires i < |es| && es[i].Kernel?
    ensures es[i].device in Devices(es)
  {
    DevicesAre(es, es[i].device);
  }

  lemma OneDeviceMeansOne(es: seq<Event>, device: int)
    requires device in Devices(es) && OneDevice(es)
    ensures Devices(es) == {device}
  {
    DevicesAre(es, device);
    var k :| 0 <= k < |es| && es[k].Kernel? && es[k].device == device;
    forall d | d in Devices(es) ensures d == device {
      DevicesAre(es, d);
      var i :| 0 <= i < |es| && es[i].Kernel? && es[i].device == d;
    }
  }

  lemma OneDeviceIff(es: seq<Event>, device: int)
    requires device in Devices(es)
    ensures |Devices(es)| == 1 <==> OneDevice(es)
    ensures |Devices(es)| == 1 ==> forall i | 0 <= i < |es| && es[i].Kernel? :: es[i].device == device
  {
    if |Devices(es)| == 1 {
      OneMember(Devices(es), device);
      forall i | 0 <= i < |es| && es[i].Kernel? ensures es[i].device == device { DeviceIn(es, i); }
    } else if OneDevice(es) {
      OneDeviceMeansOne(es, device);
    }
  }

  /** The intervals are those of the kernels, so some kernel there is a device. */
  lemma {:induction false} SomeDevice(es: seq<Event>)
    ensures Intervals(es) != [] <==> Devices(es) != {}
  {
    if es != [] { SomeDevice(es[..|es| - 1]); }
  }

  /** The traces that have a summary: valid kernels on one device with time in them. */
  ghost predicate Summarizable(es: seq<Event>)
  {
    && AllValid(es) && Intervals(es) != [] && OneDevice(es)
    && SummedDurations(Intervals(es)) > 0 && Last(Intervals(es)) - First(Intervals(es)) > 0
  }

  predicate WellFormed(e: Event) { e.Kernel? ==> e.name != "" && e.start >= 0 && e.duration >= 0 && e.device >= 0 }

  predicate Lasts(e: Event) { e.Kernel? && e.duration > 0 }

  /** They have kernels, all named and not negative, on one device, and one of them lasts. */
  lemma SummarizableIff(es: seq<Event>)
    ensures Summarizable(es)
       <==> && (forall i | 0 <= i < |es| :: WellFormed(es[i]))
            && (forall i, j | 0 <= i < j < |es| && es[i].Kernel? && es[j].Kernel? :: es[i].device == es[j].device)
            && (exists i | 0 <= i < |es| :: Lasts(es[i]))
  {
    forall i | 0 <= i < |es| ensures WellFormed(es[i]) <==> ValidKernel(es[i]) { }
    if AllValid(es) {
      LastingIff(es);
      IntervalsForward(es);
      if Intervals(es) != [] && SummedDurations(Intervals(es)) > 0 { LastingSpans(Intervals(es)); }
    }
  }

  lemma {:induction false} LastingIff(es: seq<Event>)
    requires forall i | 0 <= i < |es| :: WellFormed(es[i])
    ensures SummedDurations(Intervals(es)) >= 0
    ensures SummedDurations(Intervals(es)) > 0 <==> exists i | 0 <= i < |es| :: Lasts(es[i])
  {
    if es != [] {
      var n := |es| - 1;
      LastingIff(es[..n]);
      assert es[..n + 1] == es;
      IntervalStep(es, n);
      assert WellFormed(es[n]) && forall i | 0 <= i < n :: es[..n][i] == es[i];
      assert (exists i | 0 <= i < |es| :: Lasts(es[i])) <==> (exists i | 0 <= i < n :: Lasts(es[..n][i])) || Lasts(es[n]);
      if es[n].Kernel? {
        var s := Intervals(es);
        assert s[..|s| - 1] == Intervals(es[..n]);
        assert SummedDurations(s) == SummedDurations(Intervals(es[..n])) + es[n].duration;
      } else {
        assert Intervals(es) == Intervals(es[..n]);
      }
    } else {
      assert Intervals(es) == [];
    }
  }

  /** Where durations add up to something, the span is something too. */
  lemma {:induction false} LastingSpans(s: seq<Interval>)
    requires Forward(s) && SummedDurations(s) > 0
    ensures s != [] && Last(s) - First(s) > 0
  {
    var n := |s| - 1;
    if s[n].left == s[n].right { LastingSpans(s[..n]); }
  }

  method SummarizeEvents(es: seq<Event>) returns (r: Option<Summary>)
    ensures r.Some? <==> Summarizable(es)
    ensures r.Some? ==> forall i | 0 <= i < |es| && es[i].Kernel? :: es[i].device == r.value.device
    ensures r.Some? ==>
              && r.value.union == |Covered(Intervals(es))|
              && r.value.summed == SummedDurations(Intervals(es))
              && r.value.span == Last(Intervals(es)) - First(Intervals(es))
              && r.value.union <= r.value.span && r.value.union <= r.value.summed
              && r.value.kernelEvents == |Intervals(es)|
              && Grouped(es, r.value.groups)
  {
    var groups: map<string, Group>, devices: set<int>, device, intervals := map[], {}, -1, [];
    for i := 0 to |es|
      invariant AllValid(es[..i])
      invariant devices == Devices(es[..i])
      invariant intervals == Intervals(es[..i])
      invariant intervals != [] ==> device in devices
      invariant Grouped(es[..i], groups)
    {
      GroupStep(es, i, groups);
      IntervalStep(es, i);
      assert es[..i + 1][..i] == es[..i];
      if es[i].Kernel? {
        if !ValidKernel(es[i]) { return None; }
        device := es[i].device;
        devices := devices + {device};
        intervals := intervals + [Interval(es[i].start, es[i].start + es[i].duration)];
        groups := AddToGroup(groups, es[i]);
      }
    }
    assert es[..|es|] == es;
    SomeDevice(es);
    if intervals != [] { OneDeviceIff(es, device); }
    if intervals == [] || |devices| != 1 { return None; }
    IntervalsForward(es);
    var figures := MeasureIntervals(intervals);
    if figures.None? { return None; }
    var (summed, span, union) := figures.value;
    return Some(Summary(device, |intervals|, summed, union, span, groups));
  }

  /** Summed durations, first-to-last span and union, unless the timing is empty. */
  method MeasureIntervals(intervals: seq<Interval>) returns (r: Option<(int, int, int)>)
    requires Forward(intervals) && intervals != []
    ensures r.None? <==> SummedDurations(intervals) <= 0 || Last(intervals) - First(intervals) <= 0
    ensures r.Some? ==> r.value == (SummedDurations(intervals), Last(intervals) - First(intervals), |Covered(intervals)|)
    ensures r.Some? ==> r.value.2 <= r.value.0 && r.value.2 <= r.value.1
  {
    BusyWithinSum(intervals);
    BusyWithinSpan(intervals);
    var summed, span := SummedDurations(intervals), Last(intervals) - First(intervals);
    if summed <= 0 || span <= 0 { return None; }
    var union := IntervalUnion(intervals);
    return Some((summed, span, union));
  }
}
