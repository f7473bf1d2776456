/** The median of the times of the last blocks. A chain is the list of its blocks' times from the first block on;
    a node of the block tree stands for the chain that ends with it. */
module MedianTime {
  import opened ChainDb

  const MEDIAN_TIME_SPAN: nat := 11

  function Insert(x: int, s: seq<int>): (r: seq<int>)
    requires Sorted(s)
    ensures Sorted(r) && multiset(r) == multiset(s) + multiset{x}
  {
    if s == [] then [x]
    else if x <= s[0] then
      assert [x] + s == [x] + s;
      [x] + s
    else
      assert s == [s[0]] + s[1..];
      var r := Insert(x, s[1..]);
      assert forall i :: 0 <= i < |r| ==> s[0] <= r[i] by { LowestFirst(x, s, r); }
      [s[0]] + r
  }

  lemma LowestFirst(x: int, s: seq<int>, r: seq<int>)
    requires Sorted(s) && s != [] && s[0] < x && multiset(r) == multiset(s[1..]) + multiset{x}
    ensures forall i :: 0 <= i < |r| ==> s[0] <= r[i]
  {
    forall i | 0 <= i < |r| ensures s[0] <= r[i] {
      assert r[i] in multiset(r);
      if r[i] != x {
        assert r[i] in s[1..];
      }
    }
  }

  predicate Sorted(s: seq<int>) { forall i, j :: 0 <= i < j < |s| ==> s[i] <= s[j] }

  /** The library's sort. */
  function Sort(s: seq<int>): (r: seq<int>)
    ensures Sorted(r) && multiset(r) == multiset(s) && |r| == |s|
  {
    if s == [] then []
    else
      var n := |s| - 1;
      assert s == s[..n] + [s[n]];
      var r := Insert(s[n], Sort(s[..n]));
      assert |multiset(r)| == |multiset(s)|;
      r
  }

  /** The times the median is taken of. */
  function Window(chain: seq<int>): (w: seq<int>)
    ensures |w| == if |chain| < MEDIAN_TIME_SPAN then |chain| else MEDIAN_TIME_SPAN
  {
    if |chain| < MEDIAN_TIME_SPAN then chain else chain[|chain| - MEDIAN_TIME_SPAN..]
  }

  /** The middle one of the sorted times, the upper one of two. */
  function Median(chain: seq<int>): int
    requires chain != []
  {
    Sort(Window(chain))[|Window(chain)| / 2]
  }

  ghost function Times(line: seq<BlockIndex>): (times: seq<int>)
    ensures |times| == |line| && forall i :: 0 <= i < |line| ==> times[i] == line[i].rec.nTime
  {
    seq(|line|, i requires 0 <= i < |line| => line[i].rec.nTime)
  }

  lemma TimesPrefix(line: seq<BlockIndex>, i: nat)
    requires i <= |line|
    ensures Times(line[..i]) == Times(line)[..i]
  {
  }

  /** Taking off the last time of a line leads to the parent. */
  lemma OneBack(pindex: BlockIndex, times: seq<int>, n: nat)
    requires pindex.Linked() && 0 < n <= |times| && Times(pindex.Line()) == times[..n]
    ensures times[n - 1] == pindex.rec.nTime && (pindex.pprev == null <==> n == 1)
    ensures pindex.pprev != null ==> pindex.pprev.Linked() && Times(pindex.pprev.Line()) == times[..n - 1]
    ensures times[n - 1..] == [pindex.rec.nTime] + times[n..]
  {
    assert times[n - 1] == times[..n][n - 1];
    if pindex.pprev != null {
      assert pindex.Line() == pindex.pprev.Line() + [pindex];
      assert pindex.pprev.Line() == pindex.Line()[..n - 1];
      TimesPrefix(pindex.Line(), n - 1);
      assert times[..n][..n - 1] == times[..n - 1];
    }
  }

  /** Walks back from a block, filling a buffer from its end. */
  method GetMedianTimePast(pindexLast: BlockIndex) returns (median: int)
    requires pindexLast.Linked()
    ensures median == Median(Times(pindexLast.Line()))
  {
    hide Sort, Times, Window;
    ghost var times := Times(pindexLast.Line());
    var pmedian := new int[MEDIAN_TIME_SPAN];
    var pbegin := MEDIAN_TIME_SPAN;
    var pindex: BlockIndex? := pindexLast;
    var i := 0;
    assert times[..|times|] == times;
    while i < MEDIAN_TIME_SPAN && pindex != null
      invariant 0 <= i <= MEDIAN_TIME_SPAN && i <= |times| && pbegin == MEDIAN_TIME_SPAN - i
      invariant pindex == null <==> i == |times|
      invariant pindex != null ==> pindex.Linked() && Times(pindex.Line()) == times[..|times| - i]
      invariant pmedian[..][pbegin..] == times[|times| - i..]
    {
      ghost var buffer := pmedian[..];
      OneBack(pindex, times, |times| - i);
      Prepended(buffer, pbegin, pindex.rec.nTime);
      pbegin := pbegin - 1;
      pmedian[pbegin] := pindex.rec.nTime;
      assert pmedian[..] == buffer[pbegin := pindex.rec.nTime];
      i := i + 1;
      pindex := pindex.pprev;
    }
    WindowIs(times, i);
    assert pmedian[pbegin..] == pmedian[..][pbegin..];
    var sorted := Sort(pmedian[pbegin..]);
    median := sorted[(MEDIAN_TIME_SPAN - pbegin) / 2];
  }

  lemma Prepended(buffer: seq<int>, p: nat, x: int)
    requires 0 < p <= |buffer|
    ensures buffer[p - 1 := x][p - 1..] == [x] + buffer[p..]
  {
  }

  lemma WindowIs(times: seq<int>, i: nat)
    requires i == if |times| < MEDIAN_TIME_SPAN then |times| else MEDIAN_TIME_SPAN
    ensures times[|times| - i..] == Window(times)
  {
  }

  /* ---- counting ---- */

  /** How many of the values are below m. */
  function Below(s: seq<int>, m: int): nat {
    if s == [] then 0 else Below(s[..|s| - 1], m) + if s[|s| - 1] < m then 1 else 0
  }

  lemma {:induction false} BelowJoin(s: seq<int>, t: seq<int>, m: int)
    ensures Below(s + t, m) == Below(s, m) + Below(t, m)
    decreases |t|
  {
    if t == [] {
      assert s + t == s;
    } else {
      assert (s + t)[..|s + t| - 1] == s + t[..|t| - 1];
      BelowJoin(s, t[..|t| - 1], m);
    }
  }

  /** Counting does not depend on the order. */
  lemma {:induction false} BelowOrder(s: seq<int>, t: seq<int>, m: int)
    requires multiset(s) == multiset(t)
    ensures Below(s, m) == Below(t, m)
    decreases |s|
  {
    assert |s| == |multiset(s)| == |multiset(t)| == |t|;
    if s != [] {
      var x := s[|s| - 1];
      assert x in multiset(t);
      var i :| 0 <= i < |t| && t[i] == x;
      assert s == s[..|s| - 1] + [x];
      Without(t, i, m);
      BelowOrder(s[..|s| - 1], t[..i] + t[i + 1..], m);
    }
  }

  lemma Without(t: seq<int>, i: nat, m: int)
    requires i < |t|
    ensures multiset(t[..i] + t[i + 1..]) == multiset(t) - multiset{t[i]}
    ensures Below(t, m) == Below(t[..i] + t[i + 1..], m) + if t[i] < m then 1 else 0
  {
    var a, x, b := t[..i], [t[i]], t[i + 1..];
    assert t == a + x + b;
    BelowJoin(a, b, m);
    BelowJoin(a + x, b, m);
    BelowJoin(a, x, m);
    assert x[..0] == [];
  }

  /** In a sorted list, at most k values are below m exactly if the one at place k is not. */
  lemma {:induction false} BelowSorted(s: seq<int>, m: int, k: nat)
    requires Sorted(s) && k < |s|
    ensures Below(s, m) <= k <==> s[k] >= m
    decreases |s|
  {
    var n := |s| - 1;
    BelowAtMost(s[..n], m);
    if s[n] < m {
      AllBelow(s[..n], m);
    } else if k < n {
      BelowSorted(s[..n], m, k);
    }
  }

  lemma {:induction false} BelowAtMost(s: seq<int>, m: int)
    ensures Below(s, m) <= |s|
  {
    if s != [] { BelowAtMost(s[..|s| - 1], m); }
  }

  lemma {:induction false} AllBelow(s: seq<int>, m: int)
    requires forall i :: 0 <= i < |s| ==> s[i] < m
    ensures Below(s, m) == |s|
  {
    if s != [] { AllBelow(s[..|s| - 1], m); }
  }

  /* ---- the middle ---- */

  /** At most half of the window lies below the median, and less than half above it. */
  lemma MedianIsMiddle(chain: seq<int>)
    requires chain != []
    ensures var w, m := Window(chain), Median(chain);
      2 * Below(w, m) <= |w| && 2 * (|w| - Below(w, m + 1)) < |w| && m in w
  {
    hide Sort, Below, Window;
    var w := Window(chain);
    var s, k := Sort(w), |w| / 2;
    var m := s[k];
    assert m in multiset(s);
    BelowOrder(s, w, m);
    BelowOrder(s, w, m + 1);
    BelowSorted(s, m, k);
    BelowSorted(s, m + 1, k);
  }

  /** No other time of the window is as much in the middle. */
  lemma OnlyMedian(chain: seq<int>, m: int)
    requires chain != [] && m in Window(chain)
    requires var w := Window(chain); 2 * Below(w, m) <= |w| && 2 * (|w| - Below(w, m + 1)) < |w|
    ensures m == Median(chain)
  {
    hide Sort, Below, Window;
    var w := Window(chain);
    var s, k := Sort(w), |w| / 2;
    BelowOrder(s, w, m);
    BelowOrder(s, w, m + 1);
    BelowSorted(s, m, k);
    BelowSorted(s, m + 1, k);
  }

  /* ---- the median never goes back ---- */

  /** A block later than the median of the blocks before it does not lower the median. */
  lemma MedianGrows(chain: seq<int>, t: int)
    requires chain != [] && t > Median(chain)
    ensures Median(chain + [t]) >= Median(chain)
  {
    hide Sort, Below, Window;
    var m, w, next := Median(chain), Window(chain), Window(chain + [t]);
    WindowGrows(chain, t, m);
    BelowSorted(Sort(w), m, |w| / 2);
    BelowOrder(Sort(w), w, m);
    BelowOrder(Sort(next), next, m);
    BelowSorted(Sort(next), m, |next| / 2);
  }

  /** The window moves on by one block, or grows by one; a time not below m adds nothing below m. */
  lemma WindowGrows(chain: seq<int>, t: int, m: int)
    requires chain != [] && t >= m
    ensures |Window(chain)| <= |Window(chain + [t])| && Window(chain + [t]) != []
    ensures Below(Window(chain + [t]), m) <= Below(Window(chain), m)
  {
    hide Below;
    var w, next := Window(chain), Window(chain + [t]);
    var kept := if |chain| < MEDIAN_TIME_SPAN then w else w[1..];
    assert next == kept + [t];
    if |chain| >= MEDIAN_TIME_SPAN {
      assert w == [w[0]] + w[1..];
      BelowJoin([w[0]], w[1..], m);
    }
    BelowJoin(kept, [t], m);
    NotBelow(t, m);
  }

  lemma NotBelow(t: int, m: int)
    requires t >= m
    ensures Below([t], m) == 0
  {
    assert [t][..0] == [];
  }

  /** A chain as blocks are accepted: each is later than the median of those before it. */
  predicate Accepted(chain: seq<int>) {
    forall i :: 0 < i < |chain| ==> chain[i] > Median(chain[..i])
  }

  /** Along an accepted chain the median never decreases, and every block is later than every median before it. */
  lemma {:induction false} MedianNeverDecreases(chain: seq<int>, i: nat, j: nat)
    requires Accepted(chain) && 0 < i <= j <= |chain|
    ensures Median(chain[..i]) <= Median(chain[..j])
    ensures j < |chain| ==> chain[j] > Median(chain[..i])
    decreases j
  {
    hide Median;
    if i < j {
      MedianNeverDecreases(chain, i, j - 1);
      MedianGrows(chain[..j - 1], chain[j - 1]);
      assert chain[..j] == chain[..j - 1] + [chain[j - 1]];
    }
  }

  lemma MedianOfOne(x: int)
    ensures Median([x]) == x
  {
    assert x in multiset([x]);
    assert Sort([x])[0] in multiset(Sort([x]));
  }

  /** Of two times the later is the median. */
  lemma MedianOfTwo(x: int, y: int)
    requires x <= y
    ensures Median([x, y]) == y
  {
    hide Sort;
    TwoSorted(x, y, Sort([x, y]));
  }

  lemma TwoSorted(x: int, y: int, r: seq<int>)
    requires x <= y && |r| == 2 && Sorted(r) && multiset(r) == multiset([x, y])
    ensures r[1] == y
  {
    assert r == [r[0], r[1]];
    assert y in multiset(r);
    assert r[0] in multiset(r) && r[1] in multiset(r);
  }
}
