/** The choice of the next proof-of-work target from the targets and times of the blocks before it. A chain is the
    list of its blocks from the first one on, so the place of a block in it is its height. */
module Retarget {
  import opened Basics
  import opened BigNum
  import opened Bytes

  datatype Header = Header(nTime: nat, nBits: nat)

  /* ---- integer division ---- */

  /** The division of the library rounds toward zero. */
  function Quotient(a: int, b: int): int
    requires b > 0
  {
    if a >= 0 then a / b else -((-a) / b)
  }

  lemma QuotientNear(a: int, b: int)
    requires b > 0
    ensures -b < b * Quotient(a, b) - a < b
    ensures a >= 0 ==> 0 <= Quotient(a, b) && b * Quotient(a, b) <= a
    ensures a <= 0 ==> Quotient(a, b) <= 0 && a <= b * Quotient(a, b)
  {
  }

  /* ---- the running average ---- */

  /** The field holds 32 bits. */
  function Target(h: Header): int { SetCompact(h.nBits % UINT_LIMIT) }

  /** Every block's target is positive. */
  predicate Positive(chain: seq<Header>) {
    forall i :: 0 <= i < |chain| ==> Target(chain[i]) > 0
  }

  function Sum(s: seq<int>): int { if s == [] then 0 else Sum(s[..|s| - 1]) + s[|s| - 1] }

  /** The average as it is computed: each value moves it by a fraction that is rounded toward zero. */
  function Average(s: seq<int>): int
    requires s != []
  {
    if |s| == 1 then s[0]
    else
      var prev := Average(s[..|s| - 1]);
      Quotient(s[|s| - 1] - prev, |s|) + prev
  }

  predicate Between(s: seq<int>, lo: int, hi: int) { forall i :: 0 <= i < |s| ==> lo <= s[i] <= hi }

  lemma MoveStays(prev: int, x: int, n: nat, lo: int, hi: int)
    requires n > 0 && lo <= prev <= hi && lo <= x <= hi
    ensures lo <= Quotient(x - prev, n) + prev <= hi
  {
    var q := Quotient(x - prev, n);
    QuotientNear(x - prev, n);
    if q > 0 { assert q <= n * q by { Mul(q, n); } }
    if q < 0 { assert n * q <= q by { Mul(-q, n); } }
  }

  lemma Mul(q: int, n: int)
    requires q >= 0 && n >= 1
    ensures q <= n * q && n * (-q) == -(n * q)
  {
  }

  /** The rounded average lies between the smallest and the largest value. */
  lemma {:induction false} AverageBetween(s: seq<int>, lo: int, hi: int)
    requires s != [] && Between(s, lo, hi)
    ensures lo <= Average(s) <= hi
  {
    if |s| > 1 {
      AverageBetween(s[..|s| - 1], lo, hi);
      MoveStays(Average(s[..|s| - 1]), s[|s| - 1], |s|, lo, hi);
    }
  }

  /** Each rounding costs less than one per value, so n times the average is off by at most n(n-1)/2. */
  lemma {:induction false} AverageNear(s: seq<int>)
    requires s != []
    ensures -(|s| * (|s| - 1)) <= 2 * (|s| * Average(s) - Sum(s)) <= |s| * (|s| - 1)
  {
    hide Quotient;
    var n := |s|;
    if n == 1 {
      assert s[..0] == [];
    } else {
      var r := s[..n - 1];
      AverageNear(r);
      var prev, x := Average(r), s[n - 1];
      QuotientNear(x - prev, n);
      NearStep(n, prev, x, Quotient(x - prev, n), Sum(r));
    }
  }

  lemma NearStep(n: int, prev: int, x: int, q: int, sum: int)
    requires n > 1 && -((n - 1) * (n - 2)) <= 2 * ((n - 1) * prev - sum) <= (n - 1) * (n - 2)
    requires -n < n * q - (x - prev) < n
    ensures -(n * (n - 1)) <= 2 * (n * (q + prev) - (sum + x)) <= n * (n - 1)
  {
    var a, b := (n - 1) * prev, (n - 1) * (n - 2);
    assert n * (q + prev) == n * q + a + prev;
    assert n * (n - 1) == b + 2 * (n - 1);
  }

  /* ---- the gravity well ---- */

  /** The targets read, newest first, when k blocks are read from the last one down. */
  function Read(chain: seq<Header>, k: nat): (s: seq<int>)
    requires k <= |chain|
    ensures |s| == k && forall i :: 0 <= i < k ==> s[i] == Target(chain[|chain| - 1 - i])
  {
    seq(k, i requires 0 <= i < k => Target(chain[|chain| - 1 - i]))
  }

  /** How long the last k blocks took, and how long they should have taken. */
  function Actual(chain: seq<Header>, k: nat): (n: int)
    requires 0 < k <= |chain|
    ensures n >= 0
  {
    Max(0, chain[|chain| - 1].nTime - chain[|chain| - k].nTime)
  }

  function Planned(spacing: nat, k: nat): nat { spacing * k }

  /** The average of the k targets read, scaled by the time the blocks took and cut off at the limit. */
  function Adjusted(chain: seq<Header>, k: nat, limit: nat, spacing: nat): int
    requires 0 < k <= |chain|
  {
    Scaled(Average(Read(chain, k)), Actual(chain, k), Planned(spacing, k), limit)
  }

  function Scaled(average: int, actual: int, planned: nat, limit: nat): int {
    var bn := if actual != 0 && planned != 0 then average * actual / planned else average;
    if bn > limit then limit else bn
  }

  lemma Over(a: int, x: int, p: int)
    requires a > 0 && p > 0
    ensures 0 <= x <= p ==> a * x / p <= a
    ensures x >= p ==> a * x / p >= a
    ensures 0 <= x < p ==> a * x / p < a
  {
    if x >= p {
      Times(a, p, x);
      QuotientAbove(a * x, p, a);
    }
    if x <= p {
      Times(a, x, p);
      QuotientBelow(a * x, p, a);
    }
    if x < p {
      Times(a, x, p - 1);
      OneMore(a, p - 1);
      StrictlyBelow(a * x, p, a);
    }
  }

  lemma Times(a: int, x: int, y: int)
    requires a > 0 && x <= y
    ensures a * x <= a * y
  {
  }

  lemma OneMore(p: int, a: int)
    ensures p * (a + 1) == p * a + p
  {
  }

  lemma DivBounds(n: int, p: int)
    requires p > 0
    ensures p * (n / p) <= n < p * (n / p) + p
  {
  }

  lemma QuotientBelow(n: int, p: int, a: int)
    requires p > 0 && n <= a * p
    ensures n / p <= a
  {
    DivBounds(n, p);
    if n / p > a {
      Times(p, a + 1, n / p);
      OneMore(p, a);
    }
  }

  lemma StrictlyBelow(n: int, p: int, a: int)
    requires p > 0 && n < a * p
    ensures n / p < a
  {
    DivBounds(n, p);
    if n / p >= a { Times(p, a, n / p); }
  }

  lemma QuotientAbove(n: int, p: int, a: int)
    requires p > 0 && n >= a * p
    ensures n / p >= a
  {
    DivBounds(n, p);
    if n / p < a {
      Times(p, n / p + 1, a);
      OneMore(p, n / p);
    }
  }

  /** Blocks that came faster than planned, or as planned, never raise the average target; blocks that came slower
      never lower it, up to the limit. */
  lemma FasterNeverRaises(chain: seq<Header>, k: nat, limit: nat, spacing: nat)
    requires Positive(chain) && 0 < k <= |chain| && spacing > 0
    ensures var average := Average(Read(chain, k));
      && (Actual(chain, k) <= Planned(spacing, k) ==> Adjusted(chain, k, limit, spacing) <= average)
      && (Actual(chain, k) >= Planned(spacing, k) ==> Adjusted(chain, k, limit, spacing) >= Min(average, limit))
  {
    hide Average, Target, Read;
    AveragePositive(chain, k);
    Mul(k, spacing);
    Over(Average(Read(chain, k)), Actual(chain, k), Planned(spacing, k));
  }

  /** The time of k blocks is taken from the first of them, so it is that of k-1 intervals, and is compared with k times
      the spacing: blocks exactly as far apart as planned lower the target. */
  lemma OnPlanLowers(chain: seq<Header>, k: nat, limit: nat, spacing: nat)
    requires Positive(chain) && 1 < k <= |chain| && spacing > 0
    requires forall i :: 0 < i < |chain| ==> chain[i].nTime == chain[i - 1].nTime + spacing
    ensures Adjusted(chain, k, limit, spacing) < Average(Read(chain, k))
  {
    hide Average, Target, Read;
    AveragePositive(chain, k);
    Spaced(chain, k, spacing);
    var actual, planned := Actual(chain, k), Planned(spacing, k);
    Mul(spacing, k - 1);
    assert planned == spacing * (k - 1) + spacing;
    Over(Average(Read(chain, k)), actual, planned);
  }

  lemma {:induction false} Spaced(chain: seq<Header>, k: nat, spacing: nat)
    requires 0 < k <= |chain|
    requires forall i :: 0 < i < |chain| ==> chain[i].nTime == chain[i - 1].nTime + spacing
    ensures chain[|chain| - 1].nTime - chain[|chain| - k].nTime == spacing * (k - 1)
  {
    if k > 1 { Spaced(chain, k - 1, spacing); }
  }

  /** Reads blocks back from the last one, until the horizon is reached, the number allowed is read or the first
      block comes, keeping the average of their targets. Whether the horizon is reached is decided in floating
      point, which is left out: it may depend on how many blocks were read, how long they took and how long they
      should have taken. */
  method ReadBack(chain: seq<Header>, spacing: nat, PastBlocksMin: nat, PastBlocksMax: nat,
      horizon: (nat, int, nat) -> bool)
    returns (k: nat, PastDifficultyAverage: int, PastRateActualSeconds: int, PastRateTargetSeconds: nat)
    requires |chain| > 1
    ensures 0 < k < |chain| && (PastBlocksMax > 0 ==> k <= PastBlocksMax)
    ensures PastDifficultyAverage == Average(Read(chain, k))
    ensures PastRateActualSeconds == Actual(chain, k) && PastRateTargetSeconds == Planned(spacing, k)
    ensures
      || k == PastBlocksMax || k == |chain| - 1
      || (k >= PastBlocksMin && horizon(k, Actual(chain, k), Planned(spacing, k)))
  {
    hide Target, Average, Quotient;
    var BlockLastSolved := |chain| - 1;
    var BlockReading := BlockLastSolved;
    var PastDifficultyAveragePrev := 0;
    PastDifficultyAverage, PastRateActualSeconds, PastRateTargetSeconds := 0, 0, 0;
    var PastBlocksMass := 0;
    k := 0;
    var i := 1;
    while BlockReading > 0
      invariant 0 <= BlockReading && k == PastBlocksMass == i - 1 && BlockReading == BlockLastSolved - k
      invariant PastBlocksMax > 0 ==> k <= PastBlocksMax
      invariant k > 0 ==> PastDifficultyAverage == PastDifficultyAveragePrev == Average(Read(chain, k))
      invariant k > 0 ==> PastRateActualSeconds == Actual(chain, k) && PastRateTargetSeconds == Planned(spacing, k)
      decreases BlockReading
    {
      if PastBlocksMax > 0 && i > PastBlocksMax { break; }
      PastBlocksMass := PastBlocksMass + 1;
      var bits := Target(chain[BlockReading]);
      AverageNext(chain, k);
      if i == 1 {
        PastDifficultyAverage := bits;
      } else {
        PastDifficultyAverage := Quotient(bits - PastDifficultyAveragePrev, i) + PastDifficultyAveragePrev;
      }
      PastDifficultyAveragePrev := PastDifficultyAverage;
      k := k + 1;
      PastRateActualSeconds := chain[BlockLastSolved].nTime - chain[BlockReading].nTime;
      PastRateTargetSeconds := Planned(spacing, PastBlocksMass);
      if PastRateActualSeconds < 0 { PastRateActualSeconds := 0; }
      if PastBlocksMass >= PastBlocksMin && horizon(PastBlocksMass, PastRateActualSeconds, PastRateTargetSeconds) {
        break;
      }
      BlockReading := BlockReading - 1;
      i := i + 1;
    }
  }

  method KimotoGravityWell(chain: seq<Header>, limit: nat, spacing: nat, PastBlocksMin: nat, PastBlocksMax: nat,
      horizon: (nat, int, nat) -> bool)
    returns (nBits: nat, ghost k: nat)
    requires Positive(chain) && |Mpi(limit)| < 0x100
    ensures nBits < UINT_LIMIT && 0 <= SetCompact(nBits) <= limit && GetCompact(SetCompact(nBits)) == nBits
    ensures if |chain| <= 1 || |chain| - 1 < PastBlocksMin then nBits == GetCompact(limit)
      else
        && 0 < k < |chain| && Adjusted(chain, k, limit, spacing) >= 0
        && nBits == GetCompact(Adjusted(chain, k, limit, spacing))
  {
    hide SetCompact, GetCompact, Mpi, Average, Scaled, Read;
    k := 0;
    CompactRoundsDown(limit);
    if |chain| == 0 || |chain| - 1 == 0 || |chain| - 1 < PastBlocksMin {
      return GetCompact(limit), 0;
    }
    var n, PastDifficultyAverage, PastRateActualSeconds, PastRateTargetSeconds := ReadBack(chain, spacing,
        PastBlocksMin, PastBlocksMax, horizon);
    k := n;
    AveragePositive(chain, k);
    ScaledIs(PastDifficultyAverage, PastRateActualSeconds, PastRateTargetSeconds, limit);
    var bnNew := PastDifficultyAverage;
    if PastRateActualSeconds != 0 && PastRateTargetSeconds != 0 {
      bnNew := bnNew * PastRateActualSeconds;
      bnNew := bnNew / PastRateTargetSeconds;
    }
    if bnNew > limit { bnNew := limit; }
    CompactBelow(bnNew, limit);
    nBits := GetCompact(bnNew);
  }

  lemma ScaledIs(average: int, actual: int, planned: nat, limit: nat)
    requires average > 0 && actual >= 0
    ensures var bn := if actual != 0 && planned != 0 then average * actual / planned else average;
      bn >= 0 && Scaled(average, actual, planned, limit) == if bn > limit then limit else bn
  {
    if planned != 0 { assert average * actual >= 0; }
  }

  lemma AverageNext(chain: seq<Header>, k: nat)
    requires k < |chain|
    ensures var x := Target(chain[|chain| - 1 - k]);
      Average(Read(chain, k + 1)) ==
        if k == 0 then x else Quotient(x - Average(Read(chain, k)), k + 1) + Average(Read(chain, k))
  {
    hide Target, Quotient;
    assert Read(chain, k + 1)[..k] == Read(chain, k);
  }

  lemma AveragePositive(chain: seq<Header>, k: nat)
    requires Positive(chain) && 0 < k <= |chain|
    ensures Average(Read(chain, k)) > 0
  {
    hide Target, Average;
    var s := Read(chain, k);
    AverageBetween(s, 1, Largest(s));
  }

  function Largest(s: seq<int>): (m: int)
    requires s != []
    ensures m in s && forall i :: 0 <= i < |s| ==> s[i] <= m
  {
    if |s| == 1 then s[0]
    else
      var m := Largest(s[..|s| - 1]);
      assert forall i :: 0 <= i < |s| - 1 ==> s[i] == s[..|s| - 1][i];
      if m < s[|s| - 1] then s[|s| - 1] else m
  }

  lemma CompactBelow(n: nat, limit: nat)
    requires n <= limit && |Mpi(limit)| < 0x100
    ensures |Mpi(n)| < 0x100 && 0 <= SetCompact(GetCompact(n)) <= limit
    ensures GetCompact(SetCompact(GetCompact(n))) == GetCompact(n)
  {
    hide SetCompact, GetCompact, Mpi;
    MpiGrows(n, limit);
    CompactRoundsDown(n);
  }

  lemma {:induction false} MpiGrows(n: nat, m: nat)
    requires n <= m
    ensures |Mpi(n)| <= |Mpi(m)|
  {
    var v, w := Digits(n), Digits(m);
    if |v| > |w| {
      ValueLow(v);
      ValueBound(w);
      PowGrows(|w|, |v| - 1);
    } else if |v| == |w| && v != [] && v[0] >= 0x80 && w[0] < 0x80 {
      FirstByte(v, w);
    }
  }

  /** Of two numbers with equally many digits the one with the larger first digit is larger. */
  lemma FirstByte(v: seq<byte>, w: seq<byte>)
    requires |v| == |w| && v != [] && v[0] > w[0]
    ensures Value(v) > Value(w)
  {
    ValueJoin([v[0]], v[1..]);
    ValueJoin([w[0]], w[1..]);
    assert [v[0]] + v[1..] == v && [w[0]] + w[1..] == w;
    ValueBound(w[1..]);
    OneByte(v[0]);
    OneByte(w[0]);
    hide Value, Pow;
    Larger(v[0], w[0], Pow(|v| - 1), Value(v[1..]), Value(w[1..]));
  }

  lemma OneByte(b: byte)
    ensures Value([b]) == b
  {
    assert [b][..0] == [];
  }

  lemma Larger(a: int, b: int, p: int, x: int, y: int)
    requires a > b && x >= 0 && y < p && p > 0
    ensures a * p + x > b * p + y
  {
    assert a * p == b * p + (a - b) * p;
    Mul(p, a - b);
  }
}
