/** Large numbers as byte strings: most significant byte first, the topmost bit of the first byte the sign. */
module BigNum {
  import opened Bytes

  function Pow(n: nat): (p: nat)
    ensures p >= 1
  {
    if n == 0 then 1 else 0x100 * Pow(n - 1)
  }

  /** The value of a byte string without sign. */
  function Value(v: seq<byte>): (n: nat) {
    if v == [] then 0
    else
      var last: int := v[|v| - 1];
      0x100 * Value(v[..|v| - 1]) + last
  }

  /** The bytes of a number without leading zeros. */
  function Digits(n: nat): (v: seq<byte>)
    ensures Value(v) == n && (v != [] ==> v[0] != 0) && (v == [] <==> n == 0)
  {
    if n == 0 then [] else
    var v := Digits(n / 0x100);
    var w := v + [n % 0x100];
    assert w[..|w| - 1] == v;
    w
  }

  /** The byte string of a number that is not negative: a zero keeps the sign bit clear. */
  function Mpi(n: nat): (v: seq<byte>) {
    var d := Digits(n);
    if d != [] && d[0] >= 0x80 then [0] + d else d
  }

  /** The shortest byte string of its value, and not negative. */
  predicate Canonical(v: seq<byte>) {
    v == [] || (v[0] < 0x80 && (v[0] != 0 || (|v| > 1 && v[1] >= 0x80)))
  }

  /** The number a byte string stands for. */
  function Signed(v: seq<byte>): int {
    var magnitude: int := if v != [] && v[0] >= 0x80 then Value([v[0] - 0x80] + v[1..]) else Value(v);
    if v != [] && v[0] >= 0x80 then -magnitude else magnitude
  }

  lemma {:induction false} ValueJoin(a: seq<byte>, b: seq<byte>)
    ensures Value(a + b) == Value(a) * Pow(|b|) + Value(b)
    decreases |b|
  {
    if b == [] {
      assert a + b == a;
    } else {
      var c, last := b[..|b| - 1], b[|b| - 1];
      assert (a + b)[..|a + b| - 1] == a + c;
      ValueJoin(a, c);
      Distribute(Value(a), Pow(|c|), Value(c), last);
    }
  }

  lemma Distribute(x: int, p: int, y: int, z: int)
    ensures 0x100 * (x * p + y) + z == x * (0x100 * p) + (0x100 * y + z)
  {
    assert x * (0x100 * p) == 0x100 * (x * p);
  }

  lemma {:induction false} ValueBound(v: seq<byte>)
    ensures Value(v) < Pow(|v|)
  {
    if v != [] { ValueBound(v[..|v| - 1]); }
  }

  lemma {:induction false} ValueLow(v: seq<byte>)
    requires v != [] && v[0] != 0
    ensures Value(v) >= Pow(|v| - 1)
  {
    if |v| == 1 {
      assert v[..0] == [];
    } else {
      ValueLow(v[..|v| - 1]);
    }
  }

  lemma ValueZero(v: seq<byte>)
    ensures Value([0] + v) == Value(v)
  {
    ValueJoin([0], v);
    assert [0][..0] == [];
  }

  /** Without leading zeros a number has one byte string. */
  lemma {:induction false} DigitsUnique(v: seq<byte>)
    requires v != [] ==> v[0] != 0
    ensures Digits(Value(v)) == v
  {
    if v != [] {
      var w, last := v[..|v| - 1], v[|v| - 1];
      DigitsUnique(w);
      ValueLow(v);
      assert Value(v) / 0x100 == Value(w) && Value(v) % 0x100 == last;
      assert v == w + [last];
    }
  }

  lemma MpiCanonical(n: nat)
    ensures Canonical(Mpi(n)) && Value(Mpi(n)) == n && Signed(Mpi(n)) == n
  {
    ValueZero(Digits(n));
  }

  lemma CanonicalMpi(v: seq<byte>)
    requires Canonical(v)
    ensures Mpi(Value(v)) == v
  {
    if v != [] && v[0] == 0 {
      assert v == [0] + v[1..];
      ValueZero(v[1..]);
      DigitsUnique(v[1..]);
    } else {
      DigitsUnique(v);
    }
  }

  /* ---- compact targets ---- */

  /** The size of the byte string and its first three bytes. */
  function GetCompact(n: nat): (c: nat)
    ensures c < UINT_LIMIT
  {
    var v := Mpi(n);
    var b0: int := if |v| >= 1 then v[0] else 0;
    var b1: int := if |v| >= 2 then v[1] else 0;
    var b2: int := if |v| >= 3 then v[2] else 0;
    0x100_0000 * (|v| % 0x100) + 0x1_0000 * b0 + 0x100 * b1 + b2
  }

  function Zeros(n: nat): (z: seq<byte>)
    ensures |z| == n && forall i :: 0 <= i < n ==> z[i] == 0
  {
    seq(n, _ => 0)
  }

  /** The byte string with the given size and first bytes, and zeros after them. */
  function Expand(c: nat): (v: seq<byte>)
    requires c < UINT_LIMIT
    ensures |v| == c / 0x100_0000
  {
    var size := c / 0x100_0000;
    var head: seq<byte> := [c / 0x1_0000 % 0x100, c / 0x100 % 0x100, c % 0x100];
    if size <= 3 then head[..size] else head + Zeros(size - 3)
  }

  function SetCompact(c: nat): int
    requires c < UINT_LIMIT
  {
    Signed(Expand(c))
  }

  /** A compact number stands for its lower 23 bits, shifted by as many bytes as its topmost byte exceeds three, with
      the bit above them as the sign. */
  lemma CompactValue(c: nat)
    requires c < UINT_LIMIT && c / 0x100_0000 >= 3
    ensures var magnitude: int := c % 0x80_0000 * Pow(c / 0x100_0000 - 3);
      SetCompact(c) == if c / 0x80_0000 % 2 == 0 then magnitude else -magnitude
  {
    hide Signed, Value, Pow, Expand;
    var b0, b1, b2, n := c / 0x1_0000 % 0x100, c / 0x100 % 0x100, c % 0x100, c / 0x100_0000 - 3;
    SignBit(c, c / 0x100_0000, b0, b1, b2);
    ExpandLong(c, b0, b1, b2);
    SignedLong(b0, b1, b2, n);
  }

  lemma SignBit(c: nat, size: nat, b0: byte, b1: byte, b2: byte)
    requires size == c / 0x100_0000 && b0 as int == c / 0x1_0000 % 0x100 && b1 as int == c / 0x100 % 0x100
    requires b2 as int == c % 0x100
    ensures b0 >= 0x80 <==> c / 0x80_0000 % 2 == 1
    ensures c % 0x80_0000 == 0x1_0000 * (if b0 >= 0x80 then b0 - 0x80 else b0) + 0x100 * b1 + b2
  {
    FourBytes(c, c / 0x100, c / 0x1_0000);
    var low: int := if b0 >= 0x80 then b0 - 0x80 else b0;
    var h := if b0 >= 0x80 then 1 else 0;
    SevenBits(c, size, h, low, 0x100 * (b1 as int) + (b2 as int));
  }

  lemma FourBytes(c: nat, c1: nat, c2: nat)
    requires c1 == c / 0x100 && c2 == c / 0x1_0000
    ensures c == 0x100_0000 * (c / 0x100_0000) + 0x1_0000 * (c2 % 0x100) + 0x100 * (c1 % 0x100) + c % 0x100
  {
    var c3 := c2 / 0x100;
    Divide(c, 0x100_0000, c3, 0x1_0000 * (c2 % 0x100) + c % 0x1_0000);
    Divide(c1, 0x100, c2, c % 0x1_0000 / 0x100);
  }

  lemma SevenBits(c: nat, size: nat, h: nat, low: nat, r: nat)
    requires h < 2 && low < 0x80 && r < 0x1_0000 && c == 0x100_0000 * size + 0x80_0000 * h + 0x1_0000 * low + r
    ensures c / 0x80_0000 % 2 == h && c % 0x80_0000 == 0x1_0000 * low + r
  {
    Divide(c, 0x80_0000, 2 * size + h, 0x1_0000 * low + r);
    Divide(2 * size + h, 2, size, h);
  }

  lemma Divide(c: nat, k: nat, q: nat, r: nat)
    requires k > 0 && c == k * q + r && r < k
    ensures c / k == q && c % k == r
  {
    var d := c / k - q;
    assert k * d == r - c % k;
    assert d > 0 ==> k * d >= k;
    assert d < 0 ==> k * d + k <= 0;
  }

  lemma SignedLong(b0: byte, b1: byte, b2: byte, n: nat)
    ensures var low := if b0 >= 0x80 then b0 - 0x80 else b0;
      var magnitude: int := (0x1_0000 * low + 0x100 * b1 + b2) * Pow(n);
      Signed([b0, b1, b2] + Zeros(n)) == if b0 >= 0x80 then -magnitude else magnitude
  {
    hide Value, Pow;
    var low: byte := if b0 >= 0x80 then b0 - 0x80 else b0;
    var head: seq<byte> := [low, b1, b2];
    ThreeBytes(low, b1, b2);
    ValueJoin(head, Zeros(n));
    ValueZeros(n);
    var v := [b0, b1, b2] + Zeros(n);
    assert [low] + v[1..] == head + Zeros(n);
  }

  lemma ExpandLong(c: nat, b0: byte, b1: byte, b2: byte)
    requires c < UINT_LIMIT && c / 0x100_0000 >= 3
    requires b0 as int == c / 0x1_0000 % 0x100 && b1 as int == c / 0x100 % 0x100 && b2 as int == c % 0x100
    ensures Expand(c) == [b0, b1, b2] + Zeros(c / 0x100_0000 - 3)
  {
    var head: seq<byte> := [b0, b1, b2];
    if c / 0x100_0000 == 3 { assert head[..3] == head + Zeros(0); }
  }

  lemma ThreeBytes(a: byte, b: byte, c: byte)
    ensures Value([a, b, c]) == 0x1_0000 * (a as int) + 0x100 * (b as int) + (c as int)
  {
    var v: seq<byte> := [a, b, c];
    assert v[..2] == [a, b] && v[..2][..1] == [a] && v[..2][..1][..0] == [];
    assert Value([a]) == 0x100 * Value([]) + a as int;
    assert Value([a, b]) == 0x100 * Value([a]) + b as int;
  }

  /** What is left of a byte string when its size and its first three bytes are kept. */
  function Blunted(v: seq<byte>): (w: seq<byte>)
    ensures |w| == |v|
  {
    if |v| <= 3 then v else v[..3] + Zeros(|v| - 3)
  }

  lemma ExpandCompact(n: nat)
    requires |Mpi(n)| < 0x100
    ensures Expand(GetCompact(n)) == Blunted(Mpi(n))
  {
    hide Mpi, Expand;
    var v := Mpi(n);
    var b0: byte := if |v| >= 1 then v[0] else 0;
    var b1: byte := if |v| >= 2 then v[1] else 0;
    var b2: byte := if |v| >= 3 then v[2] else 0;
    ExpandFields(|v|, b0, b1, b2);
    var head := [b0, b1, b2];
    assert |v| <= 3 ==> head[..|v|] == v;
    assert |v| > 3 ==> head == v[..3];
  }

  lemma ExpandFields(size: nat, b0: byte, b1: byte, b2: byte)
    requires size < 0x100
    ensures var c: int := 0x100_0000 * size + 0x1_0000 * (b0 as int) + 0x100 * (b1 as int) + (b2 as int);
      c < UINT_LIMIT && var head := [b0, b1, b2];
      Expand(c) == if size <= 3 then head[..size] else head + Zeros(size - 3)
  {
    Fields(size, b0, b1, b2);
  }

  lemma Fields(size: nat, b0: byte, b1: byte, b2: byte)
    ensures var c: int := 0x100_0000 * size + 0x1_0000 * (b0 as int) + 0x100 * (b1 as int) + (b2 as int);
      c / 0x100_0000 == size && c / 0x1_0000 % 0x100 == b0 && c / 0x100 % 0x100 == b1 && c % 0x100 == b2
  {
    var c: int := 0x100_0000 * size + 0x1_0000 * (b0 as int) + 0x100 * (b1 as int) + (b2 as int);
    assert c / 0x100 == 0x1_0000 * size + 0x100 * (b0 as int) + (b1 as int);
    assert c / 0x1_0000 == 0x100 * size + (b0 as int);
  }

  lemma {:induction false} ValueZeros(n: nat)
    ensures Value(Zeros(n)) == 0
  {
    if n > 0 {
      assert Zeros(n)[..n - 1] == Zeros(n - 1);
      ValueZeros(n - 1);
    }
  }

  lemma BluntedBelow(v: seq<byte>)
    ensures Value(Blunted(v)) <= Value(v)
  {
    if |v| > 3 {
      ValueJoin(v[..3], v[3..]);
      ValueJoin(v[..3], Zeros(|v| - 3));
      ValueZeros(|v| - 3);
      assert v[..3] + v[3..] == v;
    }
  }

  /** The compact form of a number that is not negative, and not too long for it, never rounds up, stays not
      negative, and does not change when it is taken once more. It is exact for numbers of three bytes. */
  lemma CompactRoundsDown(n: nat)
    requires |Mpi(n)| < 0x100
    ensures 0 <= SetCompact(GetCompact(n)) <= n
    ensures GetCompact(SetCompact(GetCompact(n))) == GetCompact(n)
    ensures |Mpi(n)| <= 3 ==> SetCompact(GetCompact(n)) == n
  {
    hide Mpi, GetCompact, Expand, Value;
    var v := Mpi(n);
    var w := Blunted(v);
    ExpandCompact(n);
    MpiCanonical(n);
    assert Canonical(w) && Signed(w) == Value(w) by { BluntedCanonical(v); }
    BluntedBelow(v);
    CanonicalMpi(w);
    BluntedSame(Value(w), n);
  }

  lemma BluntedCanonical(v: seq<byte>)
    requires Canonical(v)
    ensures Canonical(Blunted(v)) && Signed(Blunted(v)) == Value(Blunted(v))
  {
    hide Value;
  }

  lemma BluntedSame(m: nat, n: nat)
    requires Mpi(m) == Blunted(Mpi(n))
    ensures GetCompact(m) == GetCompact(n)
  {
    hide Mpi;
  }

  lemma {:induction false} PowGrows(a: nat, b: nat)
    requires a <= b
    ensures Pow(a) <= Pow(b)
    decreases b
  {
    if a < b { PowGrows(a, b - 1); }
  }
}
