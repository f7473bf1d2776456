/** Byte strings written with 58 characters. */
module Base58 {
  import opened Basics
  import opened BigNum
  import opened Bytes

  const ALPHABET: string := "123456789" + "ABCDEFGH" + "JKLMN" + "PQRSTUVWXYZ" + "abcdefghijk" + "mnopqrstuvwxyz"

  type Digit = d: int | 0 <= d < 58

  /** Where a character is in the alphabet, or -1. */
  function IndexOf(c: char): (d: int)
    ensures -1 <= d < 58 && (d >= 0 ==> ALPHABET[d] == c) && (d == -1 ==> c !in ALPHABET)
  {
    Search(c, 0)
  }

  function Search(c: char, i: nat): (d: int)
    requires i <= 58
    ensures -1 <= d < 58 && (d >= 0 ==> i <= d && ALPHABET[d] == c)
    ensures (d == -1 ==> forall j :: i <= j < 58 ==> ALPHABET[j] != c)
    decreases 58 - i
  {
    if i == 58 then -1 else if ALPHABET[i] == c then i else Search(c, i + 1)
  }

  /** No character is in the alphabet twice. */
  lemma IndexOfChar(d: Digit)
    ensures IndexOf(ALPHABET[d]) == d
  {
    SearchFinds(d, 0);
  }

  lemma {:induction false} SearchFinds(d: Digit, i: nat)
    requires i <= d
    ensures Search(ALPHABET[d], i) == d
    decreases d - i
  {
    if i < d {
      Distinct(i, d);
      SearchFinds(d, i + 1);
    }
  }

  lemma Distinct(i: Digit, j: Digit)
    requires i < j
    ensures ALPHABET[i] < ALPHABET[j]
  {
    CharAt(i);
    CharAt(j);
  }

  /** The characters run through the digits and letters, leaving out 0, I, O and l. */
  function Char58(d: Digit): char {
    if d < 9 then '1' + d as char
    else if d < 17 then 'A' + (d - 9) as char
    else if d < 22 then 'J' + (d - 17) as char
    else if d < 33 then 'P' + (d - 22) as char
    else if d < 44 then 'a' + (d - 33) as char
    else 'm' + (d - 44) as char
  }

  lemma CharAt(d: Digit)
    ensures |ALPHABET| == 58 && ALPHABET[d] == Char58(d)
  {
    var a, b, c, e, f, g := "123456789", "ABCDEFGH", "JKLMN", "PQRSTUVWXYZ", "abcdefghijk", "mnopqrstuvwxyz";
    assert forall i :: 0 <= i < 9 ==> a[i] == Char58(i);
    assert forall i :: 0 <= i < 8 ==> b[i] == Char58(9 + i);
    assert forall i :: 0 <= i < 5 ==> c[i] == Char58(17 + i);
    assert forall i :: 0 <= i < 11 ==> e[i] == Char58(22 + i);
    assert forall i :: 0 <= i < 11 ==> f[i] == Char58(33 + i);
    assert forall i :: 0 <= i < 14 ==> g[i] == Char58(44 + i);
  }

  predicate InAlphabet(s: string) { forall i :: 0 <= i < |s| ==> IndexOf(s[i]) >= 0 }

  predicate IsSpace(c: char) { c == ' ' || ('\t' <= c <= '\r') }

  /* ---- base 58 ---- */

  function Value58(v: seq<Digit>): nat {
    if v == [] then 0
    else
      var last: int := v[|v| - 1];
      58 * Value58(v[..|v| - 1]) + last
  }

  function Digits58(n: nat): (v: seq<Digit>)
    ensures Value58(v) == n && (v != [] ==> v[0] != 0) && (v == [] <==> n == 0)
  {
    if n == 0 then [] else
    var v := Digits58(n / 58);
    var w := v + [n % 58];
    assert w[..|w| - 1] == v;
    w
  }

  lemma {:induction false} Positive58(v: seq<Digit>)
    requires v != [] && v[0] != 0
    ensures Value58(v) > 0
  {
    if |v| > 1 { Positive58(v[..|v| - 1]); }
  }

  lemma {:induction false} Digits58Unique(v: seq<Digit>)
    requires v != [] ==> v[0] != 0
    ensures Digits58(Value58(v)) == v
  {
    if v != [] {
      var w, last := v[..|v| - 1], v[|v| - 1];
      Digits58Unique(w);
      Positive58(v);
      assert Value58(v) / 58 == Value58(w) && Value58(v) % 58 == last;
      assert v == w + [last];
    }
  }

  lemma {:induction false} Zeros58(n: nat, v: seq<Digit>)
    ensures Value58(Repeat(0, n) + v) == Value58(v)
    decreases |v|
  {
    var z: seq<Digit> := Repeat(0, n);
    if v == [] {
      assert z + v == z;
      OnlyZeros58(n);
    } else {
      assert (z + v)[..|z + v| - 1] == z + v[..|v| - 1];
      Zeros58(n, v[..|v| - 1]);
    }
  }

  lemma {:induction false} OnlyZeros58(n: nat)
    ensures Value58(Repeat(0, n)) == 0
  {
    if n > 0 {
      assert Repeat(0 as Digit, n)[..n - 1] == Repeat(0 as Digit, n - 1);
      OnlyZeros58(n - 1);
    }
  }

  function Repeat<T>(x: T, n: nat): (s: seq<T>)
    ensures |s| == n && forall i :: 0 <= i < n ==> s[i] == x
  {
    seq(n, _ => x)
  }

  lemma ZerosValue(n: nat, v: seq<byte>)
    ensures Value(Repeat(0, n) + v) == Value(v)
  {
    var z: seq<byte> := Repeat(0, n);
    ValueJoin(z, v);
    ValueZeros(n);
    assert z == Zeros(n);
  }

  /* ---- texts ---- */

  function Chars(v: seq<Digit>): (s: string)
    ensures |s| == |v| && forall i :: 0 <= i < |v| ==> s[i] == ALPHABET[v[i]]
  {
    seq(|v|, i requires 0 <= i < |v| => ALPHABET[v[i]])
  }

  function Indexes(s: string): (v: seq<Digit>)
    requires InAlphabet(s)
    ensures |v| == |s| && forall i :: 0 <= i < |s| ==> v[i] == IndexOf(s[i])
  {
    seq(|s|, i requires 0 <= i < |s| => IndexOf(s[i]))
  }

  lemma CharsOfIndexes(s: string)
    requires InAlphabet(s)
    ensures Chars(Indexes(s)) == s
  {
  }

  lemma IndexesOfChars(v: seq<Digit>)
    ensures InAlphabet(Chars(v)) && Indexes(Chars(v)) == v
  {
    forall i | 0 <= i < |v| ensures IndexOf(Chars(v)[i]) == v[i] { IndexOfChar(v[i]); }
  }

  /** How often x stands at the front. */
  function Leading<T(==)>(s: seq<T>, x: T): (n: nat)
    ensures n <= |s| && s[..n] == Repeat(x, n) && (n < |s| ==> s[n] != x)
  {
    if s == [] || s[0] != x then 0
    else
      var n := 1 + Leading(s[1..], x);
      assert s[..n] == [s[0]] + s[1..][..n - 1];
      n
  }

  lemma {:induction false} LeadingIs<T>(s: seq<T>, x: T, n: nat)
    requires n <= |s| && (forall i :: 0 <= i < n ==> s[i] == x) && (n < |s| ==> s[n] != x)
    ensures Leading(s, x) == n
  {
    if n > 0 { LeadingIs(s[1..], x, n - 1); }
  }

  /** One character for every leading zero byte, then the digits of the number the bytes stand for. */
  function Encode(b: seq<byte>): string {
    Repeat(ALPHABET[0], Leading(b, 0)) + Chars(Digits58(Value(b)))
  }

  /** The reverse, for a text over the alphabet. */
  function Bytes58(s: string): seq<byte>
    requires InAlphabet(s)
  {
    Repeat(0, Leading(s, ALPHABET[0])) + Digits(Value58(Indexes(s)))
  }

  /** Every byte string comes back. */
  lemma DecodeEncode(b: seq<byte>)
    ensures InAlphabet(Encode(b)) && Bytes58(Encode(b)) == b
  {
    hide Value, Digits, Value58, Digits58, Leading, Repeat, IndexOf;
    var z := Leading(b, 0);
    var rest := b[z..];
    assert b == Repeat(0, z) + rest;
    ZerosValue(z, rest);
    DigitsUnique(rest);
    var v := Digits58(Value(b));
    var zeros: seq<Digit> := Repeat(0, z);
    EncodeIs(b, zeros, v);
    IndexesOfChars(zeros + v);
    Zeros58(z, v);
    LeadingOne(zeros + v, z);
  }

  lemma EncodeIs(b: seq<byte>, zeros: seq<Digit>, v: seq<Digit>)
    requires zeros == Repeat(0, Leading(b, 0)) && v == Digits58(Value(b))
    ensures Encode(b) == Chars(zeros + v)
  {
    hide Value, Digits58, Leading, Repeat;
  }

  /** A text begins with as many ones as its digits begin with zeros. */
  lemma LeadingOne(v: seq<Digit>, n: nat)
    requires n <= |v| && (forall i :: 0 <= i < n ==> v[i] == 0) && (n < |v| ==> v[n] != 0)
    ensures Leading(Chars(v), ALPHABET[0]) == n
  {
    if n < |v| { Distinct(0, v[n]); }
    LeadingIs(Chars(v), ALPHABET[0], n);
  }

  /** Every text over the alphabet comes back. */
  lemma EncodeDecode(s: string)
    requires InAlphabet(s)
    ensures Encode(Bytes58(s)) == s
  {
    hide Value, Digits, Value58, Digits58, Leading, Repeat, IndexOf;
    var v := Indexes(s);
    CharsOfIndexes(s);
    var z := Leading(v, 0);
    var rest := v[z..];
    var zeros: seq<Digit> := Repeat(0, z);
    assert v == zeros + rest;
    LeadingOne(v, z);
    Zeros58(z, rest);
    Digits58Unique(rest);
    var b := Bytes58(s);
    var d := Digits(Value58(v));
    ZerosValue(z, d);
    LeadingIs(b, 0, z);
    EncodeIs(b, zeros, rest);
  }

  /* ---- the loops ---- */

  /** Divides by 58 again and again, then adds a character for every leading zero, and turns the text around. */
  method EncodeBase58(b: seq<byte>) returns (str: string)
    ensures str == Encode(b)
  {
    hide Value, Digits58, Leading, Chars, Reversed, Repeat;
    var bn := Value(b);
    str := "";
    Nothing(bn);
    while bn > 0
      invariant Chars(Digits58(bn)) + Reversed(str) == Chars(Digits58(Value(b)))
      decreases bn
    {
      var dv, rem := bn / 58, bn % 58;
      LastDigit(bn, str);
      bn := dv;
      str := str + [ALPHABET[rem]];
    }
    NoDigits(str);
    ghost var digits := str;
    var p := 0;
    assert digits + Repeat(ALPHABET[0], 0) == digits;
    while p < |b| && b[p] == 0
      invariant 0 <= p <= |b| && str == digits + Repeat(ALPHABET[0], p) && forall i :: 0 <= i < p ==> b[i] == 0
    {
      OneMore(digits, ALPHABET[0], p);
      str := str + [ALPHABET[0]];
      p := p + 1;
    }
    LeadingIs(b, 0, p);
    ZerosFirst(digits, ALPHABET[0], p);
    str := Reversed(str);
  }

  lemma OneMore<T>(s: seq<T>, x: T, n: nat)
    ensures s + Repeat(x, n) + [x] == s + Repeat(x, n + 1)
  {
    assert Repeat(x, n) + [x] == Repeat(x, n + 1);
  }

  lemma ZerosFirst<T>(s: seq<T>, x: T, n: nat)
    ensures Reversed(s + Repeat(x, n)) == Repeat(x, n) + Reversed(s)
  {
  }

  lemma Nothing(n: nat)
    ensures Chars(Digits58(n)) + Reversed("") == Chars(Digits58(n))
  {
  }

  lemma NoDigits(str: string)
    ensures Chars(Digits58(0)) + Reversed(str) == Reversed(str)
  {
  }

  lemma DigitsStep(n: nat)
    requires n > 0
    ensures Digits58(n) == Digits58(n / 58) + [n % 58]
  {
  }

  lemma LastDigit(n: nat, str: string)
    requires n > 0
    ensures Chars(Digits58(n / 58)) + Reversed(str + [ALPHABET[n % 58]]) == Chars(Digits58(n)) + Reversed(str)
  {
    hide Digits58;
    DigitsStep(n);
    assert Chars(Digits58(n / 58) + [n % 58]) == Chars(Digits58(n / 58)) + [ALPHABET[n % 58]];
    assert Reversed(str + [ALPHABET[n % 58]]) == [ALPHABET[n % 58]] + Reversed(str);
  }

  /** The first place from i on that is no white space. */
  function Skip(s: string, i: nat): (j: nat)
    requires i <= |s|
    ensures i <= j <= |s| && (j < |s| ==> !IsSpace(s[j])) && forall k :: i <= k < j ==> IsSpace(s[k])
    decreases |s| - i
  {
    if i < |s| && IsSpace(s[i]) then Skip(s, i + 1) else i
  }

  /** The first place from i on that is not in the alphabet. */
  function End(s: string, i: nat): (j: nat)
    requires i <= |s|
    ensures i <= j <= |s| && (j < |s| ==> IndexOf(s[j]) < 0) && forall k :: i <= k < j ==> IndexOf(s[k]) >= 0
    decreases |s| - i
  {
    if i < |s| && IndexOf(s[i]) >= 0 then End(s, i + 1) else i
  }

  /** What is accepted: a text over the alphabet between white space. */
  function Decoded(s: string): Option<seq<byte>> {
    var a := Skip(s, 0);
    var b := End(s, a);
    if Skip(s, b) < |s| then None else Some(Bytes58(s[a..b]))
  }

  predicate Blank(s: string) { forall i :: 0 <= i < |s| ==> IsSpace(s[i]) }

  /** White space around a text over the alphabet does not matter. */
  lemma DecodedBetween(u: string, t: string, w: string)
    requires Blank(u) && InAlphabet(t) && Blank(w)
    ensures Decoded(u + t + w) == Some(Bytes58(t))
  {
    hide IndexOf, Bytes58, Skip, End, IsSpace;
    var s, a, b := u + t + w, |u|, |u| + |t|;
    Parts(u, t, w);
    if t != [] {
      SkipIs(s, 0, a);
      EndIs(s, a, b);
      SkipIs(s, b, |s|);
    } else {
      SkipIs(s, 0, |s|);
      EndIs(s, |s|, |s|);
      SkipIs(s, |s|, |s|);
    }
  }

  lemma Parts(u: string, t: string, w: string)
    requires Blank(u) && InAlphabet(t) && Blank(w)
    ensures var s, a, b := u + t + w, |u|, |u| + |t|;
      && (forall k :: 0 <= k < a ==> IsSpace(s[k])) && (forall k :: a <= k < b ==> IndexOf(s[k]) >= 0)
      && (forall k :: b <= k < |s| ==> IsSpace(s[k]))
      && s[a..b] == t && s[|s|..|s|] == [] && (t != [] ==> !IsSpace(s[a])) && (w != [] ==> IndexOf(s[b]) < 0)
  {
    hide IndexOf, IsSpace;
    var s, a, b := u + t + w, |u|, |u| + |t|;
    AllSpaces(s, u, 0);
    AllSpaces(s, w, b);
    forall k | a <= k < b ensures IndexOf(s[k]) >= 0 { assert s[k] == t[k - a]; }
    if t != [] { FirstSolid(t); }
    if w != [] { SpaceOutside(s[b]); }
    assert s[a..b] == t;
  }

  lemma AllSpaces(s: string, w: string, b: nat)
    requires Blank(w) && b + |w| <= |s| && forall i :: 0 <= i < |w| ==> s[b + i] == w[i]
    ensures forall k :: b <= k < b + |w| ==> IsSpace(s[k])
  {
    forall k | b <= k < b + |w| ensures IsSpace(s[k]) { assert s[b + (k - b)] == w[k - b]; }
  }

  lemma FirstSolid(t: string)
    requires t != [] && InAlphabet(t)
    ensures !IsSpace(t[0])
  {
    if IsSpace(t[0]) { SpaceOutside(t[0]); }
  }

  lemma {:induction false} SkipIs(s: string, i: nat, j: nat)
    requires i <= j <= |s| && (forall k :: i <= k < j ==> IsSpace(s[k])) && (j < |s| ==> !IsSpace(s[j]))
    ensures Skip(s, i) == j
    decreases j - i
  {
    if i < j { SkipIs(s, i + 1, j); }
  }

  lemma {:induction false} EndIs(s: string, i: nat, j: nat)
    requires i <= j <= |s| && (forall k :: i <= k < j ==> IndexOf(s[k]) >= 0) && (j < |s| ==> IndexOf(s[j]) < 0)
    ensures End(s, i) == j
    decreases j - i
  {
    hide IndexOf;
    if i < j { EndIs(s, i + 1, j); }
  }

  /** Nothing else is accepted. */
  lemma DecodedOnly(s: string) returns (u: string, t: string, w: string)
    requires Decoded(s).Some?
    ensures s == u + t + w && Blank(u) && InAlphabet(t) && Blank(w)
  {
    hide IndexOf, Bytes58, Skip, End, IsSpace;
    var a := Skip(s, 0);
    var b := End(s, a);
    u, t, w := s[..a], s[a..b], s[b..];
  }

  method SkipSpaces(psz: string, i: nat) returns (p: nat)
    requires i <= |psz|
    ensures p == Skip(psz, i)
  {
    hide IsSpace;
    p := i;
    while p < |psz| && IsSpace(psz[p])
      invariant i <= p <= |psz| && Skip(psz, p) == Skip(psz, i)
    {
      p := p + 1;
    }
  }

  method ReadDigits(psz: string, start: nat) returns (p: nat, bn: nat)
    requires start <= |psz|
    ensures p == End(psz, start) && InAlphabet(psz[start..p]) && bn == Value58(Indexes(psz[start..p]))
  {
    hide IndexOf, Value58, Indexes;
    p, bn := start, 0;
    assert psz[start..start] == [];
    NoValue();
    while p < |psz| && IndexOf(psz[p]) >= 0
      invariant start <= p <= |psz| && End(psz, p) == End(psz, start)
      invariant InAlphabet(psz[start..p]) && bn == Value58(Indexes(psz[start..p]))
    {
      var bnChar := IndexOf(psz[p]);
      NextDigit(psz[start..p], psz[p]);
      assert psz[start..p + 1] == psz[start..p] + [psz[p]];
      bn := bn * 58;
      bn := bn + bnChar;
      p := p + 1;
    }
  }

  /** Reads the number the characters stand for and restores the leading zeros. */
  method DecodeBase58(psz: string) returns (r: Option<seq<byte>>)
    ensures r == Decoded(psz)
  {
    hide IndexOf, Value58, Bytes58, Skip, End, Indexes;
    var start := SkipSpaces(psz, 0);
    var p, bn := ReadDigits(psz, start);
    var q := SkipSpaces(psz, p);
    if q < |psz| { return None; }
    var out := Assemble(psz[start..p], bn);
    r := Some(out);
  }

  lemma NoValue()
    ensures InAlphabet("") && Value58(Indexes("")) == 0
  {
  }

  lemma NextDigit(s: string, c: char)
    requires InAlphabet(s) && IndexOf(c) >= 0
    ensures InAlphabet(s + [c]) && Value58(Indexes(s + [c])) == 58 * Value58(Indexes(s)) + IndexOf(c)
  {
    assert Indexes(s + [c])[..|s|] == Indexes(s);
  }

  /** A space is not in the alphabet. */
  lemma SpaceOutside(c: char)
    requires IsSpace(c)
    ensures IndexOf(c) == -1
  {
    if IndexOf(c) >= 0 { Printable(IndexOf(c)); }
  }

  lemma Printable(d: Digit)
    ensures ALPHABET[d] >= '1'
  {
    CharAt(d);
  }

  /** Takes the bytes of the number, least significant first, cuts off the byte that only holds the sign, and
      puts them behind the leading zeros, most significant first. */
  method Assemble(s: string, bn: nat) returns (vchRet: seq<byte>)
    requires InAlphabet(s) && bn == Value58(Indexes(s))
    ensures vchRet == Bytes58(s)
  {
    hide Value58, IndexOf, Digits, Leading;
    var vchTmp := Reversed(Mpi(bn));
    if |vchTmp| >= 2 && vchTmp[|vchTmp| - 1] == 0 && vchTmp[|vchTmp| - 2] >= 0x80 {
      vchTmp := vchTmp[..|vchTmp| - 1];
    }
    assert Reversed(vchTmp) == Digits(bn);
    var nLeadingZeros := 0;
    while nLeadingZeros < |s| && s[nLeadingZeros] == ALPHABET[0]
      invariant 0 <= nLeadingZeros <= |s| && forall i :: 0 <= i < nLeadingZeros ==> s[i] == ALPHABET[0]
    {
      nLeadingZeros := nLeadingZeros + 1;
    }
    LeadingIs(s, ALPHABET[0], nLeadingZeros);
    vchRet := Repeat(0, nLeadingZeros) + Reversed(vchTmp);
  }
}
