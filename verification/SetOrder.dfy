/** Ascending iteration over a finite set of integers, as std::set and std::map give it. */
module SetOrder {

  ghost predicate Increasing(s: seq<int>) { forall i, j :: 0 <= i < j < |s| ==> s[i] < s[j] }

  lemma HasElement(s: set<int>)
    ensures s != {} ==> exists x :: x in s
  {
    if forall x :: x !in s { assert s == {}; }
  }

  lemma {:induction false} Least(s: set<int>) returns (m: int)
    requires s != {}
    ensures m in s && forall x :: x in s ==> m <= x
    decreases |s|
  {
    HasElement(s);
    m :| m in s;
    var rest := s - {m};
    if rest != {} {
      var n := Least(rest);
      if n < m { m := n; }
    }
    forall x | x in s ensures m <= x { assert x in rest || s == rest + {x}; }
  }

  lemma HasMin(s: set<int>)
    requires s != {}
    ensures exists m :: m in s && forall x :: x in s ==> m <= x
  {
    var m := Least(s);
  }

  function Min(s: set<int>): (m: int)
    requires s != {}
    ensures m in s && forall x :: x in s ==> m <= x
  {
    HasMin(s);
    var m: int :| m in s && forall x :: x in s ==> m <= x;
    m
  }

  /** The elements of the set, in ascending order. */
  function Ascending(s: set<int>): (r: seq<int>)
    ensures |r| == |s| && Increasing(r)
    ensures forall x :: x in r <==> x in s
    decreases |s|
  {
    if s == {} then []
    else
      var m := Min(s);
      assert |s - {m}| < |s|;
      [m] + Ascending(s - {m})
  }

  /** The index of a member in ascending order. */
  function IndexOf(s: set<int>, x: int): (i: int)
    requires x in s
    ensures 0 <= i < |s| && Ascending(s)[i] == x
  {
    assert x in Ascending(s);
    var i: int :| 0 <= i < |Ascending(s)| && Ascending(s)[i] == x;
    i
  }

  /** An increasing list is determined by its members. */
  lemma {:induction false} IncreasingUnique(a: seq<int>, b: seq<int>)
    requires Increasing(a) && Increasing(b) && forall x :: x in a <==> x in b
    ensures a == b
  {
    if |a| > 0 { assert a[0] in a; }
    if |b| > 0 { assert b[0] in b; }
    if |a| > 0 && |b| > 0 {
      assert a[0] == b[0];
      forall x ensures x in a[1..] <==> x in b[1..] {
        if x in a[1..] { var i :| 0 <= i < |a[1..]| && a[1..][i] == x; assert a[i + 1] == x; assert x in b; }
        if x in b[1..] { var i :| 0 <= i < |b[1..]| && b[1..][i] == x; assert b[i + 1] == x; assert x in a; }
      }
      IncreasingUnique(a[1..], b[1..]);
    }
  }
}
