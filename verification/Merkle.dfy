/** Merkle trees kept in one flat list, level after level, and the branches that prove a leaf. */
module Merkle {
  import opened Basics

  type Hash = int
  type Pair = (Hash, Hash) -> Hash

  ghost predicate Injective(h: Pair) {
    forall a, b, c, d :: h(a, b) == h(c, d) ==> a == c && b == d
  }

  /* ---- what the tree is ---- */

  function Half(n: nat): nat { (n + 1) / 2 }

  /** The i-th hash of the next level: the last one of a level of odd length is paired with itself. */
  function Up(h: Pair, s: seq<Hash>, i: nat): Hash
    requires 2 * i < |s|
  {
    h(s[2 * i], s[Min(2 * i + 1, |s| - 1)])
  }

  function Level(h: Pair, s: seq<Hash>): (r: seq<Hash>)
    ensures |r| == Half(|s|) && forall i :: 0 <= i < |r| ==> r[i] == Up(h, s, i)
  {
    seq(Half(|s|), i requires 0 <= i < Half(|s|) => Up(h, s, i))
  }

  function Tree(h: Pair, s: seq<Hash>): seq<Hash>
    decreases |s|
  {
    if |s| <= 1 then s else s + Tree(h, Level(h, s))
  }

  function Root(h: Pair, s: seq<Hash>): Hash
    decreases |s|
  {
    if s == [] then 0 else if |s| == 1 then s[0] else Root(h, Level(h, s))
  }

  /** The other one of a pair. */
  function Sibling(i: nat): nat { if i % 2 == 0 then i + 1 else i - 1 }

  function Branch(h: Pair, s: seq<Hash>, i: nat): seq<Hash>
    decreases |s|
  {
    if |s| <= 1 then [] else [s[Min(Sibling(i), |s| - 1)]] + Branch(h, Level(h, s), i / 2)
  }

  /** The root that a leaf and its branch give. */
  function Fold(h: Pair, x: Hash, branch: seq<Hash>, i: int): Hash
    decreases |branch|
  {
    if branch == [] then x
    else Fold(h, if i % 2 == 1 then h(branch[0], x) else h(x, branch[0]), branch[1..], i / 2)
  }

  /** The number of levels above the leaves. */
  function Depth(n: nat): nat
    decreases n
  {
    if n <= 1 then 0 else 1 + Depth(Half(n))
  }

  /* ---- what is true of it ---- */

  lemma {:induction false} TreeEndsWithRoot(h: Pair, s: seq<Hash>)
    requires s != []
    ensures Tree(h, s) != [] && Tree(h, s)[|Tree(h, s)| - 1] == Root(h, s)
    decreases |s|
  {
    if |s| > 1 { TreeEndsWithRoot(h, Level(h, s)); }
  }

  /** Every leaf with its own branch gives the root. */
  lemma {:induction false} BranchGivesRoot(h: Pair, s: seq<Hash>, i: nat)
    requires i < |s|
    ensures |Branch(h, s, i)| == Depth(|s|) && Fold(h, s[i], Branch(h, s, i), i) == Root(h, s)
    decreases |s|
  {
    hide Level, Sibling;
    if |s| > 1 {
      BranchGivesRoot(h, Level(h, s), i / 2);
      var b := Branch(h, s, i);
      assert b[1..] == Branch(h, Level(h, s), i / 2);
      PairAt(h, s, i);
    }
  }

  lemma PairAt(h: Pair, s: seq<Hash>, i: nat)
    requires i < |s| && |s| > 1
    ensures var other := s[Min(Sibling(i), |s| - 1)];
      Level(h, s)[i / 2] == if i % 2 == 1 then h(other, s[i]) else h(s[i], other)
  {
    assert Level(h, s)[i / 2] == Up(h, s, i / 2);
  }

  lemma LevelInjective(h: Pair, s: seq<Hash>, t: seq<Hash>)
    requires Injective(h) && |s| == |t| && Level(h, s) == Level(h, t)
    ensures s == t
  {
    forall i | 0 <= i < |s| ensures s[i] == t[i] {
      var k := i / 2;
      assert Level(h, s)[k] == Level(h, t)[k];
      var e := Min(2 * k + 1, |s| - 1);
      Apart(h, s[2 * k], s[e], t[2 * k], t[e]);
      assert i == 2 * k || i == e;
    }
  }

  lemma Apart(h: Pair, a: Hash, b: Hash, c: Hash, d: Hash)
    requires Injective(h) && h(a, b) == h(c, d)
    ensures a == c && b == d
  {
  }

  /** The root determines the leaves, once their number is known. */
  lemma {:induction false} RootDeterminesLeaves(h: Pair, s: seq<Hash>, t: seq<Hash>)
    requires Injective(h) && |s| == |t| && Root(h, s) == Root(h, t)
    ensures s == t
    decreases |s|
  {
    if |s| > 1 {
      RootDeterminesLeaves(h, Level(h, s), Level(h, t));
      LevelInjective(h, s, t);
    }
  }

  /** A branch of the depth of the tree that leads to the root proves that the leaf is at that place, and it is
      the leaf's own branch. */
  lemma {:induction false} BranchProvesLeaf(h: Pair, s: seq<Hash>, x: Hash, branch: seq<Hash>, i: nat)
    requires Injective(h) && i < |s| && |branch| == Depth(|s|) && Fold(h, x, branch, i) == Root(h, s)
    ensures x == s[i] && branch == Branch(h, s, i)
    decreases |s|
  {
    hide Injective, Level, Sibling;
    if |s| > 1 {
      var up := if i % 2 == 1 then h(branch[0], x) else h(x, branch[0]);
      BranchProvesLeaf(h, Level(h, s), up, branch[1..], i / 2);
      PairProves(h, s, x, branch[0], i);
      assert branch == [branch[0]] + branch[1..];
    }
  }

  lemma PairProves(h: Pair, s: seq<Hash>, x: Hash, other: Hash, i: nat)
    requires Injective(h) && i < |s| && |s| > 1 && Level(h, s)[i / 2] == if i % 2 == 1 then h(other, x) else h(x, other)
    ensures x == s[i] && other == s[Min(Sibling(i), |s| - 1)]
  {
    hide Injective;
    var k := i / 2;
    var e := Min(2 * k + 1, |s| - 1);
    assert Level(h, s)[k] == h(s[2 * k], s[e]);
    if i % 2 == 1 { Apart(h, other, x, s[2 * k], s[e]); } else { Apart(h, x, other, s[2 * k], s[e]); }
  }

  function Power(k: nat): (n: nat)
    ensures n > 0
  {
    if k == 0 then 1 else 2 * Power(k - 1)
  }

  lemma PowerHalf(k: nat)
    ensures if k == 0 then Power(k) == 1 else Power(k) > 1 && Power(k) % 2 == 0 && Half(Power(k)) == Power(k - 1)
  {
  }

  /** The root of two full halves is the hash of their roots, the left one first. */
  lemma {:induction false} RootOfHalves(h: Pair, s: seq<Hash>, t: seq<Hash>, k: nat)
    requires |s| == |t| == Power(k)
    ensures Root(h, s + t) == h(Root(h, s), Root(h, t))
    decreases k
  {
    hide Root, Level, Power;
    PowerHalf(k);
    RootUp(h, s + t);
    RootUp(h, s);
    RootUp(h, t);
    if k == 0 {
      RootOfTwo(h, s + t);
    } else {
      LevelOfHalves(h, s, t);
      RootOfHalves(h, Level(h, s), Level(h, t), k - 1);
    }
  }

  lemma RootUp(h: Pair, s: seq<Hash>)
    requires s != []
    ensures Root(h, s) == if |s| == 1 then s[0] else Root(h, Level(h, s))
  {
  }

  lemma RootOfTwo(h: Pair, s: seq<Hash>)
    requires |s| == 2
    ensures Root(h, Level(h, s)) == h(s[0], s[1])
  {
    RootUp(h, Level(h, s));
    assert Level(h, s)[0] == Up(h, s, 0);
    hide Root;
  }

  lemma LevelOfHalves(h: Pair, s: seq<Hash>, t: seq<Hash>)
    requires |s| % 2 == 0 && |t| % 2 == 0
    ensures Level(h, s + t) == Level(h, s) + Level(h, t)
  {
    var r, u, w := Level(h, s), Level(h, t), Level(h, s + t);
    forall i | 0 <= i < |w| ensures w[i] == (r + u)[i] {
      if i < |r| { assert Up(h, s + t, i) == Up(h, s, i); } else { assert Up(h, s + t, i) == Up(h, t, i - |r|); }
    }
  }

  /* ---- the number of leaves must be known ---- */

  function Constant(x: Hash, n: nat): (s: seq<Hash>)
    ensures |s| == n && forall i :: 0 <= i < n ==> s[i] == x
  {
    seq(n, _ => x)
  }

  /** A hash paired with itself, k times over. */
  function Doubled(h: Pair, x: Hash, k: nat): Hash
    decreases k
  {
    if k == 0 then x else Doubled(h, h(x, x), k - 1)
  }

  lemma {:induction false} DoubledMore(h: Pair, x: Hash, a: nat, b: nat)
    ensures Doubled(h, Doubled(h, x, a), b) == Doubled(h, x, a + b)
    decreases a
  {
    if a > 0 { DoubledMore(h, h(x, x), a - 1, b); }
  }

  /** The root of equal leaves tells no more of their number than the depth of the tree. */
  lemma {:induction false} ConstantRoot(h: Pair, x: Hash, n: nat)
    requires n > 0
    ensures Root(h, Constant(x, n)) == Doubled(h, x, Depth(n))
    decreases n
  {
    if n > 1 {
      ConstantRoot(h, h(x, x), Half(n));
      assert Level(h, Constant(x, n)) == Constant(h(x, x), Half(n));
    }
  }

  /** Lists of any two different lengths can have one root: of equal depths, by equal leaves; else, by leaves
      that are inner hashes of the deeper tree. */
  lemma SameRoot(h: Pair, m: nat, n: nat) returns (s: seq<Hash>, t: seq<Hash>)
    requires m > 0 && n > 0
    ensures |s| == m && |t| == n && Root(h, s) == Root(h, t)
    decreases Depth(m) > Depth(n)
  {
    hide Root, Doubled;
    if Depth(m) <= Depth(n) {
      var d := Depth(n) - Depth(m);
      s, t := Constant(Doubled(h, 0, d), m), Constant(0, n);
      ConstantRoot(h, Doubled(h, 0, d), m);
      ConstantRoot(h, 0, n);
      DoubledMore(h, 0, d, Depth(m));
    } else {
      t, s := SameRoot(h, n, m);
    }
  }

  /** So the root determines the leaves exactly among lists of one length. */
  lemma RootDeterminesIff(h: Pair, m: nat, n: nat)
    requires Injective(h) && m > 0 && n > 0
    ensures (forall s, t :: |s| == m && |t| == n && Root(h, s) == Root(h, t) ==> s == t) <==> m == n
  {
    hide Injective, Root;
    if m == n {
      forall s, t | |s| == m && |t| == n && Root(h, s) == Root(h, t) ensures s == t {
        RootDeterminesLeaves(h, s, t);
      }
    } else {
      var s, t := SameRoot(h, m, n);
      assert s != t;
    }
  }

  /** The case that comes about by itself: repeating the last leaf of a list of odd length keeps the root. */
  lemma RepeatedLeaf(h: Pair, s: seq<Hash>)
    requires |s| % 2 == 1 && |s| > 1
    ensures Root(h, s + [s[|s| - 1]]) == Root(h, s)
  {
    var t := s + [s[|s| - 1]];
    forall i | 0 <= i < Half(|s|) ensures Level(h, t)[i] == Level(h, s)[i] {
      assert Up(h, t, i) == Up(h, s, i);
    }
    assert Level(h, t) == Level(h, s);
  }

  lemma Begin(h: Pair, s: seq<Hash>)
    ensures s == s[..0] + s && s[..0] + Tree(h, s) == Tree(h, s)
  {
    assert [] + s == s && [] + Tree(h, s) == Tree(h, s);
  }

  lemma NextLevel(h: Pair, below: seq<Hash>, level: seq<Hash>)
    requires |level| > 1
    ensures below + Tree(h, level) == (below + level) + Tree(h, Level(h, level))
  {
  }

  lemma TreeStep(h: Pair, level: seq<Hash>)
    requires |level| > 1
    ensures |level| <= |Tree(h, level)| && Tree(h, level)[|level|..] == Tree(h, Level(h, level))
    ensures forall i :: 0 <= i < |level| ==> Tree(h, level)[i] == level[i]
  {
    hide Level;
  }

  lemma BranchStep(h: Pair, above: seq<Hash>, level: seq<Hash>, i: nat)
    requires |level| > 1
    ensures above + Branch(h, level, i) ==
      (above + [level[Min(Sibling(i), |level| - 1)]]) + Branch(h, Level(h, level), i / 2)
  {
  }

  lemma BranchEnds(h: Pair, level: seq<Hash>, i: nat)
    requires |level| <= 1
    ensures Branch(h, level, i) == []
  {
  }

  lemma Ends(h: Pair, below: seq<Hash>, level: seq<Hash>)
    requires |level| <= 1
    ensures below + Tree(h, level) == below + level
  {
  }

  lemma RootOfNone(h: Pair, s: seq<Hash>)
    ensures s == [] ==> Root(h, s) == 0 && Tree(h, s) == []
  {
  }

  /* ---- the loops ---- */

  class Block {
    const h: Pair
    const vtx: seq<Hash>
    var vMerkleTree: seq<Hash>

    /** The tree is not built yet, or it is the tree of the transactions. */
    predicate Valid()
      reads this
    {
      vMerkleTree == [] || vMerkleTree == Tree(h, vtx)
    }

    constructor (h: Pair, vtx: seq<Hash>)
      ensures this.h == h && this.vtx == vtx && vMerkleTree == []
    {
      this.h, this.vtx := h, vtx;
      vMerkleTree := [];
    }

    method BuildMerkleTree() returns (root: Hash)
      modifies this
      ensures Valid() && vMerkleTree == Tree(h, vtx) && root == Root(h, vtx)
    {
      hide Tree, Root, Level;
      vMerkleTree := vtx;
      var j, nSize := 0, |vtx|;
      ghost var level := vtx;
      Begin(h, vtx);
      while nSize > 1
        invariant 0 <= j && |level| == nSize && j + nSize == |vMerkleTree| && vMerkleTree == vMerkleTree[..j] + level
        invariant vMerkleTree[..j] + Tree(h, level) == Tree(h, vtx)
        decreases nSize
      {
        ghost var was := vMerkleTree;
        assert vMerkleTree[j..] == level;
        AppendLevel(j, nSize);
        NextLevel(h, was[..j], level);
        j := j + nSize;
        nSize := (nSize + 1) / 2;
        level := Level(h, level);
        assert vMerkleTree[..j] == was;
      }
      Ends(h, vMerkleTree[..j], level);
      if vtx != [] { TreeEndsWithRoot(h, vtx); }
      root := if vMerkleTree == [] then 0 else vMerkleTree[|vMerkleTree| - 1];
      RootOfNone(h, vtx);
    }

    /** Appends the hashes of the pairs of the level that begins at j. */
    method AppendLevel(j: nat, nSize: nat)
      requires j + nSize == |vMerkleTree|
      modifies this
      ensures vMerkleTree == old(vMerkleTree) + Level(h, old(vMerkleTree)[j..])
    {
      ghost var was, level := vMerkleTree, vMerkleTree[j..];
      assert |Level(h, level)| == Half(nSize);
      var i := 0;
      ghost var k := 0;
      while i < nSize
        invariant 0 <= i <= nSize + 1 && i == 2 * k
        invariant k <= |Level(h, level)| && vMerkleTree == was + Level(h, level)[..k]
        decreases nSize - i
      {
        var i2 := Min(i + 1, nSize - 1);
        assert vMerkleTree[j + i] == level[i] && vMerkleTree[j + i2] == level[i2];
        assert Level(h, level)[..k + 1] == Level(h, level)[..k] + [Up(h, level, k)];
        k := k + 1;
        vMerkleTree := vMerkleTree + [h(vMerkleTree[j + i], vMerkleTree[j + i2])];
        i := i + 2;
      }
    }

    method GetMerkleBranch(nIndex0: nat) returns (vMerkleBranch: seq<Hash>)
      requires Valid()
      modifies this
      ensures Valid() && vMerkleBranch == Branch(h, vtx, nIndex0)
    {
      hide Tree, Branch, Level;
      if vMerkleTree == [] { var _ := BuildMerkleTree(); }
      vMerkleBranch := [];
      var nIndex, j, nSize := nIndex0, 0, |vtx|;
      ghost var level := vtx;
      assert vMerkleTree[0..] == vMerkleTree && [] + Branch(h, vtx, nIndex) == Branch(h, vtx, nIndex);
      while nSize > 1
        invariant nIndex >= 0 && 0 <= j <= |vMerkleTree| && |level| == nSize && vMerkleTree[j..] == Tree(h, level)
        invariant vMerkleBranch + Branch(h, level, nIndex) == Branch(h, vtx, nIndex0)
        invariant vMerkleTree == Tree(h, vtx)
        decreases nSize
      {
        var i := Min(Sibling(nIndex), nSize - 1);
        TreeStep(h, level);
        BranchStep(h, vMerkleBranch, level, nIndex);
        assert vMerkleTree[j..][i] == level[i] && vMerkleTree[j..][nSize..] == vMerkleTree[j + nSize..];
        vMerkleBranch := vMerkleBranch + [vMerkleTree[j + i]];
        nIndex := nIndex / 2;
        j := j + nSize;
        nSize := (nSize + 1) / 2;
        level := Level(h, level);
      }
      BranchEnds(h, level, nIndex);
      assert vMerkleBranch + [] == vMerkleBranch;
    }

    /** An index of -1 stands for a transaction that is in no block. */
    static method CheckMerkleBranch(h: Pair, hash0: Hash, vMerkleBranch: seq<Hash>, nIndex0: int) returns (hash: Hash)
      ensures hash == if nIndex0 == -1 then 0 else Fold(h, hash0, vMerkleBranch, nIndex0)
    {
      if nIndex0 == -1 { return 0; }
      hash := hash0;
      var nIndex, n := nIndex0, 0;
      while n < |vMerkleBranch|
        invariant 0 <= n <= |vMerkleBranch|
        invariant Fold(h, hash, vMerkleBranch[n..], nIndex) == Fold(h, hash0, vMerkleBranch, nIndex0)
      {
        var otherside := vMerkleBranch[n];
        assert vMerkleBranch[n..][1..] == vMerkleBranch[n + 1..];
        if nIndex % 2 == 1 {
          hash := h(otherside, hash);
        } else {
          hash := h(hash, otherside);
        }
        nIndex := nIndex / 2;
        n := n + 1;
      }
    }
  }
}
