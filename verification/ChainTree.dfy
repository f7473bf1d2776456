/** The tree of blocks: lines of ancestors, the fork of two lines, and the links along the main chain. */
module ChainTree {
  import opened Basics
  import opened ChainModel
  import opened ChainSupply
  import opened ChainRuns
  import opened ChainDb
  import opened ChainBlocks
  import opened ChainReorg
  import opened MedianTime

  /* ---- lines of ancestors ---- */

  lemma {:induction false} LineAt(p: BlockIndex, i: nat)
    requires p.Linked() && i < |p.Line()|
    ensures var a := p.Line()[i];
      a.Linked() && a.rec.nHeight == i && a.Line() == p.Line()[..i + 1] && (i > 0 ==> a.pprev == p.Line()[i - 1])
    decreases p.rec.nHeight
  {
    if i < p.rec.nHeight {
      LineAt(p.pprev, i);
    }
  }

  ghost predicate IsAncestor(a: BlockIndex, p: BlockIndex)
    requires p.Linked()
  {
    a in p.Line()
  }

  lemma AncestorAt(a: BlockIndex, p: BlockIndex)
    requires p.Linked() && IsAncestor(a, p)
    ensures a.Linked() && a.rec.nHeight <= p.rec.nHeight && p.Line()[a.rec.nHeight] == a
    ensures a.Line() == p.Line()[..a.rec.nHeight + 1]
  {
    var i :| 0 <= i < |p.Line()| && p.Line()[i] == a;
    LineAt(p, i);
  }

  /** The successor of n on the line to tip, or null. */
  ghost function NextOn(tip: BlockIndex, n: BlockIndex): BlockIndex?
    requires tip.Linked()
  {
    if IsAncestor(n, tip) && n != tip then (AncestorAt(n, tip); tip.Line()[n.rec.nHeight + 1]) else null
  }

  /** Extending the line by one node changes the successor of the old tip only. */
  lemma NextOnChild(tip: BlockIndex, child: BlockIndex, n: BlockIndex)
    requires child.Linked() && child.pprev == tip
    ensures NextOn(child, n) == if n == tip then child else NextOn(tip, n)
  {
    if IsAncestor(n, tip) { AncestorAt(n, tip); }
    if IsAncestor(n, child) { AncestorAt(n, child); }
    assert tip.Line()[tip.rec.nHeight] == tip;
  }

  /* ---- the fork ---- */

  /** Walks the two lines down until they meet; the result is the lowest common ancestor. */
  method FindFork(pindexBest: BlockIndex, pindexNew: BlockIndex) returns (pfork: BlockIndex?)
    requires pindexBest.Linked() && pindexNew.Linked()
    ensures pfork != null ==> IsAncestor(pfork, pindexBest) && IsAncestor(pfork, pindexNew) && pfork.Linked()
    ensures pfork != null ==> forall n :: IsAncestor(n, pindexBest) && IsAncestor(n, pindexNew) ==> IsAncestor(n, pfork)
    ensures pfork == null ==> forall n :: IsAncestor(n, pindexBest) ==> !IsAncestor(n, pindexNew)
  {
    var f: BlockIndex, plonger: BlockIndex := pindexBest, pindexNew;
    while f != plonger
      invariant f.Linked() && plonger.Linked()
      invariant IsAncestor(f, pindexBest) && IsAncestor(plonger, pindexNew)
      invariant forall n :: IsAncestor(n, pindexBest) && IsAncestor(n, pindexNew) ==>
        IsAncestor(n, f) && IsAncestor(n, plonger)
      decreases f.rec.nHeight + plonger.rec.nHeight
    {
      ghost var was := plonger.rec.nHeight;
      while plonger.rec.nHeight > f.rec.nHeight
        invariant plonger.Linked() && IsAncestor(plonger, pindexNew)
        invariant forall n :: IsAncestor(n, pindexBest) && IsAncestor(n, pindexNew) ==>
          IsAncestor(n, f) && IsAncestor(n, plonger)
        invariant plonger.rec.nHeight <= was
        decreases plonger.rec.nHeight
      {
        NotAboveItself(plonger, f);
        ParentIsAncestor(plonger, pindexNew);
        plonger := plonger.pprev;
      }
      if f == plonger { break; }
      NotAboveItself(f, plonger);
      if f.pprev == null { return null; }
      ParentIsAncestor(f, pindexBest);
      f := f.pprev;
    }
    pfork := f;
  }

  lemma NotAboveItself(a: BlockIndex, p: BlockIndex)
    requires a.Linked() && p.Linked() && a != p && a.rec.nHeight >= p.rec.nHeight
    ensures !IsAncestor(a, p)
  {
    if IsAncestor(a, p) { AncestorAt(a, p); }
  }

  lemma ParentIsAncestor(a: BlockIndex, p: BlockIndex)
    requires a.Linked() && p.Linked() && IsAncestor(a, p) && a.pprev != null
    ensures IsAncestor(a.pprev, p)
  {
    AncestorAt(a, p);
    LineAt(p, a.rec.nHeight);
  }

  /* ---- what reorganizing does to the transaction index ---- */

  /** Length of the longest common prefix of two lines: one more than the height of the fork. */
  ghost function Common(a: seq<BlockIndex>, b: seq<BlockIndex>): (n: nat)
    ensures n <= |a| && n <= |b| && a[..n] == b[..n]
    ensures n < |a| && n < |b| ==> a[n] != b[n]
  {
    if a == [] || b == [] || a[0] != b[0] then 0 else 1 + Common(a[1..], b[1..])
  }

  lemma {:induction false} CommonAtLeast(a: seq<BlockIndex>, b: seq<BlockIndex>, k: nat)
    requires k <= |a| && k <= |b| && a[..k] == b[..k]
    ensures Common(a, b) >= k
  {
    if k > 0 {
      assert a[0] == a[..k][0] == b[..k][0] == b[0];
      assert a[1..][..k - 1] == a[..k][1..] && b[1..][..k - 1] == b[..k][1..];
      CommonAtLeast(a[1..], b[1..], k - 1);
    }
  }

  /** Where two lines agree, they do so on an ancestor of both. */
  lemma SharedAncestor(a: BlockIndex, b: BlockIndex, n: nat)
    requires a.Linked() && b.Linked() && 0 < n <= |a.Line()| && n <= |b.Line()| && a.Line()[..n] == b.Line()[..n]
    ensures var deep := a.Line()[n - 1];
      IsAncestor(deep, a) && IsAncestor(deep, b) && deep.Linked() && deep.rec.nHeight == n - 1
  {
    hide BlockIndex.Linked, BlockIndex.Line;
    LineAt(a, n - 1);
    assert a.Line()[n - 1] == a.Line()[..n][n - 1] == b.Line()[..n][n - 1] == b.Line()[n - 1];
  }

  lemma ForkIsCommon(a: BlockIndex, b: BlockIndex, fork: BlockIndex)
    requires a.Linked() && b.Linked() && IsAncestor(fork, a) && IsAncestor(fork, b) && fork.Linked()
    requires forall n :: IsAncestor(n, a) && IsAncestor(n, b) ==> IsAncestor(n, fork)
    ensures Common(a.Line(), b.Line()) == fork.rec.nHeight + 1
  {
    hide Common, BlockIndex.Linked, BlockIndex.Line, IsAncestor;
    var n := Common(a.Line(), b.Line());
    assert n >= fork.rec.nHeight + 1 by {
      AncestorAt(fork, a);
      AncestorAt(fork, b);
      CommonAtLeast(a.Line(), b.Line(), fork.rec.nHeight + 1);
    }
    SharedAncestor(a, b, n);
    AncestorAt(a.Line()[n - 1], fork);
  }

  lemma NoForkNoCommon(a: BlockIndex, b: BlockIndex)
    requires a.Linked() && b.Linked()
    requires forall n :: IsAncestor(n, a) ==> !IsAncestor(n, b)
    ensures Common(a.Line(), b.Line()) == 0
  {
    if Common(a.Line(), b.Line()) > 0 {
      assert a.Line()[0] == b.Line()[0];
      assert IsAncestor(a.Line()[0], a) && IsAncestor(a.Line()[0], b);
    }
  }

  /** The index after a reorganization, or None when a block cannot be read, undone or connected,
      or the two lines have no common root. */
  ghost function ReorganizedIndex(env: Env, skipSigs: bool, idx: Index, best: BlockIndex,
      new_: BlockIndex): Option<Index>
    requires best.Linked() && new_.Linked()
  {
    var keep := Common(best.Line(), new_.Line());
    if keep == 0 then None else Switch(env, skipSigs, idx, Recs(best.Line()), Recs(new_.Line()), keep)
  }

  lemma ReorganizedIs(env: Env, skipSigs: bool, idx: Index, best: BlockIndex, new_: BlockIndex, keep: nat)
    requires best.Linked() && new_.Linked() && Common(best.Line(), new_.Line()) == keep
    ensures ReorganizedIndex(env, skipSigs, idx, best, new_) ==
      if keep == 0 then None
      else
        match DisconnectTo(env, idx, Recs(best.Line()), keep)
        case None => None
        case Some(d) => ConnectFrom(env, skipSigs, d, Recs(new_.Line()), keep)
  {
    hide Common, DisconnectTo, ConnectFrom, Recs;
  }

  /** What decides, before anything is done, whether a reorganization succeeds: the lines meet, the blocks down
      to the fork can be read and their inputs' records are there and not made again further up, and the blocks
      from the fork on connect to what is left. */
  ghost predicate CanReorganize(env: Env, skipSigs: bool, idx: Index, best: BlockIndex, new_: BlockIndex)
    requires best.Linked() && new_.Linked()
  {
    var keep := Common(best.Line(), new_.Line());
    && keep > 0 && CanUndoTo(env, idx, Recs(best.Line()), keep)
    && match DisconnectTo(env, idx, Recs(best.Line()), keep)
       case None => false
       case Some(d) => ConnectFrom(env, skipSigs, d, Recs(new_.Line()), keep).Some?
  }

  lemma ReorganizesIff(env: Env, skipSigs: bool, idx: Index, best: BlockIndex, new_: BlockIndex)
    requires best.Linked() && new_.Linked() && Inv(env, State(idx, Recs(best.Line())))
    ensures ReorganizedIndex(env, skipSigs, idx, best, new_).Some? <==> CanReorganize(env, skipSigs, idx, best, new_)
  {
    hide Inv, DisconnectTo, ConnectFrom, CanUndoTo;
    var keep := Common(best.Line(), new_.Line());
    if keep > 0 { UndoSucceedsIff(env, State(idx, Recs(best.Line())), keep); }
  }

  /** All the blocks of the line to new_ connect: those a reorganization connects, and then the postponed ones. */
  ghost predicate Completes(env: Env, skipSigs: bool, idx: Index, best: BlockIndex, new_: BlockIndex)
    requires best.Linked() && new_.Linked()
  {
    var mid := Intermediate(best, new_);
    AncestorAt(mid, new_);
    match ReorganizedIndex(env, skipSigs, idx, best, mid)
    case None => false
    case Some(r) => ConnectFrom(env, skipSigs, r, Recs(new_.Line()), mid.rec.nHeight + 1).Some?
  }

  /** What making new_ the best block comes to, or None when it is refused: how many blocks of its line are then
      connected, and the index. It is connected if it extends the best; otherwise the lines are switched and the
      postponed blocks connected as far as they go. */
  ghost function BestIndex(env: Env, skipSigs: bool, idx: Index, best: BlockIndex,
      new_: BlockIndex): Option<(nat, Index)>
    requires best.Linked() && new_.Linked()
  {
    if new_.pprev == best then
      match ChainModel.ConnectBlock(env, Recs(best.Line()), skipSigs, idx, new_.rec)
      case None => None
      case Some(c) => Some((new_.rec.nHeight + 1, c))
    else
      var mid := Intermediate(best, new_);
      AncestorAt(mid, new_);
      match ReorganizedIndex(env, skipSigs, idx, best, mid)
      case None => None
      case Some(r) => Some(AsFar(env, skipSigs, r, Recs(new_.Line()), mid.rec.nHeight + 1))
  }

  /* ---- the links of the main chain ---- */

  /** pnext of every node agrees with the line to tip. */
  ghost predicate MemLinks(nodes: set<BlockIndex>, tip: BlockIndex)
    requires tip.Linked()
    reads nodes
  {
    forall n :: n in nodes ==> n.pnext == NextOn(tip, n)
  }

  function HashOf(n: BlockIndex?): Hash { if n == null then 0 else n.rec.block.hash }

  /** hashNext of every disk record agrees with the line to tip. */
  ghost predicate DiskLinks(nodes: set<BlockIndex>, hashNext: map<Hash, Hash>, tip: BlockIndex)
    requires tip.Linked()
  {
    forall n :: n in nodes ==> n.rec.block.hash in hashNext && hashNext[n.rec.block.hash] == HashOf(NextOn(tip, n))
  }

  const GENESIS_TIME: nat := 1390207760
  const TESTNET_GENESIS_TIME: nat := 1389937920

  predicate IsGenesisTime(nTime: nat) { nTime == GENESIS_TIME || nTime == TESTNET_GENESIS_TIME }

  /** The node is a genesis block; or its parent is in the tree, the block is in the block files, and it is
      dated after the median of the blocks before it. */
  ghost predicate HasParent(env: Env, nodes: set<BlockIndex>, n: BlockIndex) {
    if n.pprev == null then IsGenesisTime(n.rec.nTime)
    else n.pprev in nodes && n.pprev.Linked() && Stored(env, n.rec) && n.rec.nTime > Median(Times(n.pprev.Line()))
  }

  /** A tree of nodes, closed under pprev, with one node for each block hash. */
  ghost predicate Tree(env: Env, nodes: set<BlockIndex>) {
    && (forall n :: n in nodes ==> n.Linked())
    && (forall n {:trigger HasParent(env, nodes, n)} :: n in nodes ==> HasParent(env, nodes, n))
    && (forall m, n :: m in nodes && n in nodes && m.rec.block.hash == n.rec.block.hash ==> m == n)
  }

  /** Along every line the times are those of accepted blocks. */
  lemma {:induction false} LineAccepted(env: Env, nodes: set<BlockIndex>, p: BlockIndex)
    requires Tree(env, nodes) && p in nodes
    ensures p.Linked() && Accepted(Times(p.Line())) && IsGenesisTime(p.Line()[0].rec.nTime)
    decreases p.rec.nHeight
  {
    hide Median, Stored;
    assert HasParent(env, nodes, p);
    if p.pprev != null {
      LineAccepted(env, nodes, p.pprev);
      var times, before := Times(p.Line()), Times(p.pprev.Line());
      assert times == before + [p.rec.nTime];
      forall i | 0 < i < |times| ensures times[i] > Median(times[..i]) {
        if i < |before| { assert times[..i] == before[..i]; } else { assert times[..i] == before; }
      }
    }
  }

  /** A time after the median of a line is after genesis, and so after BIP 30 came into force. */
  lemma AfterMedian(env: Env, nodes: set<BlockIndex>, p: BlockIndex, nTime: nat)
    requires Tree(env, nodes) && p in nodes && p.Linked() && nTime > Median(Times(p.Line()))
    ensures nTime > BIP30_SWITCH_TIME
  {
    hide Accepted, Median, Tree;
    LineAccepted(env, nodes, p);
    var times := Times(p.Line());
    MedianNeverDecreases(times, 1, |times|);
    MedianOfOne(times[0]);
    assert times[..1] == [times[0]] && times[..|times|] == times;
  }

  /** Every block after genesis is dated after BIP 30 came into force. */
  lemma AfterGenesis(env: Env, nodes: set<BlockIndex>, p: BlockIndex)
    requires Tree(env, nodes) && p in nodes && p.pprev != null
    ensures EnforceBIP30(p.rec) && Legit(env, p.rec)
  {
    hide Median, Times;
    assert HasParent(env, nodes, p);
    AfterMedian(env, nodes, p.pprev, p.rec.nTime);
  }

  lemma {:induction false} LineInTree(env: Env, nodes: set<BlockIndex>, p: BlockIndex, i: nat)
    requires Tree(env, nodes) && p in nodes && i < |p.Line()|
    ensures p.Line()[i] in nodes
    decreases p.rec.nHeight
  {
    assert HasParent(env, nodes, p);
    if i < p.rec.nHeight {
      LineInTree(env, nodes, p.pprev, i);
    }
  }

  /** The node above p on the line to tip. */
  lemma StepUp(env: Env, nodes: set<BlockIndex>, tip: BlockIndex, p: BlockIndex)
    requires Tree(env, nodes) && tip in nodes && p.rec.nHeight < tip.rec.nHeight && p == tip.Line()[p.rec.nHeight]
    ensures var next := tip.Line()[p.rec.nHeight + 1];
      && next in nodes && next.Linked() && next.pprev == p && next.rec.nHeight == p.rec.nHeight + 1
      && p in nodes && p.Linked()
      && Recs(tip.Line())[..p.rec.nHeight + 1] == Recs(p.Line())
      && Recs(tip.Line())[p.rec.nHeight + 1] == next.rec
  {
    LineAt(tip, p.rec.nHeight + 1);
    LineAt(tip, p.rec.nHeight);
    LineInTree(env, nodes, tip, p.rec.nHeight + 1);
    LineInTree(env, nodes, tip, p.rec.nHeight);
  }

  lemma StepDown(env: Env, nodes: set<BlockIndex>, tip: BlockIndex, p: BlockIndex)
    requires Tree(env, nodes) && tip in nodes && 0 < p.rec.nHeight <= tip.rec.nHeight && p == tip.Line()[p.rec.nHeight]
    ensures p.Linked() && p.pprev != null && p.pprev in nodes && p.pprev.rec.nHeight == p.rec.nHeight - 1
    ensures p.pprev.Linked() && tip.Line()[p.rec.nHeight - 1] == p.pprev
  {
    LineAt(tip, p.rec.nHeight);
    LineInTree(env, nodes, tip, p.rec.nHeight - 1);
  }

  /** Rewriting the disk record of the parent when a tip is connected or disconnected. */
  lemma RelinkDisk(env: Env, nodes: set<BlockIndex>, hashNext: map<Hash, Hash>, parent: BlockIndex, child: BlockIndex)
    requires Tree(env, nodes) && child in nodes && child.pprev == parent
    ensures DiskLinks(nodes, hashNext, child) ==> DiskLinks(nodes, Relink(hashNext, child, 0), parent)
    ensures DiskLinks(nodes, hashNext, parent) ==>
      DiskLinks(nodes, Relink(hashNext, child, child.rec.block.hash), child)
  {
    TreeParent(env, nodes, child);
    forall n | n in nodes
      ensures NextOn(child, n) == if n == parent then child else NextOn(parent, n)
    {
      NextOnChild(parent, child, n);
    }
    assert NextOn(parent, parent) == null;
  }

  /** pindexNew and its ancestors down to the first whose parent has no more work than the best. */
  ghost function Intermediate(best: BlockIndex, pindexNew: BlockIndex): (p: BlockIndex)
    requires pindexNew.Linked()
    ensures p.Linked() && IsAncestor(p, pindexNew)
    decreases pindexNew.rec.nHeight
  {
    if pindexNew.pprev != null && pindexNew.pprev.nChainWork > best.nChainWork
    then Intermediate(best, pindexNew.pprev) else pindexNew
  }

  /** It is the lowest block that a chain with more work than the best needs: its parent has no more work than the
      best, and every block from it on, the new one perhaps excepted, has more. */
  lemma {:induction false} IntermediateIs(best: BlockIndex, pindexNew: BlockIndex, p: BlockIndex)
    requires pindexNew.Linked()
    ensures var mid := Intermediate(best, pindexNew);
      && (mid.pprev != null ==> mid.pprev.nChainWork <= best.nChainWork)
      && (IsAncestor(p, pindexNew) && mid.rec.nHeight <= p.rec.nHeight && p != pindexNew ==>
            p.nChainWork > best.nChainWork)
    decreases pindexNew.rec.nHeight
  {
    if pindexNew.pprev != null && pindexNew.pprev.nChainWork > best.nChainWork {
      IntermediateIs(best, pindexNew.pprev, p);
    } else if IsAncestor(p, pindexNew) {
      AncestorAt(p, pindexNew);
    }
  }

  /** So a new block with more work than the best is reached, or a block below it that has more work, too. */
  lemma ReachedWork(env: Env, skipSigs: bool, idx: Index, best: BlockIndex, new_: BlockIndex, reached: BlockIndex)
    requires best.Linked() && new_.Linked() && reached.Linked() && IsAncestor(reached, new_)
    requires new_.nChainWork > best.nChainWork
    requires var made := BestIndex(env, skipSigs, idx, best, new_);
      made.Some? && made.value.0 == reached.rec.nHeight + 1
    ensures reached.nChainWork > best.nChainWork
  {
    hide BestIndex, Intermediate;
    BestReaches(env, skipSigs, idx, best, new_);
    LineEnd(new_, reached);
    if new_.pprev != best { IntermediateIs(best, new_, reached); }
  }

  lemma BestExtends(env: Env, skipSigs: bool, idx: Index, best: BlockIndex, new_: BlockIndex)
    requires best.Linked() && new_.Linked()
    ensures new_ in new_.Line()
    ensures new_.pprev == best ==>
      var made := ChainModel.ConnectBlock(env, Recs(best.Line()), skipSigs, idx, new_.rec);
      BestIndex(env, skipSigs, idx, best, new_) ==
      if made.None? then None else Some((new_.rec.nHeight + 1, made.value))
  {
    hide ChainModel.ConnectBlock, Intermediate, ReorganizedIndex, AsFar;
  }

  lemma LineEnd(new_: BlockIndex, p: BlockIndex)
    requires new_.Linked() && p.Linked() && IsAncestor(p, new_)
    ensures p.rec.nHeight >= new_.rec.nHeight ==> p == new_
  {
    AncestorAt(p, new_);
  }

  lemma BestReaches(env: Env, skipSigs: bool, idx: Index, best: BlockIndex, new_: BlockIndex)
    requires best.Linked() && new_.Linked() && BestIndex(env, skipSigs, idx, best, new_).Some?
    ensures BestIndex(env, skipSigs, idx, best, new_).value.0 >=
      1 + if new_.pprev == best then new_.rec.nHeight else Intermediate(best, new_).rec.nHeight
  {
    hide AsFar, ReorganizedIndex, ChainModel.ConnectBlock, Intermediate, Recs;
    if new_.pprev != best {
      var mid := Intermediate(best, new_);
      AncestorAt(mid, new_);
      var r := ReorganizedIndex(env, skipSigs, idx, best, mid);
      LineLength(new_);
      AsFarIff(env, skipSigs, r.value, Recs(new_.Line()), mid.rec.nHeight + 1);
    }
  }

  lemma LineLength(p: BlockIndex)
    requires p.Linked()
    ensures |Recs(p.Line())| == p.rec.nHeight + 1
  {
  }

  /** A block hash not yet filed is the hash of no node. */
  lemma NewHash(m: map<Hash, BlockIndex>, h: Hash)
    requires h !in m && forall k :: k in m ==> m[k].rec.block.hash == k
    ensures forall n :: n in m.Values ==> n.rec.block.hash != h
  {
  }

  lemma AddToTree(env: Env, nodes: set<BlockIndex>, n: BlockIndex)
    requires nodes == {} || Tree(env, nodes)
    requires forall m :: m in nodes ==> m.rec.block.hash != n.rec.block.hash
    requires n.Linked() && HasParent(env, nodes, n)
    ensures Tree(env, nodes + {n})
    ensures nodes == {} ==> nodes + {n} == {n}
  {
    hide Median, Times, Stored;
    forall m | m in nodes + {n} ensures HasParent(env, nodes + {n}, m) {
      assert m in nodes ==> HasParent(env, nodes, m);
    }
  }

  lemma AddToDisk(nodes: set<BlockIndex>, hashNext: map<Hash, Hash>, tip: BlockIndex, n: BlockIndex)
    requires tip.Linked() && DiskLinks(nodes, hashNext, tip) && !IsAncestor(n, tip)
    requires forall m :: m in nodes ==> m.rec.block.hash != n.rec.block.hash
    ensures DiskLinks(nodes + {n}, hashNext[n.rec.block.hash := 0], tip)
  {
  }

  lemma AddToMemory(nodes: set<BlockIndex>, tip: BlockIndex, n: BlockIndex)
    requires tip.Linked() && MemLinks(nodes, tip) && !IsAncestor(n, tip) && n.pnext == null
    ensures MemLinks(nodes + {n}, tip)
  {
  }

  lemma FirstNode(env: Env, hashNext: map<Hash, Hash>, n: BlockIndex)
    requires n.Linked() && n.rec.block.hash in hashNext && hashNext[n.rec.block.hash] == 0 && n.pnext == null
    ensures DiskLinks({n}, hashNext, n) && MemLinks({n}, n)
  {
  }

  lemma NewValue(m: map<Hash, BlockIndex>, h: Hash, n: BlockIndex)
    requires h !in m
    ensures m[h := n].Values == m.Values + {n}
  {
    assert m[h := n][h] == n;
    forall v | v in m.Values ensures v in m[h := n].Values {
      var k :| k in m && m[k] == v;
      assert m[h := n][k] == v;
    }
  }

  /** A node outside the tree is on no line of the tree. */
  lemma OffTheLine(env: Env, nodes: set<BlockIndex>, tip: BlockIndex, n: BlockIndex)
    requires Tree(env, nodes) && tip in nodes && n !in nodes
    ensures !IsAncestor(n, tip)
  {
    if IsAncestor(n, tip) {
      var i :| 0 <= i < |tip.Line()| && tip.Line()[i] == n;
      LineInTree(env, nodes, tip, i);
    }
  }

  lemma GenesisInv(env: Env, genesis: BlockIndex)
    requires genesis.Linked() && genesis.pprev == null
    ensures Inv(env, State(map[], Recs(genesis.Line())))
  {
  }

  lemma NextOnChildAll(tip: BlockIndex, child: BlockIndex)
    requires child.Linked() && child.pprev == tip
    ensures forall n :: NextOn(child, n) == if n == tip then child else NextOn(tip, n)
    ensures NextOn(tip, tip) == null
  {
    forall n ensures NextOn(child, n) == if n == tip then child else NextOn(tip, n) {
      NextOnChild(tip, child, n);
    }
  }

  lemma ConnectFromEnd(env: Env, skipSigs: bool, idx: Index, line: seq<BlockRec>)
    ensures ConnectFrom(env, skipSigs, idx, line, |line|) == Some(idx)
  {
  }

  lemma ConnectFromNext(env: Env, skipSigs: bool, idx: Index, line: seq<BlockRec>, k: nat)
    requires k < |line|
    ensures ConnectFrom(env, skipSigs, idx, line, k) ==
      if !env.readable(line[k].block.hash) then None
      else match ChainModel.ConnectBlock(env, line[..k], skipSigs, idx, line[k])
        case None => None
        case Some(c) => ConnectFrom(env, skipSigs, c, line, k + 1)
  {
  }

  lemma SameHash(env: Env, nodes: set<BlockIndex>, a: BlockIndex, b: BlockIndex)
    requires Tree(env, nodes) && b in nodes
    ensures a in nodes && a.rec.block.hash == b.rec.block.hash ==> a == b
  {
  }

  lemma TreeParent(env: Env, nodes: set<BlockIndex>, p: BlockIndex)
    requires Tree(env, nodes) && p in nodes
    ensures p.Linked()
    ensures p.pprev != null ==> p.pprev in nodes && p.pprev.Linked() && Legit(env, p.rec)
  {
    assert HasParent(env, nodes, p);
    hide HasParent;
    if p.pprev != null { AfterGenesis(env, nodes, p); }
  }

  /** Undoing a block keeps every record its transaction's. */
  lemma UndoneOk(env: Env, idx: Index, block: Block)
    requires IndexOk(env, idx)
    ensures var d := ChainModel.DisconnectBlock(idx, block); d.Some? ==> IndexOk(env, d.value)
  {
    hide IndexOk;
    if ChainModel.DisconnectBlock(idx, block).Some? { DisconnectKeepsOk(env, idx, block.vtx, 0); }
  }

  lemma UndoneLine(env: Env, idx: Index, p: BlockIndex)
    requires p.Linked() && p.pprev != null
    ensures var d := ChainModel.DisconnectBlock(idx, p.rec.block);
      Inv(env, State(idx, Recs(p.Line()))) && d.Some? ==> Inv(env, State(d.value, Recs(p.pprev.Line())))
  {
    hide Inv, ChainModel.DisconnectBlock;
    LineRecs(p);
    assert Recs(p.Line())[..|Recs(p.Line())| - 1] == Recs(p.pprev.Line());
    var s := State(idx, Recs(p.Line()));
    if Inv(env, s) && ChainModel.DisconnectBlock(idx, p.rec.block).Some? { DisconnectKeepsInv(env, s); }
  }

  /** Connecting a block that is in the block files does, too. */
  lemma MadeOk(env: Env, idx: Index, child: BlockIndex, skipSigs: bool)
    requires child.Linked() && child.pprev != null && IndexOk(env, idx) && Stored(env, child.rec)
    ensures var c := ChainModel.ConnectBlock(env, Recs(child.pprev.Line()), skipSigs, idx, child.rec);
      c.Some? ==> IndexOk(env, c.value)
  {
    hide IndexOk, Stored, ChainModel.ConnectBlock, BlockIndex.Line;
    var path := Recs(child.pprev.Line());
    if ChainModel.ConnectBlock(env, path, skipSigs, idx, child.rec).Some? {
      ConnectBlockValue(env, path, skipSigs, idx, child.rec);
    }
  }

  lemma MadeLine(env: Env, idx: Index, child: BlockIndex, skipSigs: bool)
    requires child.Linked() && child.pprev != null && Legit(env, child.rec)
    ensures var c := ChainModel.ConnectBlock(env, Recs(child.pprev.Line()), skipSigs, idx, child.rec);
      Inv(env, State(idx, Recs(child.pprev.Line()))) && c.Some? ==> Inv(env, State(c.value, Recs(child.Line())))
  {
    hide Inv, ChainModel.ConnectBlock, Stored;
    LineRecs(child);
    var s := State(idx, Recs(child.pprev.Line()));
    if Inv(env, s) && ChainModel.ConnectBlock(env, s.chain, skipSigs, idx, child.rec).Some? {
      ConnectKeepsInv(env, s, child.rec, skipSigs);
    }
  }

  lemma LineBefore(child: BlockIndex)
    requires child.Linked() && child.pprev != null
    ensures child.Before() == Recs(child.pprev.Line())
  {
  }

  lemma DisconnectToNothing(env: Env, idx: Index, line: seq<BlockRec>)
    ensures DisconnectTo(env, idx, line, |line|) == Some(idx)
  {
  }

  lemma DisconnectToTip(env: Env, idx: Index, p: BlockIndex, keep: nat)
    requires p.Linked() && p.pprev != null && keep <= p.rec.nHeight
    ensures DisconnectTo(env, idx, Recs(p.Line()), keep) ==
      if !env.readable(p.rec.block.hash) then None
      else match ChainModel.DisconnectBlock(idx, p.rec.block)
        case None => None
        case Some(d) => DisconnectTo(env, d, Recs(p.pprev.Line()), keep)
  {
    LineRecs(p);
    assert Recs(p.Line())[..p.rec.nHeight] == Recs(p.pprev.Line());
  }
}
