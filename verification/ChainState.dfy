/** The block tree with its main chain: reorganizing, setting the best chain and accepting blocks. */
module ChainState {
  import opened Basics
  import opened ChainModel
  import opened ChainSupply
  import opened ChainRuns
  import opened ChainDb
  import opened ChainBlocks
  import opened ChainReorg
  import opened ChainTree
  import opened ChainLineRules
  import opened MedianTime

  /** The work demanded of a block after a node at a time, whether a transaction is final at a height and time, and
      whether a block may stand at a height. */
  datatype Rules = Rules(nextWork: (BlockIndex, nat) -> nat, isFinal: (Tx, nat, nat) -> bool,
                         checkpointOk: (nat, Hash) -> bool)

  predicate AllFinal(rules: Rules, vtx: seq<Tx>, nHeight: nat, nTime: nat) {
    forall i :: 0 <= i < |vtx| ==> rules.isFinal(vtx[i], nHeight, nTime)
  }

  method CheckFinal(rules: Rules, vtx: seq<Tx>, nHeight: nat, nTime: nat) returns (ok: bool)
    ensures ok == AllFinal(rules, vtx, nHeight, nTime)
  {
    var i := 0;
    while i < |vtx|
      invariant 0 <= i <= |vtx| && forall j :: 0 <= j < i ==> rules.isFinal(vtx[j], nHeight, nTime)
    {
      if !rules.isFinal(vtx[i], nHeight, nTime) { return false; }
      i := i + 1;
    }
    ok := true;
  }

  /** The best-chain globals, the block tree and the transaction database. */
  class Chain {
    const env: Env
    const hashGenesisBlock: Hash
    const db: TxDB
    var pindexGenesisBlock: BlockIndex?
    var pindexBest: BlockIndex?
    var hashBestChain: Hash
    var nBestHeight: int
    var bnBestChainWork: nat
    var mapBlockIndex: map<Hash, BlockIndex>
    ghost var nodes: set<BlockIndex>

    constructor (env: Env, hashGenesisBlock: Hash, db: TxDB)
      ensures this.env == env && this.db == db && this.hashGenesisBlock == hashGenesisBlock
      ensures Blank() && MapOk()
    {
      this.env, this.hashGenesisBlock, this.db := env, hashGenesisBlock, db;
      pindexGenesisBlock, pindexBest, hashBestChain, nBestHeight, bnBestChainWork := null, null, 0, -1, 0;
      mapBlockIndex, nodes := map[], {};
    }

    /** No block has been accepted yet. */
    predicate Blank()
      reads this
    {
      pindexGenesisBlock == null && pindexBest == null && mapBlockIndex == map[] && bnBestChainWork == 0
    }

    /** The nodes are the values of mapBlockIndex, filed under their block hashes. */
    ghost predicate MapOk()
      reads this
    {
      mapBlockIndex.Values == nodes && forall h :: h in mapBlockIndex ==> mapBlockIndex[h].rec.block.hash == h
    }

    /** Index, links and disk records all describe the line to tip, and nothing is pending. */
    ghost predicate At(tip: BlockIndex)
      reads this, nodes, db
    {
      && Tree(env, nodes) && tip in nodes
      && db.activeTxn == None
      && MemLinks(nodes, tip)
      && DiskLinks(nodes, db.committed.hashNext, tip)
      && db.committed.hashBestChain == tip.rec.block.hash
      && Inv(env, State(db.committed.txs, Recs(tip.Line())))
    }

    /** What holds whether or not a postponed reconnect has ever failed: nothing is pending, the globals are those
        of the best block, and every record of the index belongs to its transaction. */
    ghost predicate Standing()
      reads this, db
    {
      && pindexBest != null && pindexGenesisBlock != null
      && Settled() && pindexBest in nodes
      && hashBestChain == pindexBest.rec.block.hash
      && nBestHeight == pindexBest.rec.nHeight && bnBestChainWork == pindexBest.nChainWork
    }

    ghost predicate Settled()
      reads this, db
    {
      Tree(env, nodes) && db.activeTxn == None && IndexOk(env, db.committed.txs)
    }

    /** And index, links and disk records describe the line to the best block. */
    ghost predicate Valid()
      reads this, nodes, db
    {
      Standing() && At(pindexBest)
    }

    predicate IsInMainChain(n: BlockIndex)
      reads this, n
    {
      n.pnext != null || n == pindexBest
    }

    predicate SkipSigs()
      reads this
    {
      nBestHeight < env.totalBlocksEstimate
    }

    /** The nodes from p down to the fork, the fork excluded. */
    method ListDown(p: BlockIndex, fork: BlockIndex) returns (list: seq<BlockIndex>)
      requires p.Linked() && IsAncestor(fork, p) && fork.Linked()
      ensures |list| == p.rec.nHeight - fork.rec.nHeight
      ensures forall i :: 0 <= i < |list| ==> list[i] == p.Line()[p.rec.nHeight - i]
    {
      AncestorAt(fork, p);
      list := [];
      var pindex: BlockIndex := p;
      while pindex != fork
        invariant pindex.Linked() && IsAncestor(pindex, p) && pindex.rec.nHeight >= fork.rec.nHeight
        invariant |list| == p.rec.nHeight - pindex.rec.nHeight
        invariant forall i :: 0 <= i < |list| ==> list[i] == p.Line()[p.rec.nHeight - i]
        decreases pindex.rec.nHeight
      {
        AncestorAt(pindex, p);
        list := list + [pindex];
        ParentIsAncestor(pindex, p);
        pindex := pindex.pprev;
      }
    }

    /** The same nodes the other way round: from the one above the fork up to p. */
    method ListUp(p: BlockIndex, fork: BlockIndex) returns (list: seq<BlockIndex>)
      requires p.Linked() && IsAncestor(fork, p) && fork.Linked()
      ensures fork.rec.nHeight <= p.rec.nHeight && list == p.Line()[fork.rec.nHeight + 1..]
    {
      AncestorAt(fork, p);
      var down := ListDown(p, fork);
      list := seq(|down|, i requires 0 <= i < |down| => down[|down| - 1 - i]);
    }

    /** Inside the open transaction, every record of the index belongs to its transaction. */
    ghost predicate Open(p: BlockIndex)
      reads this, db
    {
      Tree(env, nodes) && p in nodes && p.Linked() && db.activeTxn.Some? && IndexOk(env, db.Current().txs)
    }

    /** And index and disk records describe the line to p. */
    ghost predicate DbAt(p: BlockIndex)
      reads this, db
    {
      Open(p) && DiskLinks(nodes, db.Current().hashNext, p) && Inv(env, State(db.Current().txs, Recs(p.Line())))
    }

    method DisconnectTip(p: BlockIndex) returns (ok: bool)
      requires Open(p) && p.pprev != null
      modifies db
      ensures db.activeTxn.Some? && db.committed == old(db.committed)
      ensures ok ==> Open(p.pprev) && (old(DbAt(p)) ==> DbAt(p.pprev))
      ensures ok ==
        (env.readable(p.rec.block.hash) && ChainModel.DisconnectBlock(old(db.Current().txs), p.rec.block).Some?)
      ensures ok ==> ChainModel.DisconnectBlock(old(db.Current().txs), p.rec.block) == Some(db.Current().txs)
    {
      hide DiskLinks, Inv, Tree, IndexOk, Recs;
      if !env.readable(p.rec.block.hash) { return false; }
      ghost var idx, next := db.Current().txs, db.Current().hashNext;
      TreeParent(env, nodes, p);
      RelinkDisk(env, nodes, next, p.pprev, p);
      UndoneOk(env, idx, p.rec.block);
      UndoneLine(env, idx, p);
      hide ChainModel.DisconnectBlock;
      ok := ChainBlocks.DisconnectBlock(db, p);
    }

    /** Disconnects the listed blocks, the tip first. */
    method DisconnectList(tip: BlockIndex, fork: BlockIndex, list: seq<BlockIndex>) returns (ok: bool)
      requires Open(tip) && IsAncestor(fork, tip) && fork.Linked()
      requires |list| == tip.rec.nHeight - fork.rec.nHeight
      requires forall i :: 0 <= i < |list| ==> list[i] == tip.Line()[tip.rec.nHeight - i]
      modifies db
      ensures db.activeTxn.Some? && db.committed == old(db.committed)
      ensures ok == DisconnectTo(env, old(db.Current().txs), Recs(tip.Line()), fork.rec.nHeight + 1).Some?
      ensures ok ==>
        DisconnectTo(env, old(db.Current().txs), Recs(tip.Line()), fork.rec.nHeight + 1) == Some(db.Current().txs)
      ensures ok ==> Open(fork) && (old(DbAt(tip)) ==> DbAt(fork))
    {
      hide DiskLinks, Inv, Tree, DisconnectTo, IndexOk;
      ghost var idx := db.Current().txs;
      ghost var keep := fork.rec.nHeight + 1;
      ghost var p: BlockIndex := tip;
      var i := 0;
      while i < |list|
        invariant 0 <= i <= |list|
        invariant db.activeTxn.Some? && db.committed == old(db.committed)
        invariant Open(p) && (old(DbAt(tip)) ==> DbAt(p))
        invariant p.Linked() && p.rec.nHeight == tip.rec.nHeight - i && p == tip.Line()[p.rec.nHeight]
        invariant DisconnectTo(env, db.Current().txs, Recs(p.Line()), keep) ==
          DisconnectTo(env, idx, Recs(tip.Line()), keep)
      {
        var pindex := list[i];
        LineAt(tip, p.rec.nHeight);
        DisconnectToTip(env, db.Current().txs, p, keep);
        ok := DisconnectTip(pindex);
        if !ok { return; }
        TreeParent(env, nodes, p);
        p := p.pprev;
        i := i + 1;
      }
      AncestorAt(fork, tip);
      DisconnectToNothing(env, db.Current().txs, Recs(p.Line()));
      ok := true;
    }

    method ConnectChild(child: BlockIndex) returns (ok: bool)
      requires child in nodes && child.pprev != null && Open(child.pprev)
      modifies db
      ensures db.activeTxn.Some? && db.committed == old(db.committed)
      ensures child.Linked()
      ensures ok ==> Open(child) && (old(DbAt(child.pprev)) ==> DbAt(child))
      ensures ok ==
        ChainModel.ConnectBlock(env, Recs(child.pprev.Line()), SkipSigs(), old(db.Current().txs), child.rec).Some?
      ensures
        var path, was := Recs(child.pprev.Line()), old(db.Current().txs);
        var made := ChainModel.ConnectBlock(env, path, SkipSigs(), was, child.rec);
        ok ==> made == Some(db.Current().txs)
    {
      hide DiskLinks, Inv, Tree, IndexOk, Recs;
      ghost var idx, next := db.Current().txs, db.Current().hashNext;
      TreeParent(env, nodes, child);
      RelinkDisk(env, nodes, next, child.pprev, child);
      MadeOk(env, idx, child, SkipSigs());
      MadeLine(env, idx, child, SkipSigs());
      LineBefore(child);
      hide ChainModel.ConnectBlock;
      ok := ChainBlocks.ConnectBlock(env, db, child, SkipSigs());
    }

    /** Connects the block after p on the way to the tip, if it can be read. */
    method ConnectNext(ghost tip: BlockIndex, ghost p: BlockIndex, pindex: BlockIndex) returns (ok: bool)
      requires Open(p) && tip in nodes && tip.Linked() && p.rec.nHeight < tip.rec.nHeight
      requires p == tip.Line()[p.rec.nHeight] && pindex == tip.Line()[p.rec.nHeight + 1]
      modifies db
      ensures db.activeTxn.Some? && db.committed == old(db.committed) && pindex.Linked()
      ensures pindex.rec.nHeight == p.rec.nHeight + 1
      ensures ok ==> Open(pindex) && (old(DbAt(p)) ==> DbAt(pindex))
      ensures var path := Recs(tip.Line());
        var was := ConnectFrom(env, SkipSigs(), old(db.Current().txs), path, p.rec.nHeight + 1);
        was == if ok then ConnectFrom(env, SkipSigs(), db.Current().txs, path, pindex.rec.nHeight + 1) else None
    {
      hide DiskLinks, Inv, Tree, ConnectFrom, IndexOk;
      StepUp(env, nodes, tip, p);
      ConnectFromNext(env, SkipSigs(), db.Current().txs, Recs(tip.Line()), p.rec.nHeight + 1);
      if !env.readable(pindex.rec.block.hash) { return false; }
      ok := ConnectChild(pindex);
    }

    /** Connects the listed blocks, the one after the fork first. */
    method ConnectList(tip: BlockIndex, fork: BlockIndex, list: seq<BlockIndex>) returns (ok: bool)
      requires Open(fork) && tip in nodes && tip.Linked() && IsAncestor(fork, tip)
      requires fork.rec.nHeight <= tip.rec.nHeight && list == tip.Line()[fork.rec.nHeight + 1..]
      modifies db
      ensures db.activeTxn.Some? && db.committed == old(db.committed)
      ensures ok == ConnectFrom(env, SkipSigs(), old(db.Current().txs), Recs(tip.Line()), fork.rec.nHeight + 1).Some?
      ensures
        var made := ConnectFrom(env, SkipSigs(), old(db.Current().txs), Recs(tip.Line()), fork.rec.nHeight + 1);
        ok ==> made == Some(db.Current().txs)
      ensures ok ==> Open(tip) && (old(DbAt(fork)) ==> DbAt(tip))
    {
      hide DiskLinks, Inv, Tree, ConnectFrom, IndexOk;
      ghost var p: BlockIndex := fork;
      AncestorAt(fork, tip);
      ghost var line, goal := tip.Line(), ConnectFrom(env, SkipSigs(), db.Current().txs, Recs(tip.Line()),
          fork.rec.nHeight + 1);
      var i := 0;
      while i < |list|
        invariant 0 <= i <= |list|
        invariant db.activeTxn.Some? && db.committed == old(db.committed)
        invariant Open(p) && (old(DbAt(fork)) ==> DbAt(p))
        invariant p.rec.nHeight == fork.rec.nHeight + i && p == line[p.rec.nHeight]
        invariant ConnectFrom(env, SkipSigs(), db.Current().txs, Recs(line), p.rec.nHeight + 1) == goal
      {
        var pindex := list[i];
        assert pindex == line[fork.rec.nHeight + 1 + i];
        ok := ConnectNext(tip, p, pindex);
        if !ok { return; }
        p := pindex;
        i := i + 1;
      }
      ConnectFromEnd(env, SkipSigs(), db.Current().txs, Recs(line));
      ok := true;
    }

    method UnlinkTip(p: BlockIndex)
      requires p.Linked() && p.pprev != null && p.pprev in nodes
      modifies nodes
      ensures old(MemLinks(nodes, p)) ==> MemLinks(nodes, p.pprev)
    {
      NextOnChildAll(p.pprev, p);
      p.pprev.pnext := null;
    }

    method LinkChild(child: BlockIndex)
      requires child.Linked() && child.pprev != null && child.pprev in nodes
      modifies nodes
      ensures old(MemLinks(nodes, child.pprev)) ==> MemLinks(nodes, child)
    {
      NextOnChildAll(child.pprev, child);
      child.pprev.pnext := child;
    }

    /** Moves the pnext links from one branch to the other. */
    method RelinkMemory(best: BlockIndex, tip: BlockIndex, fork: BlockIndex, vDisconnect: seq<BlockIndex>,
        vConnect: seq<BlockIndex>)
      requires Tree(env, nodes) && best in nodes && best.Linked() && tip in nodes && tip.Linked()
      requires fork.Linked() && IsAncestor(fork, best) && IsAncestor(fork, tip)
      requires |vDisconnect| == best.rec.nHeight - fork.rec.nHeight
      requires forall i :: 0 <= i < |vDisconnect| ==> vDisconnect[i] == best.Line()[best.rec.nHeight - i]
      requires fork.rec.nHeight <= tip.rec.nHeight && vConnect == tip.Line()[fork.rec.nHeight + 1..]
      modifies nodes
      ensures old(MemLinks(nodes, best)) ==> MemLinks(nodes, tip)
    {
      hide MemLinks, Tree, BlockIndex.Line;
      TreeParent(env, nodes, best);
      TreeParent(env, nodes, tip);
      ghost var p: BlockIndex := best;
      var i := 0;
      while i < |vDisconnect|
        invariant 0 <= i <= |vDisconnect|
        invariant p.Linked() && p.rec.nHeight == best.rec.nHeight - i && p == best.Line()[p.rec.nHeight]
        invariant old(MemLinks(nodes, best)) ==> MemLinks(nodes, p)
      {
        var pindex := vDisconnect[i];
        StepDown(env, nodes, best, p);
        UnlinkTip(pindex);
        p := p.pprev;
        i := i + 1;
      }
      AncestorAt(fork, best);
      AncestorAt(fork, tip);
      i := 0;
      while i < |vConnect|
        invariant 0 <= i <= |vConnect|
        invariant p.Linked() && p.rec.nHeight == fork.rec.nHeight + i && p == tip.Line()[p.rec.nHeight]
        invariant old(MemLinks(nodes, best)) ==> MemLinks(nodes, p)
      {
        var pindex := vConnect[i];
        StepUp(env, nodes, tip, p);
        LinkChild(pindex);
        p := pindex;
        i := i + 1;
      }
    }

    /** A transaction has begun, and has not changed anything yet. */
    ghost predicate Begun(tip: BlockIndex)
      reads this, db
    {
      Open(tip) && db.activeTxn == Some(db.committed)
    }

    /** The database describes the line to tip, as does memory. */
    ghost predicate BegunAt(tip: BlockIndex)
      reads this, nodes, db
    {
      Begun(tip) && DbAt(tip) && db.committed.hashBestChain == tip.rec.block.hash && MemLinks(nodes, tip)
    }

    /** Switches database and memory from the best chain to the line to pindexNew, in one transaction.
        On failure the committed records and the links are untouched; the caller aborts. */
    method Reorganize(pindexNew: BlockIndex) returns (ok: bool)
      requires pindexBest != null && Begun(pindexBest) && pindexNew in nodes && pindexNew.Linked()
      modifies db, nodes
      ensures ok == ReorganizedIndex(env, SkipSigs(), old(db.committed.txs), pindexBest, pindexNew).Some?
      ensures old(BegunAt(pindexBest)) ==>
        (ok <==> CanReorganize(env, SkipSigs(), old(db.committed.txs), pindexBest, pindexNew))
      ensures ok ==> Settled() && (old(BegunAt(pindexBest)) ==> At(pindexNew))
      ensures ok ==>
        ReorganizedIndex(env, SkipSigs(), old(db.committed.txs), pindexBest, pindexNew) == Some(db.committed.txs)
      ensures !ok ==> db.activeTxn.Some? && db.committed == old(db.committed)
      ensures !ok ==> forall n :: n in nodes ==> n.pnext == old(n.pnext)
      ensures !ok && old(BegunAt(pindexBest)) ==> MemLinks(nodes, pindexBest)
    {
      hide DiskLinks, MemLinks, Inv, Tree, Common, DisconnectTo, ConnectFrom, ReorganizedIndex, Recs;
      hide CanReorganize, BlockIndex.Line, IndexOk;
      var best: BlockIndex := pindexBest;
      if BegunAt(best) { ReorganizesIff(env, SkipSigs(), db.committed.txs, best, pindexNew); }
      var pfork := FindFork(best, pindexNew);
      if pfork == null {
        NoForkNoCommon(best, pindexNew);
        ReorganizedIs(env, SkipSigs(), db.committed.txs, best, pindexNew, 0);
        return false;
      }
      ForkIsCommon(best, pindexNew, pfork);
      ReorganizedIs(env, SkipSigs(), db.committed.txs, best, pindexNew, pfork.rec.nHeight + 1);
      var vDisconnect := ListDown(best, pfork);
      var vConnect := ListUp(pindexNew, pfork);
      ok := DisconnectList(best, pfork, vDisconnect);
      if !ok { return; }
      ok := ConnectList(pindexNew, pfork, vConnect);
      if !ok { return; }
      db.WriteHashBestChain(pindexNew.rec.block.hash);
      ok := db.TxnCommit();
      RelinkMemory(best, pindexNew, pfork, vDisconnect, vConnect);
    }

    /** Connects one block on top of the tip in a transaction of its own. */
    method SetBestChainInner(pindexNew: BlockIndex) returns (ok: bool)
      requires pindexNew in nodes && pindexNew.pprev != null && Begun(pindexNew.pprev)
      modifies db, nodes
      ensures pindexNew.Linked() && pindexNew.pprev.Linked() && Settled()
      ensures
        var path, was := Recs(pindexNew.pprev.Line()), old(db.committed.txs);
        var made := ChainModel.ConnectBlock(env, path, SkipSigs(), was, pindexNew.rec);
        ok == made.Some? && (ok ==> made == Some(db.committed.txs))
      ensures old(BegunAt(pindexNew.pprev)) ==> At(if ok then pindexNew else pindexNew.pprev)
      ensures !ok ==> db.committed == old(db.committed)
      ensures !ok ==> forall n :: n in nodes ==> n.pnext == old(n.pnext)
    {
      hide DiskLinks, MemLinks, Inv, Tree, IndexOk;
      ok := ConnectChild(pindexNew);
      if !ok {
        var aborted := db.TxnAbort();
        return;
      }
      db.WriteHashBestChain(pindexNew.rec.block.hash);
      ok := db.TxnCommit();
      LinkChild(pindexNew);
    }

    /** Leaves out of the reorganization every block that need not be in it; the blocks left out
        come back in vpindexSecondary, the last one first. */
    method Postpone(best: BlockIndex, pindexNew: BlockIndex)
      returns (pindexIntermediate: BlockIndex, vpindexSecondary: seq<BlockIndex>)
      requires pindexNew.Linked()
      ensures pindexIntermediate == Intermediate(best, pindexNew)
      ensures pindexIntermediate.pprev != null ==> pindexIntermediate.pprev.nChainWork <= best.nChainWork
      ensures forall i :: 0 <= i < |vpindexSecondary| ==>
        vpindexSecondary[i].pprev != null && vpindexSecondary[i].pprev.nChainWork > best.nChainWork
      ensures |vpindexSecondary| == pindexNew.rec.nHeight - pindexIntermediate.rec.nHeight
      ensures forall i :: 0 <= i < |vpindexSecondary| ==>
        vpindexSecondary[i] == pindexNew.Line()[pindexNew.rec.nHeight - i]
    {
      pindexIntermediate, vpindexSecondary := pindexNew, [];
      while pindexIntermediate.pprev != null && pindexIntermediate.pprev.nChainWork > best.nChainWork
        invariant pindexIntermediate.Linked() && IsAncestor(pindexIntermediate, pindexNew)
        invariant Intermediate(best, pindexIntermediate) == Intermediate(best, pindexNew)
        invariant |vpindexSecondary| == pindexNew.rec.nHeight - pindexIntermediate.rec.nHeight
        invariant forall i :: 0 <= i < |vpindexSecondary| ==>
          vpindexSecondary[i] == pindexNew.Line()[pindexNew.rec.nHeight - i]
        invariant forall i :: 0 <= i < |vpindexSecondary| ==>
          vpindexSecondary[i].pprev != null && vpindexSecondary[i].pprev.nChainWork > best.nChainWork
        decreases pindexIntermediate.rec.nHeight
      {
        AncestorAt(pindexIntermediate, pindexNew);
        ParentIsAncestor(pindexIntermediate, pindexNew);
        vpindexSecondary := vpindexSecondary + [pindexIntermediate];
        pindexIntermediate := pindexIntermediate.pprev;
      }
    }

    /** Connects the postponed blocks one transaction each; stops at the first that fails. It reaches the tip
        exactly if all the blocks, one after the other, connect to the index it starts from. */
    method ConnectPostponed(tip: BlockIndex, start: BlockIndex, vpindexSecondary: seq<BlockIndex>)
      returns (ghost reached: BlockIndex)
      requires Settled() && start in nodes && start.Linked() && tip in nodes && tip.Linked() && IsAncestor(start, tip)
      requires |vpindexSecondary| == tip.rec.nHeight - start.rec.nHeight
      requires forall i :: 0 <= i < |vpindexSecondary| ==> vpindexSecondary[i] == tip.Line()[tip.rec.nHeight - i]
      modifies db, nodes
      ensures Settled() && reached in nodes && reached.Linked() && IsAncestor(reached, tip)
      ensures old(At(start)) ==> At(reached)
      ensures (reached.rec.nHeight + 1, db.committed.txs) ==
        AsFar(env, SkipSigs(), old(db.committed.txs), Recs(tip.Line()), start.rec.nHeight + 1)
      ensures var goal := ConnectFrom(env, SkipSigs(), old(db.committed.txs), Recs(tip.Line()), start.rec.nHeight + 1);
        (reached == tip <==> goal.Some?) && (goal.Some? ==> goal == Some(db.committed.txs))
    {
      hide DiskLinks, MemLinks, Inv, Tree, ConnectFrom, AsFar, IndexOk, BlockIndex.Line;
      reached := start;
      AncestorAt(start, tip);
      ghost var path := Recs(tip.Line());
      ghost var far := AsFar(env, SkipSigs(), db.committed.txs, path, start.rec.nHeight + 1);
      AsFarIff(env, SkipSigs(), db.committed.txs, path, start.rec.nHeight + 1);
      var i := |vpindexSecondary|;
      while i > 0
        invariant 0 <= i <= |vpindexSecondary|
        invariant reached.Linked() && reached.rec.nHeight == tip.rec.nHeight - i
        invariant reached in nodes && reached == tip.Line()[reached.rec.nHeight]
        invariant Settled() && (old(At(start)) ==> At(reached))
        invariant AsFar(env, SkipSigs(), db.committed.txs, path, reached.rec.nHeight + 1) == far
      {
        i := i - 1;
        var pindex := vpindexSecondary[i];
        LineAt(tip, reached.rec.nHeight + 1);
        var ok := ConnectOne(tip, reached, pindex);
        if !ok { return; }
        reached := pindex;
      }
      AsFarEnd(env, SkipSigs(), db.committed.txs, path);
    }

    /** Connects the block after p on the way to the tip in a transaction of its own, if it can be read. */
    method ConnectOne(ghost tip: BlockIndex, ghost p: BlockIndex, pindex: BlockIndex) returns (ok: bool)
      requires Settled() && p in nodes && tip in nodes && tip.Linked() && p.rec.nHeight < tip.rec.nHeight
      requires p == tip.Line()[p.rec.nHeight] && pindex == tip.Line()[p.rec.nHeight + 1]
      modifies db, nodes
      ensures Settled() && pindex in nodes && pindex.Linked() && pindex.rec.nHeight == p.rec.nHeight + 1 && p.Linked()
      ensures old(At(p)) ==> At(if ok then pindex else p)
      ensures !ok ==> db.committed == old(db.committed)
      ensures var path := Recs(tip.Line());
        AsFar(env, SkipSigs(), old(db.committed.txs), path, p.rec.nHeight + 1) ==
        if ok then AsFar(env, SkipSigs(), db.committed.txs, path, pindex.rec.nHeight + 1)
        else (p.rec.nHeight + 1, db.committed.txs)
    {
      hide DiskLinks, MemLinks, Inv, Tree, AsFar, ChainModel.ConnectBlock, IndexOk;
      StepUp(env, nodes, tip, p);
      AsFarNext(env, SkipSigs(), db.committed.txs, Recs(tip.Line()), p.rec.nHeight + 1);
      if !env.readable(pindex.rec.block.hash) { return false; }
      ok := db.TxnBegin();
      ok := SetBestChainInner(pindex);
    }

    /** Before genesis: no best chain, no index, no links. */
    ghost predicate Empty(genesis: BlockIndex)
      reads this, nodes, db
    {
      && pindexBest == null && pindexGenesisBlock == null
      && Tree(env, nodes) && genesis in nodes && genesis.pprev == null && genesis.rec.block.hash == hashGenesisBlock
      && db.activeTxn == None && db.committed.txs == map[]
      && MemLinks(nodes, genesis) && DiskLinks(nodes, db.committed.hashNext, genesis)
    }

    /** The genesis block becomes the best chain without being connected. */
    method ConnectGenesis(pindexNew: BlockIndex) returns (ok: bool)
      requires pindexNew.Linked() && pindexNew.pprev == null && pindexNew in nodes && Tree(env, nodes)
      requires db.activeTxn == Some(db.committed) && db.committed.txs == map[]
      requires MemLinks(nodes, pindexNew) && DiskLinks(nodes, db.committed.hashNext, pindexNew)
      modifies this`pindexGenesisBlock, db
      ensures ok && Settled() && At(pindexNew) && pindexGenesisBlock == pindexNew
      ensures db.committed.txs == old(db.committed.txs)
    {
      hide DiskLinks, MemLinks, Inv, Tree;
      db.WriteHashBestChain(pindexNew.rec.block.hash);
      ok := db.TxnCommit();
      pindexGenesisBlock := pindexNew;
      GenesisInv(env, pindexNew);
    }

    /** The case where the new block does not extend the best chain. */
    method SwitchBranch(pindexNew: BlockIndex) returns (ok: bool, ghost reached: BlockIndex)
      requires pindexBest != null && Begun(pindexBest) && pindexNew in nodes && pindexNew.Linked()
      requires pindexNew.pprev != pindexBest
      modifies db, nodes
      ensures Settled() && (!ok ==> db.committed == old(db.committed))
      ensures !ok ==> forall n :: n in nodes ==> n.pnext == old(n.pnext)
      ensures var made := BestIndex(env, SkipSigs(), old(db.committed.txs), pindexBest, pindexNew);
        ok == made.Some? && (ok ==> made == Some((reached.rec.nHeight + 1, db.committed.txs)))
      ensures ok ==> reached in nodes && reached.Linked() && IsAncestor(reached, pindexNew)
      ensures ok ==>
        (reached == pindexNew <==> Completes(env, SkipSigs(), old(db.committed.txs), pindexBest, pindexNew))
      ensures old(BegunAt(pindexBest)) ==> if ok then At(reached) else At(pindexBest)
    {
      hide DiskLinks, MemLinks, Inv, Tree, ReorganizedIndex, ConnectFrom, Recs, CanReorganize, IndexOk, AsFar;
      reached := pindexNew;
      var best: BlockIndex := pindexBest;
      var pindexIntermediate, vpindexSecondary := Postpone(best, pindexNew);
      AncestorAt(pindexIntermediate, pindexNew);
      LineInTree(env, nodes, pindexNew, pindexIntermediate.rec.nHeight);
      ok := Reorganize(pindexIntermediate);
      if !ok {
        var aborted := db.TxnAbort();
        return;
      }
      reached := ConnectPostponed(pindexNew, pindexIntermediate, vpindexSecondary);
    }

    /** Makes the new block the best, wherever the postponed reconnects got to. */
    method Adopt(pindexNew: BlockIndex, ghost reached: BlockIndex)
      requires Settled() && pindexNew in nodes && pindexNew.Linked() && pindexGenesisBlock != null && reached in nodes
      modifies `hashBestChain, `pindexBest, `nBestHeight, `bnBestChainWork
      ensures pindexBest == pindexNew && Standing()
      ensures old(At(reached)) ==> At(reached) && (Valid() <==> reached == pindexNew)
    {
      hide DiskLinks, MemLinks, Inv, Tree, Recs, IndexOk;
      SameHash(env, nodes, reached, pindexNew);
      hashBestChain := pindexNew.rec.block.hash;
      pindexBest := pindexNew;
      nBestHeight := pindexNew.rec.nHeight;
      bnBestChainWork := pindexNew.nChainWork;
    }

    /** What SetBestChain leaves: on failure everything is as it was. On success pindexBest is the new block, and
        the index is the one the state before the call determines. Where that state was valid, database and links
        then describe the block reached, an ancestor of the new one. It is the new block itself, and the state valid,
        exactly if all postponed blocks connect, which the state before the call decides as well. */
    method SetBestChain(pindexNew: BlockIndex) returns (ok: bool, ghost reached: BlockIndex)
      requires pindexNew in nodes && Tree(env, nodes)
      requires Standing() || Empty(pindexNew)
      modifies this, db, nodes
      ensures nodes == old(nodes) && mapBlockIndex == old(mapBlockIndex) && pindexNew.Linked() && Standing()
      ensures !ok ==> old(Standing()) && pindexBest == old(pindexBest) && db.committed == old(db.committed)
      ensures !ok ==> forall n :: n in nodes ==> n.pnext == old(n.pnext)
      ensures ok ==> pindexBest == pindexNew && reached.Linked() && IsAncestor(reached, pindexNew)
      ensures old(Empty(pindexNew)) ==> ok && Valid() && db.committed.txs == map[]
      ensures old(Standing()) ==>
        old(pindexBest).Linked()
        && var made := BestIndex(env, old(SkipSigs()), old(db.committed.txs), old(pindexBest), pindexNew);
           ok == made.Some? && (ok ==> made == Some((reached.rec.nHeight + 1, db.committed.txs)))
      ensures old(Standing()) && ok && pindexNew.nChainWork > old(pindexBest).nChainWork ==>
        reached.nChainWork > old(pindexBest).nChainWork
      ensures old(Valid()) && !ok ==> Valid()
      ensures old(Valid()) && ok ==> At(reached) && (Valid() <==> reached == pindexNew)
      ensures old(Valid()) && ok ==>
        (Valid() <==> pindexNew.pprev == old(pindexBest)
                      || Completes(env, old(SkipSigs()), old(db.committed.txs), old(pindexBest), pindexNew))
    {
      hide DiskLinks, MemLinks, Inv, Tree, ReorganizedIndex, Intermediate, ChainModel.ConnectBlock, Recs, Completes;
      hide IndexOk, AsFar, BestIndex, BlockIndex.Line;
      TreeParent(env, nodes, pindexNew);
      if pindexBest != null {
        TreeParent(env, nodes, pindexBest);
        BestExtends(env, SkipSigs(), db.committed.txs, pindexBest, pindexNew);
        if pindexNew.pprev != null { SameHash(env, nodes, pindexNew.pprev, pindexBest); }
      }
      reached := pindexNew;
      ok := db.TxnBegin();
      if pindexGenesisBlock == null && pindexNew.rec.block.hash == hashGenesisBlock {
        ok := ConnectGenesis(pindexNew);
      } else if pindexNew.pprev != null && pindexNew.pprev.rec.block.hash == hashBestChain {
        ok := SetBestChainInner(pindexNew);
      } else {
        ok, reached := SwitchBranch(pindexNew);
      }
      if !ok { return; }
      if old(Standing()) && pindexNew.nChainWork > pindexBest.nChainWork {
        ReachedWork(env, old(SkipSigs()), old(db.committed.txs), pindexBest, pindexNew, reached);
      }
      Adopt(pindexNew, reached);
    }

    /** A new node's height and work, from the node of the previous block if there is one. */
    function NodeRec(block: Block, hashPrevBlock: Hash, nFile: nat, nBlockPos: nat, nTime: nat): BlockRec
      reads this
    {
      BlockRec(block, nFile, nBlockPos,
        if hashPrevBlock in mapBlockIndex then mapBlockIndex[hashPrevBlock].rec.nHeight + 1 else 0, nTime)
    }

    /** What the callers of AddToBlockIndex see to: a block with a known parent has been written to the block
        files and is dated after the median of the blocks before it; the only other block is genesis. */
    ghost predicate Fits(rec: BlockRec, hashPrevBlock: Hash)
      reads this
    {
      if hashPrevBlock in mapBlockIndex then
        var pindexPrev := mapBlockIndex[hashPrevBlock];
        Stored(env, rec) && pindexPrev.Linked() && rec.nTime > Median(Times(pindexPrev.Line()))
      else
        IsGenesisTime(rec.nTime)
    }

    /** Files the new node. Where memory, disk records and index described the line to tip, whether or not that is
        the best block, they still do. */
    method AddNode(block: Block, hashPrevBlock: Hash, nFile: nat, nBlockPos: nat, nTime: nat, nWork: nat,
        ghost tip: BlockIndex?)
      returns (pindexNew: BlockIndex)
      requires MapOk() && block.hash !in mapBlockIndex
      requires Fits(NodeRec(block, hashPrevBlock, nFile, nBlockPos, nTime), hashPrevBlock)
      requires (Settled() && pindexBest != null) || Unborn(block.hash)
      modifies `mapBlockIndex, `nodes, db
      ensures MapOk() && nodes == old(nodes) + {pindexNew} && fresh(pindexNew) && Settled()
      ensures mapBlockIndex == old(mapBlockIndex)[block.hash := pindexNew]
      ensures pindexNew.rec == old(NodeRec(block, hashPrevBlock, nFile, nBlockPos, nTime))
      ensures pindexNew.nChainWork == (if pindexNew.pprev == null then 0 else pindexNew.pprev.nChainWork) + nWork
      ensures pindexNew.pprev == if hashPrevBlock in old(mapBlockIndex) then old(mapBlockIndex[hashPrevBlock]) else null
      ensures db.committed.txs == old(db.committed.txs)
      ensures tip != null && old(At(tip)) ==> At(tip)
      ensures old(Unborn(block.hash)) ==> Empty(pindexNew)
    {
      hide Inv, Tree, DiskLinks, MemLinks, MapOk, Median, Times, Stored, IndexOk;
      if tip != null && tip in nodes && Tree(env, nodes) { TreeParent(env, nodes, tip); }
      pindexNew := FileNode(block, hashPrevBlock, nFile, nBlockPos, nTime, nWork);
      db.WriteHashNext(block.hash, 0);
      AddToTree(env, old(nodes), pindexNew);
      EmptyIsOk(env);
      if tip != null && old(At(tip)) {
        OffTheLine(env, old(nodes), tip, pindexNew);
        AddToDisk(old(nodes), old(db.committed.hashNext), tip, pindexNew);
        AddToMemory(old(nodes), tip, pindexNew);
      }
      if old(Unborn(block.hash)) {
        assert nodes == {pindexNew};
        FirstNode(env, db.committed.hashNext, pindexNew);
      }
    }

    /** No block has been accepted yet, and the one with this identifier is genesis. */
    ghost predicate Unborn(hash: Hash)
      reads this, db
    {
      Blank() && db.activeTxn == None && db.committed.txs == map[] && hash == hashGenesisBlock
    }

    /** Makes the node and enters it in mapBlockIndex. */
    method FileNode(block: Block, hashPrevBlock: Hash, nFile: nat, nBlockPos: nat, nTime: nat, nWork: nat)
      returns (pindexNew: BlockIndex)
      requires MapOk() && block.hash !in mapBlockIndex
      modifies `mapBlockIndex, `nodes
      ensures MapOk() && nodes == old(nodes) + {pindexNew} && fresh(pindexNew) && pindexNew.pnext == null
      ensures mapBlockIndex == old(mapBlockIndex)[block.hash := pindexNew]
      ensures pindexNew.rec == old(NodeRec(block, hashPrevBlock, nFile, nBlockPos, nTime))
      ensures pindexNew.nChainWork == (if pindexNew.pprev == null then 0 else pindexNew.pprev.nChainWork) + nWork
      ensures pindexNew.pprev == if hashPrevBlock in old(mapBlockIndex) then old(mapBlockIndex[hashPrevBlock]) else null
      ensures forall m :: m in old(nodes) ==> m.rec.block.hash != block.hash
      ensures pindexNew.pprev != null ==> pindexNew.pprev in old(nodes)
      ensures old(mapBlockIndex) == map[] ==> old(nodes) == {}
    {
      var rec := NodeRec(block, hashPrevBlock, nFile, nBlockPos, nTime);
      var pprev := if hashPrevBlock in mapBlockIndex then mapBlockIndex[hashPrevBlock] else null;
      pindexNew := new BlockIndex(rec, pprev, (if pprev == null then 0 else pprev.nChainWork) + nWork);
      mapBlockIndex := mapBlockIndex[block.hash := pindexNew];
      nodes := nodes + {pindexNew};
      NewHash(old(mapBlockIndex), block.hash);
      NewValue(old(mapBlockIndex), block.hash, pindexNew);
    }

    /** A block whose work beats the best becomes the best, or is refused; any other is only filed. */
    method AddToBlockIndex(block: Block, hashPrevBlock: Hash, nFile: nat, nBlockPos: nat, nTime: nat, nWork: nat)
      returns (ok: bool, ghost reached: BlockIndex?)
      requires MapOk() && nWork > 0
      requires Fits(NodeRec(block, hashPrevBlock, nFile, nBlockPos, nTime), hashPrevBlock)
      requires Standing() || Unborn(block.hash)
      modifies this, db, nodes
      ensures MapOk() && Standing() && fresh(nodes - old(nodes))
      ensures block.hash in old(mapBlockIndex) ==> !ok && mapBlockIndex == old(mapBlockIndex)
      ensures block.hash !in old(mapBlockIndex) ==>
        block.hash in mapBlockIndex && var made := mapBlockIndex[block.hash];
        && mapBlockIndex == old(mapBlockIndex)[block.hash := made] && fresh(made)
        && made.rec == old(NodeRec(block, hashPrevBlock, nFile, nBlockPos, nTime))
        && made.pprev == (if hashPrevBlock in old(mapBlockIndex) then old(mapBlockIndex[hashPrevBlock]) else null)
        && made.nChainWork == (if made.pprev == null then 0 else made.pprev.nChainWork) + nWork
      ensures old(Unborn(block.hash)) ==> ok && Valid() && pindexBest == mapBlockIndex[block.hash]
                                          && db.committed.txs == map[]
      ensures !ok ==> pindexBest == old(pindexBest) && db.committed.txs == old(db.committed.txs)
      ensures old(Valid()) && !ok ==> Valid()
      ensures old(Standing()) && block.hash !in old(mapBlockIndex) ==>
        Became(mapBlockIndex[block.hash], old(pindexBest), old(SkipSigs()), old(db.committed.txs), ok, reached)
      ensures old(Valid()) && ok ==> var made := mapBlockIndex[block.hash];
        BestLinked(old(pindexBest), made)
        && (Valid() <==> made.nChainWork <= old(pindexBest).nChainWork || made.pprev == old(pindexBest)
                         || Completes(env, old(SkipSigs()), old(db.committed.txs), old(pindexBest), made))
      ensures old(Valid()) && ok && reached != null ==> At(reached)
    {
      hide Inv, Tree, DiskLinks, MemLinks, ReorganizedIndex, ChainModel.ConnectBlock, Completes, Median, Times, Stored;
      hide Intermediate, BlockIndex.Line, Recs, IndexOk, BestIndex;
      reached := null;
      if block.hash in mapBlockIndex { return false, null; }
      if pindexBest != null { TreeParent(env, nodes, pindexBest); }
      var pindexNew := AddNode(block, hashPrevBlock, nFile, nBlockPos, nTime, nWork, pindexBest);
      ok := true;
      TreeParent(env, nodes, pindexNew);
      if pindexNew.nChainWork > bnBestChainWork {
        ok, reached := SetBestChain(pindexNew);
      }
    }

    ghost predicate BestLinked(best: BlockIndex, made: BlockIndex) { best.Linked() && made.Linked() }

    /** What becomes of a new node: with more work than the best block it takes its place, if that is not refused, with
        its line connected up to the block reached; otherwise all stays as it was. */
    ghost predicate Became(made: BlockIndex, best: BlockIndex, skipSigs: bool, idx: Index, ok: bool,
        reached: BlockIndex?)
      reads this, db
    {
      && BestLinked(best, made)
      && if made.nChainWork <= best.nChainWork then ok && pindexBest == best && db.committed.txs == idx
         else
           var index := BestIndex(env, skipSigs, idx, best, made);
           && ok == index.Some?
           && (ok ==> pindexBest == made && reached != null && reached.Linked() && IsAncestor(reached, made)
                      && index == Some((reached.rec.nHeight + 1, db.committed.txs))
                      && reached.nChainWork > best.nChainWork)
    }

    lemma BecamePassed(made: BlockIndex, best: BlockIndex, skipSigs: bool, idx: Index, ok: bool, reached: BlockIndex?)
      requires ok && made.nChainWork > best.nChainWork && Became(made, best, skipSigs, idx, ok, reached)
      ensures best.Linked() && made.Linked() && reached != null
      ensures NewPassed(env, skipSigs, idx, best, made, reached.rec.nHeight + 1)
    {
      hide NewPassed, BestIndex, BlockIndex.Line;
      BestPassed(env, skipSigs, idx, best, made);
    }

    /** The tests on a block's time: after the median of the blocks before it, not more than half an hour in
        the future, and not more than half an hour before its parent. */
    ghost predicate TimeOk(pindexPrev: BlockIndex, nTime: nat, nAdjustedTime: int)
      requires pindexPrev.Linked()
    {
      && nTime > Median(Times(pindexPrev.Line()))
      && nTime <= nAdjustedTime + 30 * 60
      && nTime > pindexPrev.rec.nTime - 30 * 60
    }

    /** The other tests, made of the rules: it has the work demanded at its place, its transactions are final there,
        and no checkpoint has another block. */
    predicate RulesOk(rules: Rules, pindexPrev: BlockIndex, block: Block, nBits: nat, nTime: nat)
    {
      && nBits == rules.nextWork(pindexPrev, nTime)
      && AllFinal(rules, block.vtx, pindexPrev.rec.nHeight + 1, nTime)
      && rules.checkpointOk(pindexPrev.rec.nHeight + 1, block.hash)
    }

    /** The tests of a block that need its parent, in the order they are made. */
    method CheckInContext(rules: Rules, pindexPrev: BlockIndex, block: Block, nBits: nat, nTime: nat,
        nAdjustedTime: int)
      returns (passed: bool)
      requires pindexPrev.Linked()
      ensures passed == (TimeOk(pindexPrev, nTime, nAdjustedTime) && RulesOk(rules, pindexPrev, block, nBits, nTime))
    {
      hide Median, Times, BlockIndex.Line;
      if nBits != rules.nextWork(pindexPrev, nTime) { return false; }
      var nMedian := GetMedianTimePast(pindexPrev);
      if nTime <= nMedian { return false; }
      if nTime > nAdjustedTime + 30 * 60 { return false; }
      if nTime <= pindexPrev.rec.nTime - 30 * 60 { return false; }
      var final := CheckFinal(rules, block.vtx, pindexPrev.rec.nHeight + 1, nTime);
      if !final { return false; }
      passed := rules.checkpointOk(pindexPrev.rec.nHeight + 1, block.hash);
    }

    /** A block passes if it is new, its parent is known, its time is right and it passes the other tests. It is then
        written to the block files, at a given place, and filed. */
    method AcceptBlock(rules: Rules, block: Block, hashPrevBlock: Hash, nBits: nat, nTime: nat, nWork: nat,
        nAdjustedTime: int, nFile: nat, nBlockPos: nat)
      returns (ok: bool, ghost passed: bool, ghost reached: BlockIndex?)
      requires Standing() && MapOk() && nWork > 0
      requires Stored(env, NodeRec(block, hashPrevBlock, nFile, nBlockPos, nTime))
      modifies this, db, nodes
      ensures MapOk() && Standing() && fresh(nodes - old(nodes))
      ensures passed == old(
        && block.hash !in mapBlockIndex && hashPrevBlock in mapBlockIndex
        && mapBlockIndex[hashPrevBlock].Linked() && TimeOk(mapBlockIndex[hashPrevBlock], nTime, nAdjustedTime)
        && RulesOk(rules, mapBlockIndex[hashPrevBlock], block, nBits, nTime))
      ensures !passed ==> !ok && mapBlockIndex == old(mapBlockIndex)
      ensures passed ==> block.hash in mapBlockIndex && var made := mapBlockIndex[block.hash];
        && mapBlockIndex == old(mapBlockIndex)[block.hash := made] && fresh(made) && EnforceBIP30(made.rec)
        && made.rec == old(NodeRec(block, hashPrevBlock, nFile, nBlockPos, nTime))
        && made.pprev == old(mapBlockIndex[hashPrevBlock]) && made.nChainWork == made.pprev.nChainWork + nWork
        && Became(made, old(pindexBest), old(SkipSigs()), old(db.committed.txs), ok, reached)
        && (ok && made.nChainWork > old(pindexBest).nChainWork ==>
              NewPassed(env, old(nBestHeight) < env.totalBlocksEstimate, old(db.committed.txs), old(pindexBest), made,
                reached.rec.nHeight + 1))
      ensures !ok ==> pindexBest == old(pindexBest) && db.committed.txs == old(db.committed.txs)
      ensures old(Valid()) && !ok ==> Valid()
      ensures old(Valid()) && ok ==> var made := mapBlockIndex[block.hash];
        BestLinked(old(pindexBest), made)
        && (Valid() <==> made.nChainWork <= old(pindexBest).nChainWork || made.pprev == old(pindexBest)
                         || Completes(env, old(SkipSigs()), old(db.committed.txs), old(pindexBest), made))
      ensures old(Valid()) && ok && reached != null ==> At(reached)
    {
      hide Inv, Tree, DiskLinks, MemLinks, Median, Times, Stored, IndexOk, BestIndex, Completes, Recs, BlockIndex.Line;
      hide NewPassed, Became;
      passed, reached := false, null;
      if block.hash in mapBlockIndex { return false, false, null; }
      if hashPrevBlock !in mapBlockIndex { return false, false, null; }
      var pindexPrev := mapBlockIndex[hashPrevBlock];
      TreeParent(env, nodes, pindexPrev);
      var inContext := CheckInContext(rules, pindexPrev, block, nBits, nTime, nAdjustedTime);
      if !inContext { return false, false, null; }
      assert nTime > Median(Times(pindexPrev.Line()));
      AfterMedian(env, nodes, pindexPrev, nTime);
      hide TimeOk, RulesOk;
      passed := true;
      ok, reached := AddToBlockIndex(block, hashPrevBlock, nFile, nBlockPos, nTime, nWork);
      ghost var made := mapBlockIndex[block.hash];
      if ok && made.nChainWork > old(pindexBest).nChainWork {
        BecamePassed(made, old(pindexBest), old(SkipSigs()), old(db.committed.txs), ok, reached);
      }
    }

    /** IsInMainChain holds of exactly the best block and its ancestors, pprev undoes pnext, and the
        committed hashNext records agree with pnext. */
    lemma MainChainExact(n: BlockIndex)
      requires Valid() && n in nodes
      ensures IsInMainChain(n) <==> IsAncestor(n, pindexBest)
      ensures n.pnext != null ==> n.pnext.pprev == n && IsAncestor(n.pnext, pindexBest)
      ensures db.committed.hashNext[n.rec.block.hash] == HashOf(n.pnext)
    {
      hide Inv;
      var tip: BlockIndex := pindexBest;
      if IsAncestor(n, tip) && n != tip {
        AncestorAt(n, tip);
        LineAt(tip, n.rec.nHeight + 1);
      }
    }

    /** The committed index has the unspent outputs of a replay of ConnectBlock from genesis along the
        best chain, worth no more than the subsidies of that chain. */
    lemma IndexReplays()
      requires Valid()
      ensures var chain := Recs(pindexBest.Line());
        && Replay(env, chain).Some? && SameUnspent(db.committed.txs, Replay(env, chain).value)
        && IndexOk(env, db.committed.txs) && 0 <= Total(env, db.committed.txs) <= Subsidies(env, chain)
    {
      hide MemLinks, DiskLinks, Built;
      InvMeans(env, State(db.committed.txs, Recs(pindexBest.Line())));
      BuiltSupply(env, Recs(pindexBest.Line()), db.committed.txs);
    }
  }
}
