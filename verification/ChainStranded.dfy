/** What follows when a postponed reconnect fails, on one tree of blocks that the node accepts. The program stops
    after it has filed a valid block with more work than the best, and before it makes it the best. After the restart
    a block on top of that one arrives. It passes every test a block has to pass before it is filed; but it spends an
    output once more, which only ConnectBlock sees. */
module ChainStranded {
  import opened Basics
  import opened ChainModel
  import opened ChainLaws
  import opened ChainSupply
  import opened ChainRuns
  import opened ChainDb
  import opened ChainReorg
  import opened ChainTree
  import opened ChainState
  import opened ChainFailures
  import opened MedianTime

  /* ---- the blocks ---- */

  lemma AgainIs()
    ensures CheckTransaction(AGAIN) && ValueOut(AGAIN.vout) == 10 && AGAIN.vin[..1] == AGAIN.vin && AGAIN.vin[..0] == []
    ensures OpsOf(AGAIN.vin) == {OutPoint(101, 0)}
  {
    assert AGAIN.vout[..0] == [] && AGAIN.vout[..1] == AGAIN.vout;
    assert AGAIN.vin[0].prevout == OutPoint(101, 0);
  }

  /** C passes the tests that come before it is filed. */
  lemma CChecks()
    ensures CheckBlock(RepeatEnv(), C.block)
  {
    hide RepeatEnv, CheckTransaction;
    var vtx := C.block.vtx;
    AgainIs();
    CoinbaseIs(203);
    RepeatFree(C.block, AGAIN, AGAIN, 0, [], []);
    assert vtx[..1] == [Coinbase(203)] && vtx[..1][..0] == [];
    assert SigOps(vtx[..1]) == SigOps([]) + 0;
  }

  /** It does not connect where the output has been spent. */
  lemma CRefused(path: seq<BlockRec>, skipSigs: bool, idx: Index)
    requires 101 in idx && !Live(idx[101])
    ensures ConnectBlock(RepeatEnv(), path, skipSigs, idx, C) == None
  {
    hide RepeatEnv, CheckBlock;
    var env, ctx := RepeatEnv(), BlockCtx(path, C, skipSigs);
    var first := ConnectTxs(env, ctx, idx, C, 1);
    CFirst(env, ctx, idx);
    if first.Some? {
      NotSpendable(env, ctx, first.value.view);
      assert ConnectTxs(env, ctx, idx, C, 2) == None;
    }
  }

  lemma CFirst(env: Env, ctx: Ctx, idx: Index)
    ensures var first := ConnectTxs(env, ctx, idx, C, 1);
      first.Some? ==> first.value.view == idx[203 := Fresh(TxPos(C, 0), 1)]
  {
    hide TxPos, Fresh, Live;
    assert ConnectTxs(env, ctx, idx, C, 0) == Some(Acc(idx, 0, 0));
  }

  lemma NotSpendable(env: Env, ctx: Ctx, view: Index)
    requires 101 in view && !Live(view[101])
    ensures AllFound(env, view, AGAIN.vin) ==> !Spendable(env, ctx, view, AGAIN)
  {
    if AllFound(env, view, AGAIN.vin) {
      assert Found(env, view, AGAIN.vin[0].prevout);
      assert !InputOk(env, ctx, view, AGAIN, 0);
    }
  }

  /* ---- lines and times ---- */

  /** Of times none of which is later than x the median is not later. */
  lemma MedianBelow(times: seq<int>, x: int)
    requires times != [] && forall i :: 0 <= i < |times| ==> times[i] <= x
    ensures Median(times) <= x
  {
    var w := Window(times);
    var r := Sort(w);
    assert r[|w| / 2] in multiset(r);
    assert r[|w| / 2] in w;
    var i :| 0 <= i < |w| && w[i] == r[|w| / 2];
    assert w[i] <= x;
  }

  /** The node ends a line whose last block is dated as given, and no block of it later. */
  ghost predicate LineIs(p: BlockIndex, line: seq<BlockRec>, nTime: nat) {
    && p.Linked() && Recs(p.Line()) == line && p.rec.nHeight + 1 == |line| && p.rec.nTime == nTime
    && forall i :: 0 <= i < |line| ==> line[i].nTime <= nTime
  }

  /** A block a second later is in time. */
  lemma InTime(p: BlockIndex, line: seq<BlockRec>, nTime: nat)
    requires LineIs(p, line, nTime)
    ensures Median(Times(p.Line())) < nTime + 1 && TimeIsOk(p, nTime + 1)
  {
    hide Median;
    var times := Times(p.Line());
    forall i | 0 <= i < |times| ensures times[i] <= nTime { assert times[i] == Recs(p.Line())[i].nTime; }
    MedianBelow(times, nTime);
  }

  /** The time passes all the tests, the clock being right. */
  ghost predicate TimeIsOk(p: BlockIndex, nTime: nat)
    requires p.Linked()
  {
    nTime > Median(Times(p.Line())) && nTime > p.rec.nTime - 30 * 60
  }

  lemma NextLine(p: BlockIndex, line: seq<BlockRec>, nTime: nat, q: BlockIndex)
    requires LineIs(p, line, nTime) && q.pprev == p && q.rec.nHeight == p.rec.nHeight + 1 && q.rec.nTime == nTime + 1
    ensures LineIs(q, line + [q.rec], nTime + 1) && q.Line() == p.Line() + [q]
  {
    assert q.Linked();
    assert Recs(q.Line()) == Recs(p.Line()) + [q.rec];
  }

  /** The fork of two children of one node. */
  lemma Siblings(p: BlockIndex, a: BlockIndex, b: BlockIndex)
    requires p.Linked() && a.Linked() && b.Linked() && a.pprev == p && b.pprev == p && a != b
    ensures Common(a.Line(), b.Line()) == p.rec.nHeight + 1
  {
    var n := p.rec.nHeight + 1;
    assert a.Line()[..n] == p.Line() && b.Line()[..n] == p.Line();
    CommonAtLeast(a.Line(), b.Line(), n);
    assert a.Line()[n] == a && b.Line()[n] == b;
    CommonAtMost(a.Line(), b.Line(), n);
  }

  lemma CommonAtMost(a: seq<BlockIndex>, b: seq<BlockIndex>, n: nat)
    requires n < |a| && n < |b| && a[n] != b[n]
    ensures Common(a, b) <= n
  {
  }

  /** A node and its child. */
  lemma ChildForks(p: BlockIndex, q: BlockIndex)
    requires p.Linked() && q.Linked() && q.pprev == p
    ensures Common(p.Line(), q.Line()) == p.rec.nHeight + 1
  {
    var n := p.rec.nHeight + 1;
    assert p.Line()[..n] == q.Line()[..n] == p.Line();
    CommonAtLeast(p.Line(), q.Line(), n);
  }

  /* ---- what the unspent outputs are worth ---- */

  lemma {:induction false} FilledTotal(n: nat)
    requires n <= 18
    ensures IndexOk(RepeatEnv(), Filled(n)) && Total(RepeatEnv(), Filled(n)) == 10 * n
  {
    hide RepeatEnv, IndexOk, Filler, Total;
    if n == 0 {
      EmptyIsOk(RepeatEnv());
    } else {
      FilledTotal(n - 1);
      FillerStored(n);
      PlainRecord(RepeatEnv(), Filler(n), 100 + n);
      TotalUpdate(RepeatEnv(), Filled(n - 1), 100 + n, Fresh(TxPos(Filler(n), 0), 1));
    }
  }

  /** The record of a block's one coinbase. */
  lemma PlainRecord(env: Env, b: BlockRec, h: Hash)
    requires b.block.vtx == [Coinbase(h)] && Stored(env, b)
    ensures var e := Fresh(TxPos(b, 0), 1); EntryOk(env, h, e) && EntryValue(env, e) == 10
  {
    CoinbaseIs(h);
    FreshValue(Coinbase(h).vout, TxPos(b, 0));
    assert TxOffset(b, 0) > 1;
  }

  lemma AfterB1Total()
    ensures IndexOk(RepeatEnv(), AfterB1()) && Total(RepeatEnv(), AfterB1()) == 160
  {
    hide RepeatEnv, IndexOk, Total, AfterB1, Filled, Line, CheckBlock, Stored, ConnectTxs, Live;
    FilledTotal(15);
    B1Connects();
    B1Checks();
    RepeatStored();
    NoneFiled(Filled(15));
    CoinbaseIs(200);
    ConnectTxsValue(RepeatEnv(), BlockCtx(Line(15), B1, false), Filled(15), B1, 2);
  }

  lemma NoneFiled(idx: Index)
    requires 200 !in idx && 9 !in idx
    ensures NoLiveOverwrite(idx, B1.block.vtx)
  {
    hide Live;
  }

  lemma AfterB1Keys()
    ensures 9 in AfterB1() && 101 in AfterB1() && 10 !in AfterB1() && 203 !in AfterB1() && 204 !in AfterB1()
    ensures 205 !in AfterB1() && |AfterB1()[101].vSpent| == 1
    ensures TxAt(RepeatEnv(), 101, AfterB1()[101].pos) == Some(Coinbase(101))
  {
    hide RepeatEnv, TxPos, Filler, MarkEntry, Filled, OpsOf;
    var was := Filled(15)[200 := Fresh(TxPos(B1, 0), 1)];
    assert was[101] == Fresh(TxPos(Filler(1), 0), 1);
    assert AfterB1()[101] == MarkEntry(101, was[101], OpsOf(SPEND.vin), TxPos(B1, 1));
    MarkedAlike(101, was[101], OpsOf(SPEND.vin), TxPos(B1, 1));
    FillerStored(1);
    FillerPos();
    NotNull(Filler(1), 0);
  }

  lemma MarkedAlike(h: Hash, e: TxIndex, ops: set<OutPoint>, pos: DiskTxPos)
    ensures MarkEntry(h, e, ops, pos).pos == e.pos && |MarkEntry(h, e, ops, pos).vSpent| == |e.vSpent|
  {
  }

  /** The index with C undone, which has never been connected: the first coinbase is unspent again. */
  function AfterUndo(): Index { Mark(AfterB1(), OpsOf(AGAIN.vin), NullPos) - {10} - {203} }

  lemma UndoC()
    ensures DisconnectBlock(AfterB1(), C.block) == Some(AfterUndo())
    ensures IsUnspent(AfterUndo(), OutPoint(101, 0)) && 9 in AfterUndo() && 204 !in AfterUndo()
  {
    hide AfterB1;
    AfterB1Keys();
    AgainIs();
    var vtx := C.block.vtx;
    assert DisconnectTxs(AfterB1(), vtx, 2) == Some(AfterB1());
    assert DisconnectTxs(AfterB1(), vtx, 1) == Some(Mark(AfterB1(), OpsOf(AGAIN.vin), NullPos) - {10});
  }

  lemma AfterUndoTotal()
    ensures IndexOk(RepeatEnv(), AfterUndo()) && Total(RepeatEnv(), AfterUndo()) == 170
  {
    hide AfterB1, IndexOk, Total, RepeatEnv, SpentValue, EntryValue, AllFound, CheckTransaction;
    AfterB1Keys();
    AfterB1Total();
    AgainDistinct();
    UndoTxValue(RepeatEnv(), AfterB1(), AGAIN);
    SpentAgain();
    DropValue(RepeatEnv(), Mark(AfterB1(), OpsOf(AGAIN.vin), NullPos) - {10}, 203);
  }

  lemma AgainDistinct()
    ensures DistinctInputs(AGAIN.vin) && forall i :: 0 <= i < |AGAIN.vin| ==> AGAIN.vin[i].prevout == OutPoint(101, 0)
  {
  }

  lemma SpentAgain()
    requires AllFound(RepeatEnv(), AfterB1(), AGAIN.vin)
    ensures SpentValue(RepeatEnv(), AfterB1(), AGAIN.vin) == 10
  {
    hide AfterB1, RepeatEnv;
    AfterB1Keys();
    B1Connects();
    AgainIs();
    assert AllFound(RepeatEnv(), AfterB1(), AGAIN.vin[..0]);
    assert SpentValue(RepeatEnv(), AfterB1(), AGAIN.vin[..0]) == 0;
    assert !IsUnspent(AfterB1(), OutPoint(101, 0));
  }

  /** And with D connected instead. */
  function AfterD(): Index { AfterUndo()[204 := Fresh(TxPos(D, 0), 1)] }

  lemma AfterDTotal()
    ensures Total(RepeatEnv(), AfterD()) == 180 && 9 in AfterD() && IsUnspent(AfterD(), OutPoint(101, 0))
  {
    hide AfterUndo, IndexOk, Total, RepeatEnv, TxPos;
    UndoC();
    AfterUndoTotal();
    RepeatStored();
    PlainRecord(RepeatEnv(), D, 204);
    TotalUpdate(RepeatEnv(), AfterUndo(), 204, Fresh(TxPos(D, 0), 1));
  }

  lemma {:induction false} SubsidiesFlat(env: Env, line: seq<BlockRec>)
    requires line != [] && forall n :: env.subsidy(n) == 10
    ensures Subsidies(env, line) == 10 * (|line| - 1)
  {
    if |line| > 1 { SubsidiesFlat(env, line[..|line| - 1]); }
  }

  /* ---- which index SetBestChain makes ---- */

  /** The best block, a valid block filed on top of it, and C on top of that. */
  ghost predicate Filed(tip: BlockIndex, b: BlockIndex, c: BlockIndex) {
    && LineIs(tip, Line(15), GENESIS_TIME + 15)
    && b.pprev == tip && b.rec == B1 && b.nChainWork == tip.nChainWork + 1
    && c.pprev == b && c.rec == C && c.nChainWork == b.nChainWork + 1
  }

  lemma FiledLines(tip: BlockIndex, b: BlockIndex, c: BlockIndex)
    requires Filed(tip, b, c)
    ensures LineIs(b, Line(15) + [B1], GENESIS_TIME + 16) && b.Line() == tip.Line() + [b]
    ensures LineIs(c, Line(15) + [B1] + [C], GENESIS_TIME + 17) && c.Line() == b.Line() + [c]
  {
    hide Line;
    NextLine(tip, Line(15), GENESIS_TIME + 15, b);
    NextLine(b, Line(15) + [B1], GENESIS_TIME + 16, c);
  }

  /** Making C the best block reorganizes to the block below it, and then C does not connect. */
  lemma ToC(tip: BlockIndex, b: BlockIndex, c: BlockIndex)
    requires Filed(tip, b, c)
    ensures tip.Linked() && c.Linked() && c.pprev != tip
    ensures BestIndex(RepeatEnv(), false, Filled(15), tip, c) == Some((17, AfterB1()))
    ensures !Completes(RepeatEnv(), false, Filled(15), tip, c)
  {
    hide RepeatEnv, AfterB1, Filled, Line, Common, Switch, AsFar, ConnectFrom;
    FiledLines(tip, b, c);
    ChildForks(tip, b);
    assert Intermediate(tip, b) == b;
    SwitchesToB();
    StopsBelowC();
  }

  lemma SwitchesToB()
    ensures Switch(RepeatEnv(), false, Filled(15), Line(15), Line(15) + [B1], 16) == Some(AfterB1())
  {
    hide RepeatEnv, ChainModel.ConnectBlock, AfterB1, Filled, Line, Live;
    B1Connects();
    RepeatFree(B1.block, SPEND, SPEND, 0, [], []);
    var line := Line(15) + [B1];
    assert line[..16] == Line(15) && line[16] == B1;
    assert ConnectFrom(RepeatEnv(), false, AfterB1(), line, 17) == Some(AfterB1());
  }

  lemma StopsBelowC()
    ensures AsFar(RepeatEnv(), false, AfterB1(), Line(15) + [B1] + [C], 17) == (17, AfterB1())
    ensures ConnectFrom(RepeatEnv(), false, AfterB1(), Line(15) + [B1] + [C], 17) == None
  {
    hide RepeatEnv, ChainModel.ConnectBlock, AfterB1, Filled, Line, Live;
    B1Connects();
    var line := Line(15) + [B1];
    CRefused(line, false, AfterB1());
    assert (line + [C])[..17] == line && (line + [C])[17] == C;
  }

  /** From C to a sibling with more work: C, which was never connected, is undone. */
  lemma ToD(tip: BlockIndex, b: BlockIndex, c: BlockIndex, d: BlockIndex)
    requires Filed(tip, b, c) && d.pprev == b && d.rec == D && d.nChainWork == b.nChainWork + 2
    ensures c.Linked() && d.Linked() && BestIndex(RepeatEnv(), false, AfterB1(), c, d) == Some((18, AfterD()))
    ensures Recs(d.Line()) == Line(15) + [B1] + [D]
  {
    hide Line, RepeatEnv, AfterB1, AfterD, Common, Switch, AsFar, ConnectFrom;
    FiledLines(tip, b, c);
    NextLine(b, Line(15) + [B1], GENESIS_TIME + 16, d);
    Siblings(b, c, d);
    assert Intermediate(c, d) == d;
    SwitchesToD();
    AsFarEnd(RepeatEnv(), false, AfterD(), Recs(d.Line()));
  }

  lemma SwitchesToD()
    ensures Switch(RepeatEnv(), false, AfterB1(), Line(15) + [B1] + [C], Line(15) + [B1] + [D], 17) == Some(AfterD())
  {
    hide RepeatEnv, ChainModel.ConnectBlock, ChainModel.DisconnectBlock, AfterB1, AfterUndo, Line, Live, TxPos, Fresh;
    var line := Line(15) + [B1];
    CUndone(line);
    DConnected(line);
  }

  lemma CUndone(line: seq<BlockRec>)
    requires |line| == 17
    ensures DisconnectTo(RepeatEnv(), AfterB1(), line + [C], 17) == Some(AfterUndo())
  {
    hide RepeatEnv, ChainModel.DisconnectBlock, AfterB1, AfterUndo;
    UndoC();
    RepeatFree(C.block, AGAIN, AGAIN, 0, [], []);
    assert (line + [C])[..17] == line && (line + [C])[17] == C;
    assert DisconnectTo(RepeatEnv(), AfterUndo(), line, 17) == Some(AfterUndo());
  }

  lemma DConnected(line: seq<BlockRec>)
    requires |line| == 17
    ensures ConnectFrom(RepeatEnv(), false, AfterUndo(), line + [D], 17) == Some(AfterD())
  {
    hide RepeatEnv, ChainModel.ConnectBlock, AfterB1, AfterUndo, Live, TxPos, Fresh;
    UndoC();
    RepeatFree(D.block, AGAIN, AGAIN, 0, [], []);
    RepeatConnects(line, false, AfterUndo(), D, 204);
    assert (line + [D])[..17] == line && (line + [D])[17] == D;
    assert ConnectFrom(RepeatEnv(), false, AfterD(), line + [D], 18) == Some(AfterD());
  }

  /** On top of C a block connects all the same. */
  lemma ToE(tip: BlockIndex, b: BlockIndex, c: BlockIndex, e: BlockIndex)
    requires Filed(tip, b, c) && e.pprev == c && e.rec == E
    ensures c.Linked() && e.Linked() && BestIndex(RepeatEnv(), false, AfterB1(), c, e).Some?
    ensures Recs(e.Line()) == Line(15) + [B1] + [C] + [E] && Replay(RepeatEnv(), Recs(e.Line())) == None
  {
    hide Line, RepeatEnv, ChainModel.ConnectBlock, AfterB1, Live, TxPos, Fresh;
    FiledLines(tip, b, c);
    NextLine(c, Line(15) + [B1] + [C], GENESIS_TIME + 17, e);
    AfterB1Keys();
    RepeatConnects(Line(15) + [B1] + [C], false, AfterB1(), E, 205);
    NoReplay(Recs(e.Line()));
  }

  lemma NoReplay(line: seq<BlockRec>)
    requires line == Line(15) + [B1] + [C] + [E]
    ensures Replay(RepeatEnv(), line) == None
  {
    hide RepeatEnv, ChainModel.ConnectBlock, AfterB1, Live, Line, Filled;
    FillersRun(15);
    B1Connects();
    SkipSigsKeepsResult(RepeatEnv(), Line(15), false, Filled(15), B1);
    CRefused(Line(15) + [B1], true, AfterB1());
    var two, three := Line(15) + [B1], Line(15) + [B1] + [C];
    assert two[..16] == Line(15) && three[..17] == two && line[..18] == three;
    assert Replay(RepeatEnv(), two) == Some(AfterB1());
    assert Replay(RepeatEnv(), three) == None;
  }

  /* ---- on the node itself ---- */

  /** All transactions are final, and there are no checkpoints. */
  function Lenient(): Rules { Rules((prev, nTime) => 0, (tx, nHeight, nTime) => true, (nHeight, hash) => true) }

  /** The chain has grown to the n-th filler. */
  ghost predicate Grown(chain: Chain, tip: BlockIndex, n: nat)
    reads chain, chain.nodes, chain.db
  {
    && chain.env == RepeatEnv() && chain.Valid() && chain.MapOk() && chain.pindexBest == tip
    && LineIs(tip, Line(n), GENESIS_TIME + n) && tip.nChainWork == n + 1 && chain.db.committed.txs == Filled(n)
    && 1000 + n in chain.mapBlockIndex && chain.mapBlockIndex[1000 + n] == tip
    && forall h :: h in chain.mapBlockIndex ==> 1000 <= h <= 1000 + n
  }

  /** A node with genesis only. */
  method Genesis() returns (chain: Chain, g: BlockIndex)
    ensures fresh(chain) && fresh(chain.db) && fresh(chain.nodes) && Grown(chain, g, 0)
  {
    hide Inv, Tree, DiskLinks, MemLinks, Completes, Stored, Median, Times, RepeatEnv, IndexOk;
    var db := new TxDB(Records(map[], map[], 0));
    chain := new Chain(RepeatEnv(), 1000, db);
    ghost var reached;
    var ok;
    ok, reached := chain.AddToBlockIndex(GENESIS.block, 0, 0, 0, GENESIS_TIME, 1);
    g := chain.pindexBest;
    assert g.Line() == [g];
    assert Recs(g.Line()) == [GENESIS];
  }

  /** One more filler is accepted. */
  method Grow(chain: Chain, tip: BlockIndex, n: nat) returns (next: BlockIndex)
    requires Grown(chain, tip, n) && n < 15
    modifies chain, chain.db, chain.nodes
    ensures Grown(chain, next, n + 1) && fresh(chain.nodes - old(chain.nodes))
  {
    hide Inv, Tree, DiskLinks, MemLinks, Completes, Stored, Median, Times, RepeatEnv, IndexOk, Filled, Line, BestIndex;
    var b := Filler(n + 1);
    FillerStored(n + 1);
    RepeatFree(b.block, SPEND, SPEND, 0, [], []);
    InTime(tip, Line(n), GENESIS_TIME + n);
    ghost var reached, passed;
    var ok;
    ok, passed, reached := chain.AcceptBlock(Lenient(), b.block, 1000 + n, 0, b.nTime, 1, b.nTime, n + 1, 500);
    next := chain.mapBlockIndex[b.block.hash];
    GrownIndex(tip, next, n);
  }

  lemma GrownIndex(tip: BlockIndex, next: BlockIndex, n: nat)
    requires LineIs(tip, Line(n), GENESIS_TIME + n) && n < 15 && next.pprev == tip && next.rec == Filler(n + 1)
    ensures LineIs(next, Line(n + 1), GENESIS_TIME + n + 1)
    ensures BestIndex(RepeatEnv(), false, Filled(n), tip, next) == Some((n + 2, Filled(n + 1)))
  {
    hide RepeatEnv, ChainModel.ConnectBlock, Filled, TxPos, Live, Intermediate, AsFar;
    NextLine(tip, Line(n), GENESIS_TIME + n, next);
    FillerConnects(n + 1, false);
  }

  /** The best block was never connected, although it and its parent have been filed; index, links and disk records
      describe the line to its parent. */
  ghost predicate Stranded(chain: Chain, tip: BlockIndex, b: BlockIndex, c: BlockIndex)
    reads chain, chain.nodes, chain.db
  {
    && chain.env == RepeatEnv() && chain.Standing() && chain.MapOk() && chain.pindexBest == c && Filed(tip, b, c)
    && chain.At(b) && chain.db.committed.txs == AfterB1()
    && 1 in chain.mapBlockIndex && chain.mapBlockIndex[1] == b
    && 3 in chain.mapBlockIndex && chain.mapBlockIndex[3] == c
    && 4 !in chain.mapBlockIndex && 5 !in chain.mapBlockIndex
  }

  /** Genesis and 15 blocks, all accepted. */
  method GrowAll() returns (chain: Chain, tip: BlockIndex)
    ensures fresh(chain) && fresh(chain.db) && fresh(chain.nodes) && Grown(chain, tip, 15)
  {
    hide Grown;
    chain, tip := Genesis();
    var n := 0;
    while n < 15
      invariant 0 <= n <= 15 && fresh(chain) && fresh(chain.db) && fresh(chain.nodes) && Grown(chain, tip, n)
    {
      tip := Grow(chain, tip, n);
      n := n + 1;
    }
  }

  /** B1 is filed, and the program stops before it makes it the best block. */
  method FileB1(chain: Chain, tip: BlockIndex) returns (b: BlockIndex)
    requires Grown(chain, tip, 15)
    modifies chain, chain.db
    ensures chain.env == RepeatEnv() && chain.Valid() && chain.MapOk() && chain.pindexBest == tip
    ensures LineIs(tip, Line(15), GENESIS_TIME + 15) && b.pprev == tip && b.rec == B1
    ensures b.nChainWork == tip.nChainWork + 1 && chain.db.committed.txs == Filled(15)
    ensures 1 in chain.mapBlockIndex && chain.mapBlockIndex[1] == b
    ensures forall h :: h in chain.mapBlockIndex ==> h == 1 || 1000 <= h <= 1015
    ensures fresh(chain.nodes - old(chain.nodes))
  {
    hide Inv, Tree, DiskLinks, MemLinks, Stored, Median, Times, RepeatEnv, IndexOk, Filled, Line;
    RepeatStored();
    InTime(tip, Line(15), GENESIS_TIME + 15);
    b := chain.AddNode(B1.block, 1015, 201, 500, GENESIS_TIME + 16, 1, tip);
  }

  /** After the restart C is accepted. SetBestChain succeeds and makes it the best block, although the index and the
      links describe the line to its parent only: C has not been connected, and cannot be. */
  method PostponedReconnectFails() returns (chain: Chain, ghost tip: BlockIndex, b: BlockIndex, c: BlockIndex)
    ensures fresh(chain) && fresh(chain.db) && fresh(chain.nodes)
    ensures Stranded(chain, tip, b, c) && !chain.Valid()
    ensures CheckBlock(chain.env, C.block)
    ensures forall path, skipSigs :: ConnectBlock(chain.env, path, skipSigs, chain.db.committed.txs, C) == None
  {
    hide Inv, Tree, DiskLinks, MemLinks, Completes, Stored, Median, Times, RepeatEnv, IndexOk, Filled, Line, BestIndex;
    hide AfterB1, CheckBlock, ChainModel.ConnectBlock, Live, LineIs, Grown, Chain.Valid;
    var top;
    chain, top := GrowAll();
    tip := top;
    b := FileB1(chain, top);
    c := AcceptC(chain, top, b);
    CNeverConnects();
  }

  lemma CNeverConnects()
    ensures CheckBlock(RepeatEnv(), C.block)
    ensures forall path, skipSigs :: ConnectBlock(RepeatEnv(), path, skipSigs, AfterB1(), C) == None
  {
    hide RepeatEnv, AfterB1, CheckBlock, ChainModel.ConnectBlock, Live;
    CChecks();
    B1Connects();
    forall path, skipSigs ensures ConnectBlock(RepeatEnv(), path, skipSigs, AfterB1(), C) == None {
      CRefused(path, skipSigs, AfterB1());
    }
  }

  method AcceptC(chain: Chain, tip: BlockIndex, b: BlockIndex) returns (c: BlockIndex)
    requires chain.env == RepeatEnv() && chain.Valid() && chain.MapOk() && chain.pindexBest == tip
    requires LineIs(tip, Line(15), GENESIS_TIME + 15) && b.pprev == tip && b.rec == B1
    requires b.nChainWork == tip.nChainWork + 1 && chain.db.committed.txs == Filled(15)
    requires 1 in chain.mapBlockIndex && chain.mapBlockIndex[1] == b
    requires forall h :: h in chain.mapBlockIndex ==> h == 1 || 1000 <= h <= 1015
    modifies chain, chain.db, chain.nodes
    ensures Stranded(chain, tip, b, c) && !chain.Valid() && fresh(chain.nodes - old(chain.nodes))
  {
    hide Inv, Tree, DiskLinks, MemLinks, Completes, Stored, Median, Times, RepeatEnv, IndexOk, Filled, Line, BestIndex;
    hide AfterB1, Chain.Became, BlockIndex.Line;
    RepeatStored();
    RepeatFree(C.block, SPEND, SPEND, 0, [], []);
    NextLine(tip, Line(15), GENESIS_TIME + 15, b);
    InTime(b, Line(15) + [B1], GENESIS_TIME + 16);
    ghost var reached, passed;
    var ok;
    ok, passed, reached := chain.AcceptBlock(Lenient(), C.block, 1, 0, C.nTime, 1, C.nTime, C.nFile, C.nBlockPos);
    c := chain.mapBlockIndex[3];
    ToC(tip, b, c);
    CBecame(chain, tip, b, c, ok, reached);
  }

  lemma CBecame(chain: Chain, tip: BlockIndex, b: BlockIndex, c: BlockIndex, ok: bool, reached: BlockIndex?)
    requires chain.env == RepeatEnv() && Filed(tip, b, c) && chain.Became(c, tip, false, Filled(15), ok, reached)
    ensures ok && reached == b && chain.pindexBest == c && chain.db.committed.txs == AfterB1()
  {
    hide RepeatEnv, Filled, AfterB1, BestIndex, BlockIndex.Line;
    ToC(tip, b, c);
    ReachedB(tip, b, c, reached);
  }

  lemma ReachedB(tip: BlockIndex, b: BlockIndex, c: BlockIndex, reached: BlockIndex)
    requires Filed(tip, b, c) && c.Linked() && reached.Linked() && IsAncestor(reached, c) && reached.rec.nHeight == 16
    ensures reached == b
  {
    FiledLines(tip, b, c);
    hide Line;
    AncestorAt(reached, c);
    assert c.Line()[16] == b.Line()[16] == b;
  }

  /** A sibling of C with more work is accepted. C is undone first, which clears the mark of the output it names,
      although B1 has spent that output; so it is unspent again, together with what B1 made of it, and the unspent
      outputs are worth more than all the subsidies. */
  method SpentComesBack() returns (chain: Chain)
    ensures fresh(chain) && chain.Standing() && !chain.Valid()
    ensures chain.pindexBest.Linked() && chain.pindexBest.rec == D && B1 in Recs(chain.pindexBest.Line())
    ensures SPEND in B1.block.vtx && SPEND.vin[0].prevout == OutPoint(101, 0)
    ensures SPEND.hash in chain.db.committed.txs && IsUnspent(chain.db.committed.txs, OutPoint(101, 0))
    ensures var env, line := chain.env, Recs(chain.pindexBest.Line());
      Total(env, chain.db.committed.txs) == 180 && Subsidies(env, line) == 170
  {
    hide Inv, Tree, DiskLinks, MemLinks, Completes, Stored, Median, Times, RepeatEnv, IndexOk, Filled, Line, BestIndex;
    hide AfterB1, AfterD, Total, Subsidies, CheckBlock, ChainModel.ConnectBlock;
    ghost var tip;
    var b, c;
    chain, tip, b, c := PostponedReconnectFails();
    FiledLines(tip, b, c);
    RepeatStored();
    RepeatFree(D.block, SPEND, SPEND, 0, [], []);
    InTime(b, Line(15) + [B1], GENESIS_TIME + 16);
    ghost var reached, passed;
    var ok;
    ok, passed, reached := chain.AcceptBlock(Lenient(), D.block, 1, 0, D.nTime, 2, D.nTime, D.nFile, D.nBlockPos);
    ghost var d := chain.mapBlockIndex[4];
    ToD(tip, b, c, d);
    AfterDTotal();
    SubsidiesFlat(RepeatEnv(), Recs(d.Line()));
    if chain.Valid() { chain.IndexReplays(); }
  }

  /** Or a block on top of C is accepted: it connects, to an index that belongs to no line, since its own line does not
      replay. */
  method NextBlockConnectsAnyway() returns (chain: Chain, ok: bool)
    ensures fresh(chain) && ok && chain.Standing() && !chain.Valid()
    ensures chain.pindexBest.Linked() && chain.pindexBest.rec == E
    ensures Replay(chain.env, Recs(chain.pindexBest.Line())) == None
  {
    hide Inv, Tree, DiskLinks, MemLinks, Completes, Stored, Median, Times, RepeatEnv, IndexOk, Filled, Line, BestIndex;
    hide AfterB1, Total, Subsidies, CheckBlock, ChainModel.ConnectBlock, Replay;
    ghost var tip;
    var b, c;
    chain, tip, b, c := PostponedReconnectFails();
    FiledLines(tip, b, c);
    RepeatStored();
    RepeatFree(E.block, SPEND, SPEND, 0, [], []);
    InTime(c, Line(15) + [B1] + [C], GENESIS_TIME + 17);
    ghost var reached, passed;
    ok, passed, reached := chain.AcceptBlock(Lenient(), E.block, 3, 0, E.nTime, 1, E.nTime, E.nFile, E.nBlockPos);
    ToE(tip, b, c, chain.mapBlockIndex[5]);
    if chain.Valid() { chain.IndexReplays(); }
  }
}
