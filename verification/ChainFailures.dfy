/** Concrete chains on which the code does less than one might expect. */
module ChainFailures {
  import opened Basics
  import opened ChainModel
  import opened ChainLaws
  import opened ChainRuns
  import opened ChainReorg
  import opened ChainTree

  function Coinbase(h: Hash): Tx {
    Tx(h, [TxIn(OutPoint(0, NULL_N), [1, h])], [TxOut(10, [])], 60, 0)
  }

  /** All headers and signatures are good, all blocks can be read, and the subsidy is what a coinbase here claims. */
  function ExampleEnv(disk: map<DiskTxPos, Tx>): Env {
    Env(disk, map[], (prev, tx, i, strict) => true, (script, sig) => 0, height => 10,
        (block: Block) => true, h => true, 0)
  }

  /** A block of one coinbase. */
  function Plain(hash: Hash, nFile: nat, nHeight: nat, nTime: nat, h: Hash): BlockRec {
    BlockRec(Block(hash, [Coinbase(h)]), nFile, 500, nHeight, nTime)
  }

  lemma CoinbaseIs(h: Hash)
    ensures CheckTransaction(Coinbase(h)) && ValueOut(Coinbase(h).vout) == 10
  {
    assert Coinbase(h).vout[..0] == [] && Coinbase(h).vout[..1] == Coinbase(h).vout;
  }

  lemma PlainChecks(env: Env, b: BlockRec, h: Hash)
    requires b.block.vtx == [Coinbase(h)] && env.headerOk(b.block)
    ensures CheckBlock(env, b.block) && ValueOut(Coinbase(h).vout) == 10
  {
    hide CheckTransaction;
    CoinbaseIs(h);
    assert b.block.vtx[..0] == [];
    assert SigOps(b.block.vtx[..0]) == 0;
  }

  /** It connects to every index in which its coinbase is not filed with an unspent output. */
  lemma PlainConnects(env: Env, path: seq<BlockRec>, skipSigs: bool, idx: Index, b: BlockRec, h: Hash)
    requires b.block.vtx == [Coinbase(h)] && env.headerOk(b.block) && env.subsidy(b.nHeight) >= 10
    requires !EnforceBIP30(b) || !(h in idx && Live(idx[h]))
    ensures ConnectBlock(env, path, skipSigs, idx, b) == Some(idx[h := Fresh(TxPos(b, 0), 1)])
  {
    hide CheckBlock;
    PlainChecks(env, b, h);
    var ctx := BlockCtx(path, b, skipSigs);
    assert ConnectTxs(env, ctx, idx, b, 0) == Some(Acc(idx, 0, 0));
    assert ConnectTxs(env, ctx, idx, b, 1) == Some(Acc(idx[h := Fresh(TxPos(b, 0), 1)], 0, 0));
  }

  /* ---- overwriting a live record ---- */

  /** Of ConnectBlock by itself, on a block dated before BIP 30, which the node accepts none of: a coinbase
      repeats the identifier of an unspent one; undoing the block loses the first. */
  lemma LiveOverwriteLosesOutput()
    ensures exists env, db, b: BlockRec ::
      && IndexOk(env, db) && Stored(env, b) && !EnforceBIP30(b)
      && ConnectBlock(env, [], false, db, b).Some?
      && var back := DisconnectBlock(ConnectBlock(env, [], false, db, b).value, b.block);
         back.Some? && !SameUnspent(back.value, db)
  {
    var b := Plain(1, 0, 1, 0, 7);
    var here, there := TxPos(b, 0), Pos(9, 9, 200);
    var env := ExampleEnv(map[here := Coinbase(7), there := Coinbase(7)]);
    var db := map[7 := TxIndex(there, [NullPos])];
    assert b.block.vtx[..0] == [];
    PlainConnects(env, [], false, db, b, 7);
    Overwritten(env, db, b, here, there);
  }

  lemma Overwritten(env: Env, db: Index, b: BlockRec, here: DiskTxPos, there: DiskTxPos)
    requires b.block.vtx == [Coinbase(7)] && db == map[7 := TxIndex(there, [NullPos])]
    requires ConnectBlock(env, [], false, db, b) == Some(db[7 := Fresh(here, 1)])
    ensures var back := DisconnectBlock(db[7 := Fresh(here, 1)], b.block); back.Some? && !SameUnspent(back.value, db)
  {
    hide ChainModel.ConnectBlock;
    assert IsUnspent(db, OutPoint(7, 0));
    UndoableIffNoLiveOverwrite(env, [], false, db, b);
    assert Live(db[7]) by { assert db[7].vSpent[0] == NullPos; }
    assert !NoLiveOverwrite(db, b.block.vtx) by { assert b.block.vtx[0].hash in db; }
    assert DisconnectTxs(db[7 := Fresh(here, 1)], b.block.vtx, 1).Some?;
  }

  /* ---- a repeated identifier blocks a reorganization ---- */

  const GENESIS: BlockRec := BlockRec(Block(1000, []), 0, 0, 0, GENESIS_TIME)

  /** The block at height i, with the coinbase 100 + i, in a file of its own. */
  function Filler(i: nat): BlockRec { Plain(1000 + i, i, i, GENESIS_TIME + i, 100 + i) }

  function Line(n: nat): (line: seq<BlockRec>)
    ensures |line| == n + 1 && line[0] == GENESIS && forall i :: 1 <= i <= n ==> line[i] == Filler(i)
  {
    if n == 0 then [GENESIS] else Line(n - 1) + [Filler(n)]
  }

  function Connects(n: nat): (es: seq<Event>)
    ensures |es| == n && forall i :: 0 <= i < n ==> es[i] == Connect(Filler(i + 1), false)
  {
    if n == 0 then [] else Connects(n - 1) + [Connect(Filler(n), false)]
  }

  /** The index after n blocks: their coinbases, all unspent. */
  function Filled(n: nat): (idx: Index)
    ensures forall h :: h in idx <==> 101 <= h <= 100 + n
    ensures forall i :: 1 <= i <= n ==> idx[100 + i] == Fresh(TxPos(Filler(i), 0), 1)
  {
    if n == 0 then map[] else Filled(n - 1)[100 + n := Fresh(TxPos(Filler(n), 0), 1)]
  }

  /** The block files with the first n blocks. */
  function Files(n: nat): (disk: map<DiskTxPos, Tx>)
    ensures forall i :: 1 <= i <= n ==> TxPos(Filler(i), 0) in disk && disk[TxPos(Filler(i), 0)] == Coinbase(100 + i)
  {
    if n == 0 then map[] else Files(n - 1)[TxPos(Filler(n), 0) := Coinbase(100 + n)]
  }

  /** Spends the first coinbase, when it is mature; then the coinbase is made again, which is allowed because
      its record is fully spent. */
  const SPEND: Tx := Tx(9, [TxIn(OutPoint(101, 0), [])], [TxOut(10, [])], 60, 0)
  const B1: BlockRec := BlockRec(Block(1, [Coinbase(200), SPEND]), 201, 500, 16, GENESIS_TIME + 16)
  const B2: BlockRec := Plain(2, 202, 17, GENESIS_TIME + 17, 101)

  /** Spends the first coinbase once more. */
  const AGAIN: Tx := Tx(10, [TxIn(OutPoint(101, 0), [])], [TxOut(10, [7])], 60, 0)
  const C: BlockRec := BlockRec(Block(3, [Coinbase(203), AGAIN]), 203, 500, 17, GENESIS_TIME + 17)
  /** Blocks of one coinbase, after B1 and after C. */
  const D: BlockRec := Plain(4, 204, 17, GENESIS_TIME + 17, 204)
  const E: BlockRec := Plain(5, 205, 18, GENESIS_TIME + 18, 205)

  function RepeatEnv(): Env {
    ExampleEnv(Files(18)[TxPos(B1, 0) := Coinbase(200)][TxPos(B1, 1) := SPEND][TxPos(B2, 0) := Coinbase(101)]
      [TxPos(C, 0) := Coinbase(203)][TxPos(C, 1) := AGAIN][TxPos(D, 0) := Coinbase(204)][TxPos(E, 0) := Coinbase(205)])
  }

  lemma RepeatStored()
    ensures Stored(RepeatEnv(), B1) && Stored(RepeatEnv(), B2) && Stored(RepeatEnv(), C)
    ensures Stored(RepeatEnv(), D) && Stored(RepeatEnv(), E)
  {
    hide Files;
    SecondPlace(B1);
    SecondPlace(C);
  }

  lemma SecondPlace(b: BlockRec)
    requires |b.block.vtx| >= 1 && b.block.vtx[0].nSize > 0
    ensures TxPos(b, 0) != TxPos(b, 1)
  {
    assert b.block.vtx[..1][..0] == [] && b.block.vtx[..0] == [];
  }

  lemma FillerStored(i: nat)
    requires 1 <= i <= 18
    ensures Filler(i).block.vtx == [Coinbase(100 + i)]
    ensures Stored(RepeatEnv(), Filler(i)) && RepeatEnv().disk[TxPos(Filler(i), 0)] == Coinbase(100 + i)
  {
    hide Files;
    assert Filler(i).nFile < 200;
  }

  /** All blocks are accepted and can be read, and all signatures are good. */
  lemma RepeatFree(b: Block, prev: Tx, tx: Tx, i: nat, script: Script, sig: Script)
    ensures var env := RepeatEnv();
      && env.headerOk(b) && (forall n: nat :: env.subsidy(n) == 10) && env.verifySignature(prev, tx, i, true)
      && env.scriptSigOps(script, sig) == 0 && env.totalBlocksEstimate == 0 && forall h :: env.readable(h)
  {
    hide Files;
  }

  lemma RepeatConnects(path: seq<BlockRec>, skipSigs: bool, idx: Index, b: BlockRec, h: Hash)
    requires b.block.vtx == [Coinbase(h)] && !(h in idx && Live(idx[h]))
    ensures ConnectBlock(RepeatEnv(), path, skipSigs, idx, b) == Some(idx[h := Fresh(TxPos(b, 0), 1)])
  {
    hide RepeatEnv, ChainModel.ConnectBlock, Live, TxPos;
    RepeatFree(b.block, Coinbase(h), Coinbase(h), 0, [], []);
    PlainConnects(RepeatEnv(), path, skipSigs, idx, b, h);
  }

  lemma {:induction false} FillersRun(n: nat)
    requires n <= 18
    ensures Run(RepeatEnv(), GENESIS, Connects(n)) == Some(State(Filled(n), Line(n)))
    ensures Replay(RepeatEnv(), Line(n)) == Some(Filled(n))
  {
    hide RepeatEnv, ChainModel.ConnectBlock, Filler;
    if n > 0 {
      FillersRun(n - 1);
      FillerConnects(n, false);
      FillerConnects(n, true);
      assert Connects(n)[..n - 1] == Connects(n - 1) && Line(n)[..n] == Line(n - 1);
    }
  }

  lemma FillerConnects(n: nat, skipSigs: bool)
    requires 0 < n <= 18
    ensures ConnectBlock(RepeatEnv(), Line(n - 1), skipSigs, Filled(n - 1), Filler(n)) == Some(Filled(n))
  {
    hide ChainModel.ConnectBlock, RepeatEnv, Line, TxPos, Fresh, Live;
    RepeatConnects(Line(n - 1), skipSigs, Filled(n - 1), Filler(n), 100 + n);
  }

  /** A run of blocks that are in the block files and dated after BIP 30 is legitimate. */
  lemma {:induction false} LegitEvents(env: Env, genesis: BlockRec, es: seq<Event>)
    requires forall i :: 0 <= i < |es| && es[i].Connect? ==> Legit(env, es[i].b)
    ensures LegitRun(env, genesis, es)
  {
    hide Stored, Run;
    if es != [] { LegitEvents(env, genesis, es[..|es| - 1]); }
  }

  lemma SpendIs()
    ensures CheckTransaction(SPEND) && ValueOut(SPEND.vout) == 10 && SPEND.vin[..1] == SPEND.vin && SPEND.vin[..0] == []
    ensures OpsOf(SPEND.vin) == {OutPoint(101, 0)}
  {
    assert SPEND.vout[..0] == [] && SPEND.vout[..1] == SPEND.vout;
    assert SPEND.vin[0].prevout == OutPoint(101, 0);
  }

  lemma B1Checks()
    ensures CheckBlock(RepeatEnv(), B1.block)
  {
    hide RepeatEnv, CheckTransaction;
    var vtx := B1.block.vtx;
    SpendIs();
    CoinbaseIs(200);
    RepeatFree(B1.block, SPEND, SPEND, 0, [], []);
    assert vtx[..1] == [Coinbase(200)] && vtx[..1][..0] == [];
    assert SigOps(vtx[..1]) == SigOps([]) + 0;
  }

  /** The index and the path B1 is connected to. */
  lemma FirstMature()
    ensures var pos := TxPos(Filler(1), 0); !Immature(Line(15) + [B1], pos)
  {
    var path := Line(15) + [B1];
    forall j | 0 <= j < |path| && |path| - j <= COINBASE_MATURITY ensures path[j].nFile != 1 {
      if j < 16 { assert path[j] == Filler(j); }
    }
  }

  lemma SpendSpends(view: Index)
    requires 101 in view && view[101] == Fresh(TxPos(Filler(1), 0), 1)
    ensures var env, ctx := RepeatEnv(), BlockCtx(Line(15), B1, false);
      && AllFound(env, view, SPEND.vin) && Spendable(env, ctx, view, SPEND) && ValueIn(env, view, SPEND.vin) == 10
      && P2SHSigOps(env, SPEND.vin, PrevOuts(env, view, SPEND.vin)) == 0
  {
    hide RepeatEnv, Line, Filler, CheckTransaction;
    var env, ctx := RepeatEnv(), BlockCtx(Line(15), B1, false);
    SpendIs();
    FirstMature();
    FillerStored(1);
    FillerPos();
    RepeatFree(B1.block, Coinbase(101), SPEND, 0, [], []);
    var op := OutPoint(101, 0);
    assert Found(env, view, op) && PrevTx(env, view, op) == Coinbase(101) && PrevOut(env, view, op).nValue == 10;
    assert AllFound(env, view, SPEND.vin);
    assert ValueIn(env, view, SPEND.vin[..0]) == 0 && ValueIn(env, view, SPEND.vin[..1]) == 10;
    assert InputOk(env, ctx, view, SPEND, 0);
  }

  lemma FillerPos()
    ensures TxPos(Filler(1), 0) in RepeatEnv().disk && TxPos(Filler(1), 0) != MEMORY_POS
  {
    FillerStored(1);
  }

  /** The index with B1 connected. */
  function AfterB1(): Index {
    Mark(Filled(15)[200 := Fresh(TxPos(B1, 0), 1)], OpsOf(SPEND.vin), TxPos(B1, 1))[9 := Fresh(TxPos(B1, 1), 1)]
  }

  lemma B1Connects()
    ensures ConnectBlock(RepeatEnv(), Line(15), false, Filled(15), B1) == Some(AfterB1())
    ensures ConnectTxs(RepeatEnv(), BlockCtx(Line(15), B1, false), Filled(15), B1, 2) == Some(Acc(AfterB1(), 0, 0))
    ensures 101 in AfterB1() && !Live(AfterB1()[101])
  {
    hide CheckBlock, Spendable, RepeatEnv, Filler, Line, Filled, TxPos, CheckTransaction;
    var env, ctx, db := RepeatEnv(), BlockCtx(Line(15), B1, false), Filled(15);
    var v1 := db[200 := Fresh(TxPos(B1, 0), 1)];
    B1Checks();
    SpendIs();
    CoinbaseIs(200);
    RepeatFree(B1.block, SPEND, SPEND, 0, [], []);
    assert db[101] == Fresh(TxPos(Filler(1), 0), 1);
    SpendSpends(v1);
    var one := AfterB1();
    B1Steps(env, ctx, db, v1, one);
    NotNull(B1, 1);
    assert one[101] == MarkEntry(101, v1[101], OpsOf(SPEND.vin), TxPos(B1, 1));
    assert one[101].vSpent[0] != NullPos && |one[101].vSpent| == 1;
  }

  lemma NotNull(b: BlockRec, i: nat)
    requires i <= |b.block.vtx|
    ensures TxPos(b, i) != NullPos
  {
  }

  lemma B1Steps(env: Env, ctx: Ctx, db: Index, v1: Index, one: Index)
    requires v1 == db[200 := Fresh(TxPos(B1, 0), 1)] && 200 !in db && 9 !in db
    requires AllFound(env, v1, SPEND.vin) && Spendable(env, ctx, v1, SPEND)
    requires ValueIn(env, v1, SPEND.vin) == ValueOut(SPEND.vout)
    requires P2SHSigOps(env, SPEND.vin, PrevOuts(env, v1, SPEND.vin)) == 0
    requires one == Mark(v1, OpsOf(SPEND.vin), TxPos(B1, 1))[9 := Fresh(TxPos(B1, 1), 1)]
    ensures ConnectTxs(env, ctx, db, B1, 2) == Some(Acc(one, 0, 0))
  {
    hide Spendable, AllFound, ValueIn, P2SHSigOps, Mark, TxPos;
    assert ConnectTxs(env, ctx, db, B1, 0) == Some(Acc(db, 0, 0));
    assert ConnectTxs(env, ctx, db, B1, 1) == Some(Acc(v1, 0, 0));
  }

  function RepeatRun(): seq<Event> { Connects(15) + [Connect(B1, false)] + [Connect(B2, false)] }

  lemma RepeatRuns() returns (s: State)
    ensures Run(RepeatEnv(), GENESIS, RepeatRun()) == Some(s) && LegitRun(RepeatEnv(), GENESIS, RepeatRun())
    ensures s.chain == Line(15) + [B1] + [B2]
  {
    hide RepeatEnv, ChainModel.ConnectBlock, Filler, Connects, Line, Filled, Fresh, Live, LegitRun, TxPos;
    var env := RepeatEnv();
    FillersRun(15);
    B1Connects();
    var one := AfterB1();
    hide AfterB1;
    RepeatConnects(Line(15) + [B1], false, one, B2, 101);
    var two := ConnectBlock(env, Line(15) + [B1], false, one, B2).value;
    s := State(two, Line(15) + [B1] + [B2]);
    RunTwoMore(env, GENESIS, Connects(15), State(Filled(15), Line(15)), Connect(B1, false), State(one, Line(15) + [B1]),
               Connect(B2, false), s);
    RepeatLegit();
  }

  lemma RunTwoMore(env: Env, genesis: BlockRec, es: seq<Event>, s0: State, e1: Event, s1: State, e2: Event, s2: State)
    requires Run(env, genesis, es) == Some(s0) && Step(env, s0, e1) == Some(s1) && Step(env, s1, e2) == Some(s2)
    ensures Run(env, genesis, es + [e1] + [e2]) == Some(s2)
  {
    hide Step;
    assert (es + [e1] + [e2])[..|es| + 1] == es + [e1] && (es + [e1])[..|es|] == es;
  }

  lemma RepeatLegit()
    ensures LegitRun(RepeatEnv(), GENESIS, RepeatRun())
  {
    hide RepeatEnv, Run, Stored, LegitRun;
    var env, es := RepeatEnv(), RepeatRun();
    RepeatStored();
    forall i | 0 <= i < |es| && es[i].Connect? ensures Legit(env, es[i].b) {
      if i < 15 {
        assert es[i] == Connect(Filler(i + 1), false);
        FillerStored(i + 1);
      } else {
        assert es[i].b == B1 || es[i].b == B2;
      }
    }
    hide Legit;
    LegitEvents(env, GENESIS, es);
  }

  /** A run from genesis in which every block is valid ends with B1 and B2. A longer branch of valid blocks leaves
      the chain before B1. Switching to it fails: when B2 has been undone, the record B1's input points at is
      gone. */
  lemma RepeatedIdBlocksReorganization() returns (s: State)
    ensures Run(RepeatEnv(), GENESIS, RepeatRun()) == Some(s) && LegitRun(RepeatEnv(), GENESIS, RepeatRun())
    ensures |s.chain| == 18 && |Line(18)| == 19 && s.chain[..16] == Line(18)[..16]
    ensures (forall h :: RepeatEnv().readable(h)) && Replay(RepeatEnv(), Line(18)).Some?
    ensures forall skipSigs :: Switch(RepeatEnv(), skipSigs, s.idx, s.chain, Line(18), 16) == None
  {
    hide RepeatEnv, Run, Filler, RepeatRun, LegitRun, Replay, Switch, Connects, Filled, Line;
    s := RepeatRuns();
    FillersRun(18);
    RepeatFree(B1.block, SPEND, SPEND, 0, [], []);
    forall i | 0 <= i < 16 ensures s.chain[i] == Line(18)[i] { assert s.chain[i] == Line(15)[i]; }
    forall skipSigs ensures Switch(RepeatEnv(), skipSigs, s.idx, s.chain, Line(18), 16) == None {
      NoSwitch(RepeatEnv(), GENESIS, RepeatRun(), s, skipSigs, Line(18));
    }
  }

  lemma NoSwitch(env: Env, genesis: BlockRec, es: seq<Event>, s: State, skipSigs: bool, to: seq<BlockRec>)
    requires LegitRun(env, genesis, es) && Run(env, genesis, es) == Some(s) && s.chain == Line(15) + [B1] + [B2]
    requires |to| >= 16
    ensures Switch(env, skipSigs, s.idx, s.chain, to, 16) == None
  {
    hide Line, Inv, DisconnectTo, CanUndoTo, LegitRun, Run;
    RunKeepsInv(env, genesis, es);
    UndoSucceedsIff(env, s, 16);
    B1Stays(env, s);
  }

  lemma B1Stays(env: Env, s: State)
    requires s.chain == Line(15) + [B1] + [B2]
    ensures !CanUndoTo(env, s.idx, s.chain, 16)
  {
    hide Line;
    assert s.chain[16] == B1 && s.chain[17] == B2;
    assert B2.block.vtx[0].hash == 101;
    assert 101 in IdsFrom(s.chain, 17);
    assert !B1.block.vtx[1].IsCoinBase() && B1.block.vtx[1].vin[0].prevout.hash == 101;
    assert !CanUndo(env, s.idx, s.chain, 16);
  }

}
