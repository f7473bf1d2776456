/** Laws of connecting and disconnecting single blocks: disconnecting undoes connecting exactly
    when no live record was overwritten, and neither operation can tell an index from one in
    which fully spent records are missing. */
module ChainLaws {
  import opened Basics
  import opened ChainModel

  function Ids(vtx: seq<Tx>): set<Hash> { set i | 0 <= i < |vtx| :: vtx[i].hash }

  /** No transaction of the block takes the identifier of a record with an unspent output. */
  predicate NoLiveOverwrite(db: Index, vtx: seq<Tx>) {
    forall i :: 0 <= i < |vtx| && vtx[i].hash in db ==> !Live(db[vtx[i].hash])
  }

  /* ---- marks ---- */

  lemma MarkMark(idx: Index, ops: set<OutPoint>, more: set<OutPoint>, pos: DiskTxPos)
    ensures Mark(Mark(idx, ops, pos), more, pos) == Mark(idx, ops + more, pos)
  {
    forall h | h in idx
      ensures Mark(Mark(idx, ops, pos), more, pos)[h] == Mark(idx, ops + more, pos)[h]
    {
      assert Mark(Mark(idx, ops, pos), more, pos)[h].vSpent == Mark(idx, ops + more, pos)[h].vSpent;
    }
  }

  lemma OpsSnoc(vin: seq<TxIn>)
    requires vin != []
    ensures OpsOf(vin) == OpsOf(vin[..|vin| - 1]) + {vin[|vin| - 1].prevout}
    ensures DistinctInputs(vin) ==> vin[|vin| - 1].prevout !in OpsOf(vin[..|vin| - 1])
  {
    var m := |vin| - 1;
    forall op | op in OpsOf(vin)
      ensures op in OpsOf(vin[..m]) + {vin[m].prevout}
    {
      var i :| 0 <= i < |vin| && vin[i].prevout == op;
      if i < m { assert vin[..m][i].prevout == op; }
    }
    forall op | op in OpsOf(vin[..m]) ensures op in OpsOf(vin) {
      var i :| 0 <= i < m && vin[..m][i].prevout == op;
      assert vin[i].prevout == op;
    }
  }

  /* ---- what a connected prefix leaves alone ---- */

  ghost predicate OnlyNewMarks(was: TxIndex, e: TxIndex) {
    && e.pos == was.pos && |e.vSpent| == |was.vSpent|
    && forall n :: 0 <= n < |was.vSpent| && was.vSpent[n] != NullPos ==> e.vSpent[n] != NullPos
  }

  /** Records of transactions outside the prefix keep their position and every mark already set. */
  lemma {:induction false} ConnectTxsFrame(env: Env, ctx: Ctx, db: Index, b: BlockRec, k: nat, h: Hash)
    requires k <= |b.block.vtx| && ConnectTxs(env, ctx, db, b, k).Some?
    requires forall i :: 0 <= i < k ==> b.block.vtx[i].hash != h
    ensures var view := ConnectTxs(env, ctx, db, b, k).value.view;
      && (h in view <==> h in db)
      && (h in db ==> OnlyNewMarks(db[h], view[h]))
  {
    if k > 0 {
      ConnectTxsFrame(env, ctx, db, b, k - 1, h);
    }
  }

  lemma {:induction false} BIP30Protects(env: Env, ctx: Ctx, db: Index, b: BlockRec, k: nat)
    requires k <= |b.block.vtx| && ConnectTxs(env, ctx, db, b, k).Some?
    requires EnforceBIP30(b)
    ensures NoLiveOverwrite(db, b.block.vtx[..k])
  {
    hide ChainModel.ConnectTx, Live;
    if k > 0 {
      BIP30Protects(env, ctx, db, b, k - 1);
      BIP30Tx(env, ctx, db, ConnectTxs(env, ctx, db, b, k - 1).value, b.block.vtx[k - 1], TxPos(b, k - 1));
      assert b.block.vtx[..k] == b.block.vtx[..k - 1] + [b.block.vtx[k - 1]];
    }
  }

  lemma BIP30Tx(env: Env, ctx: Ctx, db: Index, a: Acc, tx: Tx, pos: DiskTxPos)
    requires ConnectTx(env, ctx, db, a, tx, pos, true).Some?
    ensures tx.hash in db ==> !Live(db[tx.hash])
  {
    hide Live, Mark, Spendable;
  }

  /* ---- disconnecting undoes connecting ---- */

  lemma UndoTx(view: Index, tx: Tx, pos: DiskTxPos, created: TxIndex, gone: set<Hash>)
    requires tx.hash !in gone
    requires forall h :: h in gone + {tx.hash} && h in view ==> !Live(view[h])
    requires !tx.IsCoinBase() ==> forall i :: 0 <= i < |tx.vin| ==> IsUnspent(view, tx.vin[i].prevout)
    ensures var after := (if tx.IsCoinBase() then view else Mark(view, OpsOf(tx.vin), pos))[tx.hash := created];
      DisconnectTx(after - gone, tx) == Some(view - gone - {tx.hash})
  {
    var after := (if tx.IsCoinBase() then view else Mark(view, OpsOf(tx.vin), pos))[tx.hash := created];
    var idx := after - gone;
    if tx.IsCoinBase() {
      assert idx - {tx.hash} == view - gone - {tx.hash};
    } else {
      forall i | 0 <= i < |tx.vin|
        ensures tx.vin[i].prevout.hash in idx && tx.vin[i].prevout.hash != tx.hash
             && tx.vin[i].prevout.n < |idx[tx.vin[i].prevout.hash].vSpent|
      {
        assert IsUnspent(view, tx.vin[i].prevout);
        assert Live(view[tx.vin[i].prevout.hash]);
      }
      var undone := Mark(idx, OpsOf(tx.vin), NullPos) - {tx.hash};
      forall h | h in view && h !in gone && h != tx.hash
        ensures undone[h] == view[h]
      {
        assert undone[h].vSpent == view[h].vSpent;
      }
      assert undone == view - gone - {tx.hash};
    }
  }

  /** The index after disconnecting from the end down to k is the one before transaction k
      was connected, less the identifiers of the disconnected transactions. */
  lemma {:induction false} UndoFrom(env: Env, ctx: Ctx, db: Index, b: BlockRec, k: nat)
    requires k <= |b.block.vtx| && DistinctIds(b.block.vtx) && NoLiveOverwrite(db, b.block.vtx)
    requires ConnectTxs(env, ctx, db, b, |b.block.vtx|).Some?
    ensures ConnectTxs(env, ctx, db, b, k).Some?
    ensures DisconnectTxs(ConnectTxs(env, ctx, db, b, |b.block.vtx|).value.view, b.block.vtx, k)
         == Some(ConnectTxs(env, ctx, db, b, k).value.view - Ids(b.block.vtx[k..]))
    decreases |b.block.vtx| - k
  {
    hide ChainModel.ConnectTx, ChainModel.DisconnectTx, NoLiveOverwrite, DistinctIds, Ids;
    var vtx := b.block.vtx;
    if k == |vtx| {
      NoIds();
      assert vtx[k..] == [];
      var view := ConnectTxs(env, ctx, db, b, k).value.view;
      assert view - Ids(vtx[k..]) == view;
    } else {
      UndoFrom(env, ctx, db, b, k + 1);
      UndoOne(env, ctx, db, b, k);
    }
  }

  lemma NoIds()
    ensures Ids([]) == {}
  {
  }

  lemma UndoOne(env: Env, ctx: Ctx, db: Index, b: BlockRec, k: nat)
    requires k < |b.block.vtx| && DistinctIds(b.block.vtx) && NoLiveOverwrite(db, b.block.vtx)
    requires ConnectTxs(env, ctx, db, b, k + 1).Some?
    ensures ConnectTxs(env, ctx, db, b, k).Some?
    ensures DisconnectTx(ConnectTxs(env, ctx, db, b, k + 1).value.view - Ids(b.block.vtx[k + 1..]), b.block.vtx[k])
         == Some(ConnectTxs(env, ctx, db, b, k).value.view - Ids(b.block.vtx[k..]))
  {
    hide ChainModel.ConnectTx, ChainModel.DisconnectTx, NoLiveOverwrite, DistinctIds, Ids, Mark, Live, IsUnspent;
    var vtx := b.block.vtx;
    var a := ConnectTxs(env, ctx, db, b, k).value;
    var tx, pos, gone := vtx[k], TxPos(b, k), Ids(vtx[k + 1..]);
    NotLiveLater(env, ctx, db, b, k);
    ConnectTxAvailable(env, ctx, db, a, tx, pos, EnforceBIP30(b));
    IdsFromHere(vtx, k);
    UndoTx(a.view, tx, pos, Fresh(pos, |tx.vout|), gone);
    assert a.view - gone - {tx.hash} == a.view - (gone + {tx.hash});
  }

  lemma IdsFromHere(vtx: seq<Tx>, k: nat)
    requires k < |vtx| && DistinctIds(vtx)
    ensures Ids(vtx[k..]) == Ids(vtx[k + 1..]) + {vtx[k].hash} && vtx[k].hash !in Ids(vtx[k + 1..])
  {
    assert vtx[k..] == [vtx[k]] + vtx[k + 1..];
    IdsCons(vtx[k], vtx[k + 1..]);
  }

  /** No identifier still to come has an unspent output in the index so far. */
  lemma NotLiveLater(env: Env, ctx: Ctx, db: Index, b: BlockRec, k: nat)
    requires k <= |b.block.vtx| && DistinctIds(b.block.vtx) && NoLiveOverwrite(db, b.block.vtx)
    requires ConnectTxs(env, ctx, db, b, k).Some?
    ensures var view := ConnectTxs(env, ctx, db, b, k).value.view;
      forall h :: h in Ids(b.block.vtx[k..]) && h in view ==> !Live(view[h])
  {
    var view := ConnectTxs(env, ctx, db, b, k).value.view;
    forall h | h in Ids(b.block.vtx[k..]) && h in view
      ensures !Live(view[h])
    {
      var i :| 0 <= i < |b.block.vtx[k..]| && b.block.vtx[k..][i].hash == h;
      assert b.block.vtx[k + i].hash == h;
      ConnectTxsFrame(env, ctx, db, b, k, h);
      assert !Live(db[h]);
    }
  }

  lemma ConnectTxAvailable(env: Env, ctx: Ctx, db: Index, a: Acc, tx: Tx, pos: DiskTxPos, bip30: bool)
    requires ConnectTx(env, ctx, db, a, tx, pos, bip30).Some?
    ensures ConnectTx(env, ctx, db, a, tx, pos, bip30).value.view
         == (if tx.IsCoinBase() then a.view else Mark(a.view, OpsOf(tx.vin), pos))[tx.hash := Fresh(pos, |tx.vout|)]
    ensures !tx.IsCoinBase() ==> forall i :: 0 <= i < |tx.vin| ==> IsUnspent(a.view, tx.vin[i].prevout)
  {
    if !tx.IsCoinBase() {
      forall i | 0 <= i < |tx.vin| ensures IsUnspent(a.view, tx.vin[i].prevout) {
        assert Found(env, a.view, tx.vin[i].prevout) && InputOk(env, ctx, a.view, tx, i);
      }
    }
  }

  lemma IdsCons(tx: Tx, vtx: seq<Tx>)
    ensures Ids([tx] + vtx) == {tx.hash} + Ids(vtx)
  {
    forall h | h in {tx.hash} + Ids(vtx)
      ensures h in Ids([tx] + vtx)
    {
      if h == tx.hash {
        assert ([tx] + vtx)[0].hash == h;
      } else {
        var i :| 0 <= i < |vtx| && vtx[i].hash == h;
        assert ([tx] + vtx)[i + 1].hash == h;
      }
    }
  }

  /** Disconnecting the block just connected restores every record of a transaction outside the
      block exactly and removes the block's own records. */
  lemma DisconnectUndoesConnect(env: Env, path: seq<BlockRec>, skipSigs: bool, db: Index, b: BlockRec)
    requires ConnectBlock(env, path, skipSigs, db, b).Some?
    requires NoLiveOverwrite(db, b.block.vtx)
    ensures DisconnectBlock(ConnectBlock(env, path, skipSigs, db, b).value, b.block) == Some(db - Ids(b.block.vtx))
    ensures SameUnspent(db - Ids(b.block.vtx), db)
  {
    UndoFrom(env, BlockCtx(path, b, skipSigs), db, b, 0);
    assert b.block.vtx[0..] == b.block.vtx;
    forall op | IsUnspent(db, op)
      ensures op.hash !in Ids(b.block.vtx)
    {
      assert Live(db[op.hash]);
    }
  }

  /** With BIP 30 in force the hypothesis of the previous lemma always holds. */
  lemma DisconnectUndoesConnectBIP30(env: Env, path: seq<BlockRec>, skipSigs: bool, db: Index, b: BlockRec)
    requires ConnectBlock(env, path, skipSigs, db, b).Some?
    requires EnforceBIP30(b)
    ensures NoLiveOverwrite(db, b.block.vtx)
    ensures DisconnectBlock(ConnectBlock(env, path, skipSigs, db, b).value, b.block) == Some(db - Ids(b.block.vtx))
    ensures SameUnspent(db - Ids(b.block.vtx), db)
  {
    BIP30Protects(env, BlockCtx(path, b, skipSigs), db, b, |b.block.vtx|);
    assert b.block.vtx[..|b.block.vtx|] == b.block.vtx;
    DisconnectUndoesConnect(env, path, skipSigs, db, b);
  }

  lemma {:induction false} DisconnectErases(idx: Index, vtx: seq<Tx>, k: nat)
    requires k <= |vtx| && DisconnectTxs(idx, vtx, k).Some?
    ensures DisconnectTxs(idx, vtx, k).value.Keys == idx.Keys - Ids(vtx[k..])
    decreases |vtx| - k
  {
    if k < |vtx| {
      DisconnectErases(idx, vtx, k + 1);
      assert vtx[k..] == [vtx[k]] + vtx[k + 1..];
      IdsCons(vtx[k], vtx[k + 1..]);
    }
  }

  /** Without BIP 30: a connected block can be undone exactly when it overwrote no live record. */
  lemma UndoableIffNoLiveOverwrite(env: Env, path: seq<BlockRec>, skipSigs: bool, db: Index, b: BlockRec)
    requires ConnectBlock(env, path, skipSigs, db, b).Some?
    ensures var back := DisconnectBlock(ConnectBlock(env, path, skipSigs, db, b).value, b.block);
      (back.Some? && SameUnspent(back.value, db)) <==> NoLiveOverwrite(db, b.block.vtx)
  {
    var full := ConnectBlock(env, path, skipSigs, db, b).value;
    var back := DisconnectBlock(full, b.block);
    if NoLiveOverwrite(db, b.block.vtx) {
      DisconnectUndoesConnect(env, path, skipSigs, db, b);
    } else if back.Some? {
      DisconnectErases(full, b.block.vtx, 0);
      assert b.block.vtx[0..] == b.block.vtx;
      var i :| 0 <= i < |b.block.vtx| && b.block.vtx[i].hash in db && Live(db[b.block.vtx[i].hash]);
      var h := b.block.vtx[i].hash;
      var n :| 0 <= n < |db[h].vSpent| && db[h].vSpent[n] == NullPos;
      assert IsUnspent(db, OutPoint(h, n)) && !IsUnspent(back.value, OutPoint(h, n));
    }
  }

  /* ---- missing fully spent records cannot be noticed ---- */

  /** idx is full with some fully spent records missing. */
  ghost predicate Prunes(idx: Index, full: Index) {
    && (forall h :: h in idx ==> h in full && idx[h] == full[h])
    && (forall h :: h in full && h !in idx ==> !Live(full[h]))
  }

  ghost predicate PrunesAcc(a: Option<Acc>, full: Option<Acc>) {
    a.Some? == full.Some?
    && (a.Some? ==>
          && Prunes(a.value.view, full.value.view)
          && a.value.nFees == full.value.nFees && a.value.nSigOps == full.value.nSigOps)
  }

  lemma PrunesTransitive(a: Index, b: Index, c: Index)
    requires Prunes(a, b) && Prunes(b, c)
    ensures Prunes(a, c)
  {
    forall h | h in c && h !in a ensures !Live(c[h]) {
      if h in b { assert b[h] == c[h]; }
    }
  }

  lemma PrunesSameUnspent(idx: Index, full: Index)
    requires Prunes(idx, full)
    ensures SameUnspent(idx, full)
  {
    forall op
      ensures IsUnspent(idx, op) == IsUnspent(full, op)
      ensures IsUnspent(idx, op) ==> idx[op.hash].pos == full[op.hash].pos
    {
      if IsUnspent(full, op) { assert Live(full[op.hash]); }
    }
  }

  /** The inputs are found and unspent in the one index as in the other, with the same amounts. */
  lemma {:induction false} PrunesValueIn(env: Env, idx: Index, full: Index, vin: seq<TxIn>)
    requires Prunes(idx, full) && AllFound(env, idx, vin)
    ensures AllFound(env, full, vin) && ValueIn(env, idx, vin) == ValueIn(env, full, vin)
  {
    if vin != [] { PrunesValueIn(env, idx, full, vin[..|vin| - 1]); }
  }

  lemma PrunesSpendable(env: Env, ctx: Ctx, idx: Index, full: Index, tx: Tx)
    requires Prunes(idx, full) && AllFound(env, idx, tx.vin)
    ensures AllFound(env, full, tx.vin)
    ensures PrevOuts(env, idx, tx.vin) == PrevOuts(env, full, tx.vin)
    ensures Spendable(env, ctx, idx, tx) == Spendable(env, ctx, full, tx)
    ensures ValueIn(env, idx, tx.vin) == ValueIn(env, full, tx.vin)
  {
    PrunesValueIn(env, idx, full, tx.vin);
    forall i | 0 <= i <= |tx.vin|
      ensures ValueIn(env, idx, tx.vin[..i]) == ValueIn(env, full, tx.vin[..i])
    {
      PrunesValueIn(env, idx, full, tx.vin[..i]);
    }
    assert forall i :: 0 <= i < |tx.vin| ==> InputOk(env, ctx, idx, tx, i) == InputOk(env, ctx, full, tx, i);
  }

  lemma PrunesMark(idx: Index, full: Index, ops: set<OutPoint>, pos: DiskTxPos)
    requires Prunes(idx, full)
    requires pos != NullPos || forall op :: op in ops ==> op.hash in idx
    ensures Prunes(Mark(idx, ops, pos), Mark(full, ops, pos))
  {
    forall h | h in full && h !in idx
      ensures !Live(Mark(full, ops, pos)[h])
    {
      var e := MarkEntry(h, full[h], ops, pos);
      forall n | 0 <= n < |e.vSpent| ensures e.vSpent[n] != NullPos {
        assert full[h].vSpent[n] != NullPos;
      }
    }
  }

  lemma {:induction false} PrunesConnectTxs(env: Env, ctx: Ctx, idx: Index, full: Index, b: BlockRec, k: nat)
    requires k <= |b.block.vtx| && Prunes(idx, full)
    ensures PrunesAcc(ConnectTxs(env, ctx, idx, b, k), ConnectTxs(env, ctx, full, b, k))
  {
    if k > 0 {
      PrunesConnectTxs(env, ctx, idx, full, b, k - 1);
      var tx, pos := b.block.vtx[k - 1], TxPos(b, k - 1);
      var was, wasFull := ConnectTxs(env, ctx, idx, b, k - 1), ConnectTxs(env, ctx, full, b, k - 1);
      if was.Some? {
        PrunesConnectTx(env, ctx, idx, full, was.value, wasFull.value, tx, pos, EnforceBIP30(b));
      }
    }
  }

  lemma PrunesConnectTx(env: Env, ctx: Ctx, idx: Index, full: Index, a: Acc, c: Acc, tx: Tx, pos: DiskTxPos,
      bip30: bool)
    requires Prunes(idx, full) && PrunesAcc(Some(a), Some(c)) && pos != NullPos
    ensures PrunesAcc(ConnectTx(env, ctx, idx, a, tx, pos, bip30), ConnectTx(env, ctx, full, c, tx, pos, bip30))
  {
    hide Prunes, Live, Mark, Spendable, AllFound, P2SHSigOps, ValueIn, ValueOut;
    PrunesLive(idx, full, tx.hash);
    var created := Fresh(pos, |tx.vout|);
    if tx.IsCoinBase() {
      PrunesCreate(a.view, c.view, tx.hash, created);
    } else if AllFound(env, a.view, tx.vin) {
      PrunesSpendable(env, ctx, a.view, c.view, tx);
      PrunesMark(a.view, c.view, OpsOf(tx.vin), pos);
      PrunesCreate(Mark(a.view, OpsOf(tx.vin), pos), Mark(c.view, OpsOf(tx.vin), pos), tx.hash, created);
    } else if AllFound(env, c.view, tx.vin) {
      PrunesMissing(env, ctx, a.view, c.view, tx);
    }
  }

  lemma PrunesLive(idx: Index, full: Index, h: Hash)
    requires Prunes(idx, full)
    ensures (h in idx && Live(idx[h])) == (h in full && Live(full[h]))
  {
  }

  lemma PrunesCreate(idx: Index, full: Index, h: Hash, e: TxIndex)
    requires Prunes(idx, full)
    ensures Prunes(idx[h := e], full[h := e])
  {
  }

  /** An input that only the full index has is spent there. */
  lemma PrunesMissing(env: Env, ctx: Ctx, idx: Index, full: Index, tx: Tx)
    requires Prunes(idx, full) && AllFound(env, full, tx.vin) && !AllFound(env, idx, tx.vin)
    ensures !Spendable(env, ctx, full, tx)
  {
    var i :| 0 <= i < |tx.vin| && !Found(env, idx, tx.vin[i].prevout);
    assert !Live(full[tx.vin[i].prevout.hash]);
    assert !InputOk(env, ctx, full, tx, i);
  }

  /** ConnectBlock gives the same verdict on both, and results that differ in the same way. */
  lemma ConnectSeesOnlyUnspent(env: Env, path: seq<BlockRec>, skipSigs: bool, idx: Index, full: Index, b: BlockRec)
    requires Prunes(idx, full)
    ensures ConnectBlock(env, path, skipSigs, idx, b).Some? == ConnectBlock(env, path, skipSigs, full, b).Some?
    ensures ConnectBlock(env, path, skipSigs, idx, b).Some? ==>
      Prunes(ConnectBlock(env, path, skipSigs, idx, b).value, ConnectBlock(env, path, skipSigs, full, b).value)
  {
    PrunesConnectTxs(env, BlockCtx(path, b, skipSigs), idx, full, b, |b.block.vtx|);
  }

  lemma {:induction false} PrunesDisconnectTxs(idx: Index, full: Index, vtx: seq<Tx>, k: nat)
    requires k <= |vtx| && Prunes(idx, full)
    requires DisconnectTxs(idx, vtx, k).Some?
    ensures DisconnectTxs(full, vtx, k).Some?
    ensures Prunes(DisconnectTxs(idx, vtx, k).value, DisconnectTxs(full, vtx, k).value)
    decreases |vtx| - k
  {
    if k < |vtx| {
      PrunesDisconnectTxs(idx, full, vtx, k + 1);
      var d, f := DisconnectTxs(idx, vtx, k + 1).value, DisconnectTxs(full, vtx, k + 1).value;
      if !vtx[k].IsCoinBase() {
        PrunesMark(d, f, OpsOf(vtx[k].vin), NullPos);
      }
    }
  }

  /** Where disconnecting succeeds on the pruned index it succeeds on the full one, and agrees.
      (The converse fails: see ChainFailures.RepeatedIdBlocksReorganization.) */
  lemma DisconnectSeesOnlyUnspent(idx: Index, full: Index, block: Block)
    requires Prunes(idx, full) && DisconnectBlock(idx, block).Some?
    ensures DisconnectBlock(full, block).Some?
    ensures Prunes(DisconnectBlock(idx, block).value, DisconnectBlock(full, block).value)
  {
    PrunesDisconnectTxs(idx, full, block.vtx, 0);
  }

  /* ---- skipping signatures accepts more and changes nothing else ---- */

  lemma {:induction false} SkipSigsAcceptsMore(env: Env, ctx: Ctx, db: Index, b: BlockRec, k: nat)
    requires k <= |b.block.vtx| && ConnectTxs(env, ctx, db, b, k).Some?
    ensures ConnectTxs(env, ctx.(skipSigs := true), db, b, k) == ConnectTxs(env, ctx, db, b, k)
  {
    hide ConnectTx;
    if k > 0 {
      SkipSigsAcceptsMore(env, ctx, db, b, k - 1);
      SkipSigsAcceptsTx(env, ctx, db, ConnectTxs(env, ctx, db, b, k - 1).value, b.block.vtx[k - 1], TxPos(b, k - 1),
          EnforceBIP30(b));
    }
  }

  lemma SkipSigsAcceptsTx(env: Env, ctx: Ctx, db: Index, a: Acc, tx: Tx, pos: DiskTxPos, bip30: bool)
    requires ConnectTx(env, ctx, db, a, tx, pos, bip30).Some?
    ensures ConnectTx(env, ctx.(skipSigs := true), db, a, tx, pos, bip30) == ConnectTx(env, ctx, db, a, tx, pos, bip30)
  {
    hide Mark;
    if !tx.IsCoinBase() {
      assert Spendable(env, ctx.(skipSigs := true), a.view, tx) by {
        assert forall i :: 0 <= i < |tx.vin| && InputOk(env, ctx, a.view, tx, i) ==>
          InputOk(env, ctx.(skipSigs := true), a.view, tx, i);
      }
    }
  }

  lemma SkipSigsKeepsResult(env: Env, path: seq<BlockRec>, skipSigs: bool, db: Index, b: BlockRec)
    requires ConnectBlock(env, path, skipSigs, db, b).Some?
    ensures ConnectBlock(env, path, true, db, b) == ConnectBlock(env, path, skipSigs, db, b)
  {
    SkipSigsAcceptsMore(env, BlockCtx(path, b, skipSigs), db, b, |b.block.vtx|);
  }
}
