/** Conservation of value: what connecting and disconnecting a block does to the total value
    of the unspent outputs in the index. */
module ChainSupply {
  import opened ChainModel
  import opened ChainLaws

  /** Value of the outputs whose mark is still null. */
  function LiveValue(vout: seq<TxOut>, vSpent: seq<DiskTxPos>): int
    requires |vout| == |vSpent|
  {
    if vout == [] then 0
    else var n := |vout| - 1;
      LiveValue(vout[..n], vSpent[..n]) + if vSpent[n] == NullPos then vout[n].nValue else 0
  }

  /** A record that matches no transaction on disk counts for nothing; IndexOk excludes those. */
  function EntryValue(env: Env, e: TxIndex): int {
    if e.pos in env.disk && |env.disk[e.pos].vout| == |e.vSpent| then LiveValue(env.disk[e.pos].vout, e.vSpent) else 0
  }

  /** Total value of the unspent outputs of an index. */
  ghost function Total(env: Env, idx: Index): int
    decreases |idx|
  {
    if idx == map[] then 0
    else var h :| h in idx; EntryValue(env, idx[h]) + Total(env, idx - {h})
  }

  lemma {:induction false} TotalSplit(env: Env, idx: Index, h: Hash)
    requires h in idx
    ensures Total(env, idx) == EntryValue(env, idx[h]) + Total(env, idx - {h})
    decreases |idx|
  {
    hide EntryValue;
    var k :| k in idx && Total(env, idx) == EntryValue(env, idx[k]) + Total(env, idx - {k});
    if k != h {
      TotalSplit(env, idx - {k}, h);
      TotalSplit(env, idx - {h}, k);
      assert idx - {k} - {h} == idx - {h} - {k};
    }
  }

  lemma TotalUpdate(env: Env, idx: Index, h: Hash, e: TxIndex)
    requires IndexOk(env, idx) && EntryOk(env, h, e)
    ensures IndexOk(env, idx[h := e])
    ensures Total(env, idx[h := e]) ==
      Total(env, idx) + EntryValue(env, e) - (if h in idx then EntryValue(env, idx[h]) else 0)
  {
    var after := idx[h := e];
    TotalSplit(env, after, h);
    assert after - {h} == idx - {h};
    if h in idx {
      TotalSplit(env, idx, h);
    } else {
      assert idx - {h} == idx;
    }
  }

  lemma {:induction false} LiveValueBounds(vout: seq<TxOut>, vSpent: seq<DiskTxPos>)
    requires |vout| == |vSpent| && forall n :: 0 <= n < |vout| ==> vout[n].nValue >= 0
    ensures LiveValue(vout, vSpent) >= 0
    ensures (forall n :: 0 <= n < |vSpent| ==> vSpent[n] != NullPos) ==> LiveValue(vout, vSpent) == 0
  {
    if vout != [] { LiveValueBounds(vout[..|vout| - 1], vSpent[..|vout| - 1]); }
  }

  lemma EntryNonNegative(env: Env, idx: Index, h: Hash)
    requires IndexOk(env, idx) && h in idx
    ensures EntryValue(env, idx[h]) >= 0
    ensures !Live(idx[h]) ==> EntryValue(env, idx[h]) == 0
  {
    assert EntryOk(env, h, idx[h]);
    LiveValueBounds(env.disk[idx[h].pos].vout, idx[h].vSpent);
  }

  lemma {:induction false} TotalNonNegative(env: Env, idx: Index)
    requires IndexOk(env, idx)
    ensures Total(env, idx) >= 0
    decreases |idx|
  {
    if idx != map[] {
      var h :| h in idx && Total(env, idx) == EntryValue(env, idx[h]) + Total(env, idx - {h});
      EntryNonNegative(env, idx, h);
      TotalNonNegative(env, idx - {h});
    }
  }

  /* ---- spending ---- */

  lemma {:induction false} LiveValueSet(vout: seq<TxOut>, vSpent: seq<DiskTxPos>, n: nat, pos: DiskTxPos)
    requires |vout| == |vSpent| && n < |vSpent|
    ensures LiveValue(vout, vSpent[n := pos]) == LiveValue(vout, vSpent)
      + (if pos == NullPos then vout[n].nValue else 0) - (if vSpent[n] == NullPos then vout[n].nValue else 0)
  {
    var m := |vout| - 1;
    if n < m {
      LiveValueSet(vout[..m], vSpent[..m], n, pos);
      assert vSpent[n := pos][..m] == vSpent[..m][n := pos];
    } else {
      assert vSpent[n := pos][..m] == vSpent[..m];
    }
  }

  /** Setting or clearing one mark. */
  lemma MarkOne(env: Env, idx: Index, op: OutPoint, pos: DiskTxPos)
    requires IndexOk(env, idx) && op.hash in idx && op.n < |idx[op.hash].vSpent|
    ensures IndexOk(env, Mark(idx, {op}, pos)) && Found(env, idx, op)
    ensures var value := PrevOut(env, idx, op).nValue;
      Total(env, Mark(idx, {op}, pos)) ==
        Total(env, idx) + (if pos == NullPos then value else 0) - (if IsUnspent(idx, op) then value else 0)
  {
    hide IndexOk, Total;
    var e := idx[op.hash];
    var e' := TxIndex(e.pos, e.vSpent[op.n := pos]);
    assert Mark(idx, {op}, pos) == idx[op.hash := e'] by {
      forall h | h in idx ensures MarkEntry(h, idx[h], {op}, pos) == idx[op.hash := e'][h] {
        assert MarkEntry(h, idx[h], {op}, pos).vSpent == idx[op.hash := e'][h].vSpent;
      }
    }
    RecordOk(env, idx, op.hash);
    TotalUpdate(env, idx, op.hash, e');
    LiveValueSet(env.disk[e.pos].vout, e.vSpent, op.n, pos);
  }

  lemma RecordOk(env: Env, idx: Index, h: Hash)
    requires IndexOk(env, idx) && h in idx
    ensures EntryOk(env, h, idx[h])
  {
  }

  lemma UnspentFound(env: Env, idx: Index, vin: seq<TxIn>)
    requires IndexOk(env, idx)
    requires forall i :: 0 <= i < |vin| ==> IsUnspent(idx, vin[i].prevout)
    ensures AllFound(env, idx, vin)
  {
    forall i | 0 <= i < |vin| ensures Found(env, idx, vin[i].prevout) {
      assert EntryOk(env, vin[i].prevout.hash, idx[vin[i].prevout.hash]);
    }
  }

  /** Marking some outpoints leaves another outpoint as it was. */
  lemma MarkOthers(env: Env, idx: Index, ops: set<OutPoint>, pos: DiskTxPos, op: OutPoint)
    requires IndexOk(env, idx) && IsUnspent(idx, op) && op !in ops
    ensures IsUnspent(Mark(idx, ops, pos), op)
    ensures Found(env, idx, op) && Found(env, Mark(idx, ops, pos), op)
    ensures PrevOut(env, Mark(idx, ops, pos), op) == PrevOut(env, idx, op)
  {
    assert EntryOk(env, op.hash, idx[op.hash]);
  }

  lemma MarkOneMore(env: Env, idx: Index, ops: set<OutPoint>, op: OutPoint, pos: DiskTxPos)
    requires IndexOk(env, idx) && IndexOk(env, Mark(idx, ops, pos)) && pos != NullPos
    requires IsUnspent(idx, op) && op !in ops
    ensures IndexOk(env, Mark(idx, ops + {op}, pos)) && Found(env, idx, op)
    ensures Total(env, Mark(idx, ops + {op}, pos)) == Total(env, Mark(idx, ops, pos)) - PrevOut(env, idx, op).nValue
  {
    MarkOthers(env, idx, ops, pos, op);
    MarkOne(env, Mark(idx, ops, pos), op, pos);
    MarkMark(idx, ops, {op}, pos);
  }

  /** Spending a transaction's inputs lowers the total by exactly the value of its inputs. */
  lemma {:induction false} MarkValue(env: Env, idx: Index, vin: seq<TxIn>, pos: DiskTxPos)
    requires IndexOk(env, idx) && pos != NullPos && DistinctInputs(vin)
    requires forall i :: 0 <= i < |vin| ==> IsUnspent(idx, vin[i].prevout)
    ensures IndexOk(env, Mark(idx, OpsOf(vin), pos)) && AllFound(env, idx, vin)
    ensures Total(env, Mark(idx, OpsOf(vin), pos)) == Total(env, idx) - ValueIn(env, idx, vin)
  {
    UnspentFound(env, idx, vin);
    if vin == [] {
      assert forall h :: h in idx ==> MarkEntry(h, idx[h], {}, pos).vSpent == idx[h].vSpent;
      assert OpsOf(vin) == {};
      assert Mark(idx, {}, pos) == idx;
    } else {
      var m := |vin| - 1;
      MarkValue(env, idx, vin[..m], pos);
      OpsSnoc(vin);
      MarkOneMore(env, idx, OpsOf(vin[..m]), vin[m].prevout, pos);
    }
  }

  lemma {:induction false} FreshValue(vout: seq<TxOut>, pos: DiskTxPos)
    ensures LiveValue(vout, Fresh(pos, |vout|).vSpent) == ValueOut(vout)
  {
    if vout != [] {
      FreshValue(vout[..|vout| - 1], pos);
      assert Fresh(pos, |vout|).vSpent[..|vout| - 1] == Fresh(pos, |vout| - 1).vSpent;
    }
  }

  /** Filing a transaction adds its outputs and drops the live outputs of the record it replaces. */
  lemma FileTx(env: Env, idx: Index, tx: Tx, pos: DiskTxPos)
    requires IndexOk(env, idx) && pos != NullPos && pos != MEMORY_POS
    requires pos in env.disk && env.disk[pos] == tx && ValueOutInRange(tx.vout)
    ensures var after := idx[tx.hash := Fresh(pos, |tx.vout|)];
      && IndexOk(env, after)
      && Total(env, after) <= Total(env, idx) + ValueOut(tx.vout)
      && (!(tx.hash in idx && Live(idx[tx.hash])) ==> Total(env, after) == Total(env, idx) + ValueOut(tx.vout))
  {
    TotalUpdate(env, idx, tx.hash, Fresh(pos, |tx.vout|));
    FreshValue(tx.vout, pos);
    if tx.hash in idx {
      LiveValueBounds(env.disk[idx[tx.hash].pos].vout, idx[tx.hash].vSpent);
    }
  }

  /* ---- undoing ---- */

  /** What the inputs name that the index has as spent; undoing makes it unspent, whoever has spent it. */
  function SpentValue(env: Env, idx: Index, vin: seq<TxIn>): int
    requires AllFound(env, idx, vin)
  {
    if vin == [] then 0
    else
      var op := vin[|vin| - 1].prevout;
      SpentValue(env, idx, vin[..|vin| - 1]) + if IsUnspent(idx, op) then 0 else PrevOut(env, idx, op).nValue
  }

  lemma UndoableFound(env: Env, idx: Index, vin: seq<TxIn>)
    requires IndexOk(env, idx) && Undoable(idx, vin)
    ensures AllFound(env, idx, vin)
  {
    forall i | 0 <= i < |vin| ensures Found(env, idx, vin[i].prevout) { RecordOk(env, idx, vin[i].prevout.hash); }
  }

  lemma {:induction false} UnmarkValue(env: Env, idx: Index, vin: seq<TxIn>)
    requires IndexOk(env, idx) && DistinctInputs(vin) && Undoable(idx, vin)
    ensures IndexOk(env, Mark(idx, OpsOf(vin), NullPos)) && AllFound(env, idx, vin)
    ensures Total(env, Mark(idx, OpsOf(vin), NullPos)) == Total(env, idx) + SpentValue(env, idx, vin)
  {
    hide IndexOk, Total;
    UndoableFound(env, idx, vin);
    if vin == [] {
      NothingMarkedHere(idx, NullPos);
      assert OpsOf(vin) == {};
    } else {
      var m := |vin| - 1;
      UnmarkValue(env, idx, vin[..m]);
      OpsSnoc(vin);
      UnmarkOneMore(env, idx, OpsOf(vin[..m]), vin[m].prevout);
    }
  }

  lemma NothingMarkedHere(idx: Index, pos: DiskTxPos)
    ensures Mark(idx, {}, pos) == idx
  {
    assert forall h :: h in idx ==> MarkEntry(h, idx[h], {}, pos).vSpent == idx[h].vSpent;
  }

  lemma UnmarkOneMore(env: Env, idx: Index, ops: set<OutPoint>, op: OutPoint)
    requires IndexOk(env, idx) && IndexOk(env, Mark(idx, ops, NullPos)) && op !in ops
    requires op.hash in idx && op.n < |idx[op.hash].vSpent|
    ensures IndexOk(env, Mark(idx, ops + {op}, NullPos)) && Found(env, idx, op)
    ensures Total(env, Mark(idx, ops + {op}, NullPos)) ==
      Total(env, Mark(idx, ops, NullPos)) + if IsUnspent(idx, op) then 0 else PrevOut(env, idx, op).nValue
  {
    hide IndexOk, Total;
    RecordOk(env, idx, op.hash);
    MarkOne(env, Mark(idx, ops, NullPos), op, NullPos);
    MarkMark(idx, ops, {op}, NullPos);
  }

  lemma DropValue(env: Env, idx: Index, h: Hash)
    requires IndexOk(env, idx)
    ensures IndexOk(env, idx - {h})
    ensures Total(env, idx - {h}) == Total(env, idx) - (if h in idx then EntryValue(env, idx[h]) else 0)
  {
    if h in idx { TotalSplit(env, idx, h); } else { assert idx - {h} == idx; }
  }

  /** Undoing a transaction, connected before or not, adds what its inputs name and the index has as spent, by whatever
      transaction, and takes away what is unspent of its own record, if there is one. */
  lemma UndoTxValue(env: Env, idx: Index, tx: Tx)
    requires IndexOk(env, idx) && DistinctInputs(tx.vin) && (tx.IsCoinBase() || Undoable(idx, tx.vin))
    requires forall i :: 0 <= i < |tx.vin| ==> tx.vin[i].prevout.hash != tx.hash
    ensures DisconnectTx(idx, tx).Some? && IndexOk(env, DisconnectTx(idx, tx).value)
    ensures !tx.IsCoinBase() ==> AllFound(env, idx, tx.vin)
    ensures Total(env, DisconnectTx(idx, tx).value) == Total(env, idx)
      + (if tx.IsCoinBase() then 0 else SpentValue(env, idx, tx.vin))
      - (if tx.hash in idx then EntryValue(env, idx[tx.hash]) else 0)
  {
    hide IndexOk, Total, SpentValue, EntryValue;
    if tx.IsCoinBase() {
      DropValue(env, idx, tx.hash);
    } else {
      UnmarkValue(env, idx, tx.vin);
      DropValue(env, Mark(idx, OpsOf(tx.vin), NullPos), tx.hash);
      if tx.hash in idx {
        assert MarkEntry(tx.hash, idx[tx.hash], OpsOf(tx.vin), NullPos).vSpent == idx[tx.hash].vSpent;
      }
    }
  }

  /* ---- blocks ---- */

  function CoinbaseOut(vtx: seq<Tx>, k: nat): int
    requires k <= |vtx|
  {
    if k == 0 then 0 else ValueOut(vtx[0].vout)
  }

  lemma ConnectTxValue(env: Env, ctx: Ctx, db: Index, a: Acc, tx: Tx, pos: DiskTxPos, bip30: bool)
    requires ConnectTx(env, ctx, db, a, tx, pos, bip30).Some? && IndexOk(env, a.view)
    requires pos != NullPos && pos != MEMORY_POS && pos in env.disk && env.disk[pos] == tx && CheckTransaction(tx)
    ensures var a' := ConnectTx(env, ctx, db, a, tx, pos, bip30).value;
      var made := if tx.IsCoinBase() then ValueOut(tx.vout) else 0;
      && IndexOk(env, a'.view) && a.nFees <= a'.nFees
      && Total(env, a'.view) + a'.nFees <= Total(env, a.view) + a.nFees + made
      && (!(tx.hash in a.view && Live(a.view[tx.hash])) ==>
            Total(env, a'.view) + a'.nFees == Total(env, a.view) + a.nFees + made)
  {
    hide IndexOk, EntryOk, Live, Total, Mark, IsUnspent;
    ConnectTxAvailable(env, ctx, db, a, tx, pos, bip30);
    if tx.IsCoinBase() {
      FileTx(env, a.view, tx, pos);
    } else {
      MarkValue(env, a.view, tx.vin, pos);
      var spent := Mark(a.view, OpsOf(tx.vin), pos);
      FileTx(env, spent, tx, pos);
      MarkedLive(a.view, OpsOf(tx.vin), pos, tx.hash);
    }
  }

  lemma MarkedLive(idx: Index, ops: set<OutPoint>, pos: DiskTxPos, h: Hash)
    requires pos != NullPos
    ensures h in Mark(idx, ops, pos) && Live(Mark(idx, ops, pos)[h]) ==> h in idx && Live(idx[h])
  {
    if h in idx && Live(Mark(idx, ops, pos)[h]) {
      var e := Mark(idx, ops, pos)[h];
      var n :| 0 <= n < |e.vSpent| && e.vSpent[n] == NullPos;
      assert idx[h].vSpent[n] == NullPos;
    }
  }

  lemma BlockTx(env: Env, b: BlockRec, i: nat)
    requires Stored(env, b) && CheckBlock(env, b.block) && i < |b.block.vtx|
    ensures var tx, pos := b.block.vtx[i], TxPos(b, i);
      && pos != NullPos && pos != MEMORY_POS && pos in env.disk && env.disk[pos] == tx
      && CheckTransaction(tx) && (tx.IsCoinBase() <==> i == 0)
  {
    assert TxOffset(b, i) > 1;
  }

  /** A transaction not live before the block is not live when its turn in the block comes. */
  lemma NotLiveYet(env: Env, ctx: Ctx, db: Index, b: BlockRec, k: nat)
    requires k < |b.block.vtx| && ConnectTxs(env, ctx, db, b, k).Some? && CheckBlock(env, b.block)
    requires NoLiveOverwrite(db, b.block.vtx)
    ensures var view, h := ConnectTxs(env, ctx, db, b, k).value.view, b.block.vtx[k].hash; !(h in view && Live(view[h]))
  {
    ConnectTxsFrame(env, ctx, db, b, k, b.block.vtx[k].hash);
  }

  lemma {:induction false} ConnectTxsValue(env: Env, ctx: Ctx, db: Index, b: BlockRec, k: nat)
    requires k <= |b.block.vtx| && ConnectTxs(env, ctx, db, b, k).Some?
    requires IndexOk(env, db) && Stored(env, b) && CheckBlock(env, b.block)
    ensures var a := ConnectTxs(env, ctx, db, b, k).value;
      && IndexOk(env, a.view) && a.nFees >= 0
      && Total(env, a.view) + a.nFees <= Total(env, db) + CoinbaseOut(b.block.vtx, k)
      && (NoLiveOverwrite(db, b.block.vtx) ==>
            Total(env, a.view) + a.nFees == Total(env, db) + CoinbaseOut(b.block.vtx, k))
  {
    hide ChainModel.ConnectTx, IndexOk, Stored, CheckBlock, CheckTransaction, Live, NoLiveOverwrite, Total;
    if k > 0 {
      ConnectTxsValue(env, ctx, db, b, k - 1);
      BlockTx(env, b, k - 1);
      ConnectTxValue(env, ctx, db, ConnectTxs(env, ctx, db, b, k - 1).value, b.block.vtx[k - 1], TxPos(b, k - 1),
          EnforceBIP30(b));
      if NoLiveOverwrite(db, b.block.vtx) { NotLiveYet(env, ctx, db, b, k - 1); }
    }
  }

  /** Connecting a block creates at most its subsidy; with no live overwrite the books balance
      exactly: outputs after = outputs before + coinbase - fees. Fees never exceed what the index
      and the coinbase held, so their tally cannot leave the range of the amounts themselves. */
  lemma ConnectBlockValue(env: Env, path: seq<BlockRec>, skipSigs: bool, db: Index, b: BlockRec)
    requires IndexOk(env, db) && Stored(env, b)
    requires ConnectBlock(env, path, skipSigs, db, b).Some?
    ensures IndexOk(env, ConnectBlock(env, path, skipSigs, db, b).value)
    ensures Total(env, ConnectBlock(env, path, skipSigs, db, b).value) <= Total(env, db) + env.subsidy(b.nHeight)
    ensures var a := ConnectTxs(env, BlockCtx(path, b, skipSigs), db, b, |b.block.vtx|).value;
      && 0 <= a.nFees <= Total(env, db) + ValueOut(b.block.vtx[0].vout)
      && (NoLiveOverwrite(db, b.block.vtx) ==>
            Total(env, a.view) == Total(env, db) + ValueOut(b.block.vtx[0].vout) - a.nFees)
  {
    ConnectTxsValue(env, BlockCtx(path, b, skipSigs), db, b, |b.block.vtx|);
    TotalNonNegative(env, ConnectBlock(env, path, skipSigs, db, b).value);
  }

  lemma {:induction false} DisconnectKeepsOk(env: Env, idx: Index, vtx: seq<Tx>, k: nat)
    requires k <= |vtx| && IndexOk(env, idx) && DisconnectTxs(idx, vtx, k).Some?
    ensures IndexOk(env, DisconnectTxs(idx, vtx, k).value)
    decreases |vtx| - k
  {
    if k < |vtx| {
      DisconnectKeepsOk(env, idx, vtx, k + 1);
      var d := DisconnectTxs(idx, vtx, k + 1).value;
      var d' := DisconnectTx(d, vtx[k]).value;
      forall h | h in d' ensures EntryOk(env, h, d'[h]) { assert EntryOk(env, h, d[h]); }
    }
  }
}
