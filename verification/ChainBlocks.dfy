/** Connecting and disconnecting one block against the transaction database. */
module ChainBlocks {
  import opened Basics
  import opened ChainModel
  import opened ChainLaws
  import opened ChainDb
  import opened ChainRules

  /* ---- disconnecting ---- */

  /** Record by record: read, check the range, clear the mark, write back; then erase the transaction. */
  method DisconnectInputs(db: TxDB, tx: Tx) returns (ok: bool)
    modifies db
    ensures ok == DisconnectTx(old(db.Current().txs), tx).Some?
    ensures ok ==> db.Holds(old(db.Current()).(txs := DisconnectTx(old(db.Current().txs), tx).value),
                            old(db.committed), old(db.activeTxn.Some?))
    ensures old(db.activeTxn.Some?) ==> db.activeTxn.Some? && db.committed == old(db.committed)
  {
    hide Mark;
    ghost var was := db.Current();
    ghost var wasActive, wasCommitted := db.activeTxn.Some?, db.committed;
    if !tx.IsCoinBase() {
      var i := 0;
      NoMark(was.txs);
      assert OpsOf(tx.vin[..0]) == {};
      while i < |tx.vin|
        invariant 0 <= i <= |tx.vin| && Undoable(was.txs, tx.vin[..i])
        invariant db.Holds(was.(txs := Mark(was.txs, OpsOf(tx.vin[..i]), NullPos)), wasCommitted, wasActive)
      {
        var op := tx.vin[i].prevout;
        MarkShape(was.txs, OpsOf(tx.vin[..i]), op.hash);
        var e := db.ReadTxIndex(op.hash);
        if e.None? || op.n >= |e.value.vSpent| {
          return false;
        }
        assert tx.vin[..i + 1][..i] == tx.vin[..i];
        OpsSnoc(tx.vin[..i + 1]);
        UnmarkOne(was.txs, OpsOf(tx.vin[..i]), op);
        db.UpdateTxIndex(op.hash, TxIndex(e.value.pos, e.value.vSpent[op.n := NullPos]));
        i := i + 1;
      }
      assert tx.vin[..i] == tx.vin;
    }
    db.EraseTxIndex(tx);
    ok := true;
  }

  lemma MarkShape(idx: Index, ops: set<OutPoint>, h: Hash)
    ensures h in Mark(idx, ops, NullPos) <==> h in idx
    ensures h in idx ==> |Mark(idx, ops, NullPos)[h].vSpent| == |idx[h].vSpent|
  {
  }

  lemma NoMark(idx: Index)
    ensures Mark(idx, {}, NullPos) == idx
  {
    forall h | h in idx ensures MarkEntry(h, idx[h], {}, NullPos) == idx[h] {
      assert MarkEntry(h, idx[h], {}, NullPos).vSpent == idx[h].vSpent;
    }
  }

  lemma UnmarkOne(idx: Index, ops: set<OutPoint>, op: OutPoint)
    requires op.hash in idx && op.n < |idx[op.hash].vSpent|
    ensures var e := Mark(idx, ops, NullPos)[op.hash];
      Mark(idx, ops + {op}, NullPos) == Mark(idx, ops, NullPos)[op.hash := TxIndex(e.pos, e.vSpent[op.n := NullPos])]
  {
    var e := Mark(idx, ops, NullPos)[op.hash];
    MarkEntryStep(idx, ops, op, NullPos);
    assert Mark(idx, ops + {op}, NullPos) ==
      Mark(idx, ops, NullPos)[op.hash := TxIndex(e.pos, e.vSpent[op.n := NullPos])];
  }

  /** hashNext as the disk record of the block before pindex is rewritten. */
  function Relink(hashNext: map<Hash, Hash>, pindex: BlockIndex, next: Hash): map<Hash, Hash> {
    if pindex.pprev == null then hashNext else hashNext[pindex.pprev.rec.block.hash := next]
  }

  method DisconnectBlock(db: TxDB, pindex: BlockIndex) returns (ok: bool)
    modifies db
    ensures ok == ChainModel.DisconnectBlock(old(db.Current().txs), pindex.rec.block).Some?
    ensures ok ==> db.Holds(old(db.Current()).(
        txs := ChainModel.DisconnectBlock(old(db.Current().txs), pindex.rec.block).value,
        hashNext := Relink(old(db.Current().hashNext), pindex, 0)),
      old(db.committed), old(db.activeTxn.Some?))
    ensures old(db.activeTxn.Some?) ==> db.activeTxn.Some? && db.committed == old(db.committed)
  {
    ghost var was := db.Current();
    ghost var wasActive, wasCommitted := db.activeTxn.Some?, db.committed;
    var vtx := pindex.rec.block.vtx;
    var i := |vtx|;
    while i > 0
      invariant 0 <= i <= |vtx|
      invariant DisconnectTxs(was.txs, vtx, i).Some?
      invariant db.Holds(was.(txs := DisconnectTxs(was.txs, vtx, i).value), wasCommitted, wasActive)
    {
      ok := DisconnectInputs(db, vtx[i - 1]);
      i := i - 1;
      if !ok {
        DisconnectFails(was.txs, vtx, i);
        return;
      }
    }
    if pindex.pprev != null {
      db.WriteHashNext(pindex.pprev.rec.block.hash, 0);
    }
    ok := true;
  }

  lemma {:induction false} DisconnectFails(idx: Index, vtx: seq<Tx>, k: nat)
    requires k <= |vtx| && DisconnectTxs(idx, vtx, k).None?
    ensures DisconnectTxs(idx, vtx, 0).None?
    decreases k
  {
    if k > 0 { DisconnectFails(idx, vtx, k - 1); }
  }

  /* ---- connecting ---- */

  /** A transaction that spends: its inputs are fetched, counted, paid for and marked in the queue. */
  method QueueSpend(env: Env, db: TxDB, queue: Index, ghost ctx: Ctx, skipSigs: bool, strict: bool,
                    tx: Tx, pos: DiskTxPos, pindex: BlockIndex)
    returns (ok: bool, queue': Index, nP2SHSigOps: nat, nFee: int)
    requires pos != NullPos && ctx.skipSigs == skipSigs && ctx.strict == strict && !tx.IsCoinBase()
    requires pindex.Linked() && ctx.path == Recs(pindex.Line()) && ValueOutInRange(tx.vout)
    ensures var view := db.Current().txs + queue;
      && (ok <==> AllFound(env, view, tx.vin) && Spendable(env, ctx, view, tx))
      && (ok ==> db.Current().txs + queue' == Mark(view, OpsOf(tx.vin), pos))
      && (ok ==> nP2SHSigOps == if strict then P2SHSigOps(env, tx.vin, PrevOuts(env, view, tx.vin)) else 0)
      && (ok ==> nFee == ValueIn(env, view, tx.vin) - ValueOut(tx.vout))
  {
    ghost var base := db.Current().txs;
    ghost var view := base + queue;
    queue', nP2SHSigOps, nFee := queue, 0, 0;
    LookupQueued(env, base, queue, tx.vin);
    var inputs, fInvalid;
    ok, inputs, fInvalid := FetchInputs(env, db, queue, true, false, tx);
    if !ok { return; }
    if strict {
      nP2SHSigOps := GetP2SHSigOpCount(env, view, tx, inputs);
    }
    var nValueIn := GetValueIn(env, view, tx, inputs);
    var nValueOut := GetValueOut(tx);
    nFee := nValueIn - nValueOut.value;
    ok, queue' := ConnectInputs(env, base, ctx, skipSigs, strict, tx, pos, inputs, queue, pindex);
  }

  method GetP2SHSigOpCount(env: Env, ghost view: Index, tx: Tx, inputs: MapPrevTx) returns (nSigOps: nat)
    requires !tx.IsCoinBase() ==> AllFound(env, view, tx.vin) && Fetched(env, view, tx.vin, inputs)
    ensures nSigOps == if tx.IsCoinBase() then 0 else P2SHSigOps(env, tx.vin, PrevOuts(env, view, tx.vin))
  {
    nSigOps := 0;
    if tx.IsCoinBase() { return; }
    ghost var outs := PrevOuts(env, view, tx.vin);
    OutsAt(env, view, tx.vin, inputs);
    hide PrevOuts, Found, AllFound, Fetched, P2SHSigOps, IsPayToScriptHash;
    P2SHNone(env, tx.vin, outs);
    var i := 0;
    while i < |tx.vin|
      invariant 0 <= i <= |tx.vin| && nSigOps == P2SHSigOps(env, tx.vin[..i], outs[..i])
    {
      P2SHNext(env, tx.vin, outs, i);
      var prevout := inputs[tx.vin[i].prevout.hash].tx.vout[tx.vin[i].prevout.n];
      if IsPayToScriptHash(prevout.scriptPubKey) {
        nSigOps := nSigOps + env.scriptSigOps(prevout.scriptPubKey, tx.vin[i].scriptSig);
      }
      i := i + 1;
    }
    assert tx.vin[..i] == tx.vin && outs[..i] == outs;
  }

  lemma P2SHNone(env: Env, vin: seq<TxIn>, outs: seq<TxOut>)
    requires |vin| == |outs|
    ensures P2SHSigOps(env, vin[..0], outs[..0]) == 0
  {
  }

  lemma P2SHNext(env: Env, vin: seq<TxIn>, outs: seq<TxOut>, i: nat)
    requires |vin| == |outs| && i < |vin|
    ensures P2SHSigOps(env, vin[..i + 1], outs[..i + 1]) == P2SHSigOps(env, vin[..i], outs[..i])
      + if IsPayToScriptHash(outs[i].scriptPubKey) then env.scriptSigOps(outs[i].scriptPubKey, vin[i].scriptSig) else 0
  {
    assert vin[..i + 1][..i] == vin[..i] && outs[..i + 1][..i] == outs[..i];
  }

  /** The outputs spent are those of the fetched transactions. */
  lemma OutsAt(env: Env, view: Index, vin: seq<TxIn>, inputs: MapPrevTx)
    requires AllFound(env, view, vin) && Fetched(env, view, vin, inputs)
    ensures forall i :: 0 <= i < |vin| ==>
      var op := vin[i].prevout;
      && op.hash in inputs && op.n < |inputs[op.hash].tx.vout|
      && PrevOuts(env, view, vin)[i] == inputs[op.hash].tx.vout[op.n]
  {
    forall i | 0 <= i < |vin|
      ensures vin[i].prevout.n < |inputs[vin[i].prevout.hash].tx.vout|
      ensures PrevOuts(env, view, vin)[i] == inputs[vin[i].prevout.hash].tx.vout[vin[i].prevout.n]
    {
      assert Found(env, view, vin[i].prevout);
    }
  }

  /** One transaction: BIP 30 against the database, sigops, inputs, fees; its record goes to the queue. */
  method QueueTx(env: Env, db: TxDB, a: Acc, ghost ctx: Ctx, skipSigs: bool, strict: bool, bip30: bool,
                 tx: Tx, pos: DiskTxPos, pindex: BlockIndex)
    returns (ok: bool, a': Acc)
    requires pos != NullPos && ctx.skipSigs == skipSigs && ctx.strict == strict && ValueOutInRange(tx.vout)
    requires pindex.Linked() && ctx.path == Recs(pindex.Line())
    ensures var spec := ConnectTx(env, ctx, db.Current().txs, Overlay(db.Current().txs, a), tx, pos, bip30);
      ok == spec.Some? && (ok ==> Overlay(db.Current().txs, a') == spec.value)
  {
    hide Mark, Spendable, AllFound, ValueIn, ValueOut, P2SHSigOps, Live;
    ghost var base := db.Current().txs;
    a' := a;
    if bip30 {
      var e := db.ReadTxIndex(tx.hash);
      if e.Some? && Live(e.value) { return false, a; }
    }
    var nSigOps, queue, nFee := a.nSigOps + tx.nSigOps, a.view, 0;
    if nSigOps > MAX_BLOCK_SIGOPS { return false, a; }
    if !tx.IsCoinBase() {
      var n;
      ok, queue, n, nFee := QueueSpend(env, db, a.view, ctx, skipSigs, strict, tx, pos, pindex);
      nSigOps := nSigOps + n;
      if !ok || nSigOps > MAX_BLOCK_SIGOPS { return false, a; }
    }
    a' := Acc(queue[tx.hash := Fresh(pos, |tx.vout|)], a.nFees + nFee, nSigOps);
    OverlayPut(base, queue, tx.hash, Fresh(pos, |tx.vout|));
    ok := true;
  }

  lemma OverlayPut(db: Index, queue: Index, h: Hash, e: TxIndex)
    ensures db + queue[h := e] == (db + queue)[h := e]
  {
  }

  /** The queued changes of the accumulator laid over the database. */
  function Overlay(db: Index, a: Acc): Acc { Acc(db + a.view, a.nFees, a.nSigOps) }

  /** The loop over the block's transactions; the database itself is only read. */
  method QueueBlock(env: Env, db: TxDB, pindex: BlockIndex, skipSigs: bool) returns (ok: bool, a: Acc)
    requires pindex.Linked() && CheckBlock(env, pindex.rec.block)
    ensures var spec := ConnectTxs(env, BlockCtx(pindex.Before(), pindex.rec, skipSigs), db.Current().txs, pindex.rec,
      |pindex.rec.block.vtx|);
      ok == spec.Some? && (ok ==> Overlay(db.Current().txs, a) == spec.value)
  {
    hide ConnectTx, Mark, Spendable;
    var b, vtx := pindex.rec, pindex.rec.block.vtx;
    ghost var ctx := BlockCtx(pindex.Before(), b, skipSigs);
    LineRecs(pindex);
    ghost var base := db.Current().txs;
    var nTxPos := b.nBlockPos + BLOCK_HEADER_SIZE + SizeOfCompactSize(|vtx|);
    a := Acc(map[], 0, 0);
    var i := 0;
    assert vtx[..0] == [] && base + map[] == base;
    while i < |vtx|
      invariant 0 <= i <= |vtx| && nTxPos == TxOffset(b, i)
      invariant ConnectTxs(env, ctx, base, b, i) == Some(Overlay(base, a))
    {
      assert CheckTransaction(vtx[i]);
      ok, a := QueueTx(env, db, a, ctx, skipSigs, b.nTime >= BIP16_SWITCH_TIME, EnforceBIP30(b),
                       vtx[i], Pos(b.nFile, b.nBlockPos, nTxPos), pindex);
      assert vtx[..i + 1][..i] == vtx[..i];
      nTxPos := nTxPos + vtx[i].nSize;
      i := i + 1;
      if !ok {
        ConnectFails(env, ctx, base, b, i);
        return;
      }
    }
    ok := true;
  }

  method ConnectBlock(env: Env, db: TxDB, pindex: BlockIndex, skipSigs: bool) returns (ok: bool)
    requires pindex.Linked()
    modifies db
    ensures ok == ChainModel.ConnectBlock(env, pindex.Before(), skipSigs, old(db.Current().txs), pindex.rec).Some?
    ensures ok ==> db.Holds(old(db.Current()).(
        txs := ChainModel.ConnectBlock(env, pindex.Before(), skipSigs, old(db.Current().txs), pindex.rec).value,
        hashNext := Relink(old(db.Current().hashNext), pindex, pindex.rec.block.hash)),
      old(db.committed), old(db.activeTxn.Some?))
    ensures ok <==> Connectable(env, pindex.Before(), skipSigs, old(db.Current().txs), pindex.rec)
    ensures ok ==> Passed(env, pindex.Before(), skipSigs, old(db.Current().txs), pindex.rec)
    ensures old(db.activeTxn.Some?) ==> db.activeTxn.Some? && db.committed == old(db.committed)
  {
    var b := pindex.rec;
    if ChainModel.ConnectBlock(env, pindex.Before(), skipSigs, db.Current().txs, b).Some? {
      ConnectedPassed(env, pindex.Before(), skipSigs, db.Current().txs, b);
    }
    ConnectsIff(env, pindex.Before(), skipSigs, db.Current().txs, b);
    hide Passed, Connectable;
    if !CheckBlock(env, b.block) { return false; }
    var a;
    ok, a := QueueBlock(env, db, pindex, skipSigs);
    if !ok { return; }
    Flush(db, a.view);
    assert CheckTransaction(b.block.vtx[0]);
    var nValueOut := GetValueOut(b.block.vtx[0]);
    if nValueOut.value > env.subsidy(b.nHeight) + a.nFees { return false; }
    if pindex.pprev != null {
      db.WriteHashNext(pindex.pprev.rec.block.hash, b.block.hash);
    }
    ok := true;
  }

  lemma LineRecs(pindex: BlockIndex)
    requires pindex.Linked()
    ensures Recs(pindex.Line()) == pindex.Before() + [pindex.rec]
  {
  }

  lemma {:induction false} ConnectFails(env: Env, ctx: Ctx, db: Index, b: BlockRec, k: nat)
    requires k <= |b.block.vtx| && ConnectTxs(env, ctx, db, b, k).None?
    ensures ConnectTxs(env, ctx, db, b, |b.block.vtx|).None?
    decreases |b.block.vtx| - k
  {
    if k < |b.block.vtx| { ConnectFails(env, ctx, db, b, k + 1); }
  }

  /** Writes the queued changes, in any order. */
  method Flush(db: TxDB, queue: Index)
    modifies db
    ensures db.Holds(old(db.Current()).(txs := old(db.Current().txs) + queue), old(db.committed),
      old(db.activeTxn.Some?))
  {
    ghost var was := db.Current();
    ghost var wasActive, wasCommitted := db.activeTxn.Some?, db.committed;
    var todo := queue.Keys;
    ghost var written: Index := map[];
    while todo != {}
      invariant todo <= queue.Keys && written.Keys == queue.Keys - todo
      invariant forall h :: h in written ==> written[h] == queue[h]
      invariant db.Holds(was.(txs := was.txs + written), wasCommitted, wasActive)
    {
      var h :| h in todo;
      db.UpdateTxIndex(h, queue[h]);
      todo := todo - {h};
      assert was.txs + written[h := queue[h]] == (was.txs + written)[h := queue[h]];
      written := written[h := queue[h]];
    }
    assert written == queue;
  }
}
