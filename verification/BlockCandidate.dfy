/** The candidate, with its coinbase and its place in the block files filled in, connects on the index it was
    built on. The miner and ConnectBlock differ in three ways: the position a transaction's record has, the
    blocks that count for the maturity of a coinbase, and the coinbase itself, which comes first. */
module BlockCandidate {
  import opened Basics
  import opened ChainModel
  import opened ChainLaws
  import opened BlockMaker

  /* ---- what is filled in ---- */

  predicate InPlaceOf(pos: DiskTxPos, b: BlockRec) { pos.Pos? && pos.nFile == b.nFile && pos.nBlockPos == b.nBlockPos }

  /** The block is the candidate behind a coinbase that pays the value given; it has passed the tests of its
      header, lies in the block files where no other block does, and makes no live record again. */
  ghost predicate FilledIn(env: Env, path: seq<BlockRec>, idx: Index, c: Candidate, b: BlockRec) {
    && b.block.vtx != [] && b.block.vtx[1..] == c.vtx
    && (var cb := b.block.vtx[0];
        && cb.IsCoinBase() && CheckTransaction(cb) && cb.nSigOps <= FIRST_SIGOPS
        && ValueOut(cb.vout) == c.coinbaseValue && cb.hash !in Ids(c.vtx))
    && env.headerOk(b.block) && b.nHeight == |path| && b.nTime >= BIP16_SWITCH_TIME
    && Stored(env, b) && (forall h :: h in idx ==> !InPlaceOf(idx[h].pos, b))
    && NoLiveOverwrite(idx, b.block.vtx)
  }

  /** What the pool has seen to when it accepted a transaction. */
  predicate PoolChecked(pool: map<Hash, Tx>) {
    forall h :: h in pool ==> pool[h].hash == h && CheckTransaction(pool[h]) && pool[h].nSize > 0
  }

  /* ---- the two indexes, side by side ---- */

  /** Two records of one transaction, with the same outputs unspent; if it is a coinbase they are the same place,
      and that is not in the new block. */
  ghost predicate TwinEntry(env: Env, b: BlockRec, h: Hash, v: TxIndex, w: TxIndex) {
    && |v.vSpent| == |w.vSpent|
    && (forall n :: 0 <= n < |v.vSpent| ==> (v.vSpent[n] == NullPos <==> w.vSpent[n] == NullPos))
    && TxAt(env, h, v.pos) == TxAt(env, h, w.pos)
    && ((v.pos == w.pos && !InPlaceOf(v.pos, b)) ||
        (TxAt(env, h, v.pos).Some? && !TxAt(env, h, v.pos).value.IsCoinBase()))
  }

  /** The index of the miner and that of ConnectBlock: the same but for the record of the coinbase, which the miner
      has not got, or has with nothing left to spend. */
  ghost predicate Twins(env: Env, b: BlockRec, cb: Hash, v: Index, w: Index) {
    && (forall h :: h in w <==> h in v || h == cb)
    && (forall h :: h in v && h != cb ==> TwinEntry(env, b, h, v[h], w[h]))
    && (cb in v ==> !Live(v[cb]))
  }

  lemma TwinFound(env: Env, b: BlockRec, cb: Hash, v: Index, w: Index, op: OutPoint)
    requires Twins(env, b, cb, v, w) && Found(env, v, op) && v[op.hash].vSpent[op.n] == NullPos
    ensures op.hash != cb && Found(env, w, op) && w[op.hash].vSpent[op.n] == NullPos
    ensures PrevTx(env, w, op) == PrevTx(env, v, op) && PrevOut(env, w, op) == PrevOut(env, v, op)
    ensures PrevTx(env, v, op).IsCoinBase() ==> v[op.hash].pos == w[op.hash].pos && !InPlaceOf(v[op.hash].pos, b)
  {
    if op.hash == cb { assert Live(v[cb]); }
    assert TwinEntry(env, b, op.hash, v[op.hash], w[op.hash]);
  }

  /** Every input is found and unspent. */
  predicate AllUnspent(env: Env, view: Index, vin: seq<TxIn>) {
    forall i :: 0 <= i < |vin| ==>
      Found(env, view, vin[i].prevout) && view[vin[i].prevout.hash].vSpent[vin[i].prevout.n] == NullPos
  }

  lemma {:induction false} TwinValueIn(env: Env, b: BlockRec, cb: Hash, v: Index, w: Index, vin: seq<TxIn>)
    requires Twins(env, b, cb, v, w) && AllUnspent(env, v, vin)
    ensures AllUnspent(env, w, vin) && AllFound(env, v, vin) && AllFound(env, w, vin)
    ensures PrevOuts(env, w, vin) == PrevOuts(env, v, vin)
    ensures ValueIn(env, w, vin) == ValueIn(env, v, vin)
  {
    hide Twins;
    forall i | 0 <= i < |vin|
      ensures Found(env, w, vin[i].prevout) && w[vin[i].prevout.hash].vSpent[vin[i].prevout.n] == NullPos
      ensures Found(env, v, vin[i].prevout) && PrevOut(env, w, vin[i].prevout) == PrevOut(env, v, vin[i].prevout)
    {
      TwinFound(env, b, cb, v, w, vin[i].prevout);
    }
    if vin != [] { TwinValueIn(env, b, cb, v, w, vin[..|vin| - 1]); }
  }

  /** A coinbase mature for the miner is mature for ConnectBlock, whose path is one block longer. */
  lemma StillMature(path: seq<BlockRec>, b: BlockRec, pos: DiskTxPos)
    requires pos != NullPos && !Immature(path, pos) && !InPlaceOf(pos, b)
    ensures !Immature(path + [b], pos)
  {
    var longer := path + [b];
    forall j | 0 <= j < |longer| && |longer| - j <= COINBASE_MATURITY
      ensures !(longer[j].nBlockPos == pos.nBlockPos && longer[j].nFile == pos.nFile)
    {
      if j < |path| { assert longer[j] == path[j]; }
    }
  }

  lemma TwinInputOk(env: Env, path: seq<BlockRec>, b: BlockRec, cb: Hash, v: Index, w: Index, tx: Tx, i: nat)
    requires Twins(env, b, cb, v, w) && i < |tx.vin| && Found(env, v, tx.vin[i].prevout)
    requires InputOk(env, Ctx(path, true, false), v, tx, i)
    ensures Found(env, w, tx.vin[i].prevout) && InputOk(env, Ctx(path + [b], true, false), w, tx, i)
  {
    hide Twins, Immature;
    var op := tx.vin[i].prevout;
    TwinFound(env, b, cb, v, w, op);
    if PrevTx(env, v, op).IsCoinBase() { StillMature(path, b, v[op.hash].pos); }
  }

  lemma TwinSpendable(env: Env, path: seq<BlockRec>, b: BlockRec, cb: Hash, v: Index, w: Index, tx: Tx)
    requires Twins(env, b, cb, v, w) && AllFound(env, v, tx.vin) && Spendable(env, Ctx(path, true, false), v, tx)
    ensures AllUnspent(env, v, tx.vin) && AllFound(env, w, tx.vin)
    ensures Spendable(env, Ctx(path + [b], true, false), w, tx)
  {
    hide Twins, InputOk;
    forall i | 0 <= i < |tx.vin|
      ensures Found(env, v, tx.vin[i].prevout) && v[tx.vin[i].prevout.hash].vSpent[tx.vin[i].prevout.n] == NullPos
    {
      InputUnspent(env, Ctx(path, true, false), v, tx, i);
    }
    TwinValueIn(env, b, cb, v, w, tx.vin);
    forall i | 0 <= i < |tx.vin| ensures InputOk(env, Ctx(path + [b], true, false), w, tx, i) {
      TwinInputOk(env, path, b, cb, v, w, tx, i);
    }
    forall i | 0 <= i <= |tx.vin| ensures ValueIn(env, w, tx.vin[..i]) == ValueIn(env, v, tx.vin[..i]) {
      TwinValueIn(env, b, cb, v, w, tx.vin[..i]);
    }
  }

  lemma InputUnspent(env: Env, ctx: Ctx, view: Index, tx: Tx, i: nat)
    requires i < |tx.vin| && Found(env, view, tx.vin[i].prevout) && InputOk(env, ctx, view, tx, i)
    ensures view[tx.vin[i].prevout.hash].vSpent[tx.vin[i].prevout.n] == NullPos
  {
  }

  /** Marking the inputs, each with its own position, keeps the indexes side by side. */
  lemma TwinMark(env: Env, b: BlockRec, cb: Hash, v: Index, w: Index, ops: set<OutPoint>, pos: DiskTxPos)
    requires Twins(env, b, cb, v, w) && pos != NullPos
    ensures Twins(env, b, cb, Mark(v, ops, MEMORY_POS), Mark(w, ops, pos))
  {
    hide Live, TwinEntry;
    var v', w' := Mark(v, ops, MEMORY_POS), Mark(w, ops, pos);
    forall h | h in v' && h != cb ensures TwinEntry(env, b, h, v'[h], w'[h]) {
      TwinMarkEntry(env, b, h, v[h], w[h], ops, pos);
    }
    if cb in v { MarkedSpent(cb, v[cb], ops, MEMORY_POS); }
  }

  lemma TwinMarkEntry(env: Env, b: BlockRec, h: Hash, v: TxIndex, w: TxIndex, ops: set<OutPoint>, pos: DiskTxPos)
    requires TwinEntry(env, b, h, v, w) && pos != NullPos
    ensures TwinEntry(env, b, h, MarkEntry(h, v, ops, MEMORY_POS), MarkEntry(h, w, ops, pos))
  {
    hide TxAt, InPlaceOf;
  }

  lemma MarkedSpent(h: Hash, e: TxIndex, ops: set<OutPoint>, pos: DiskTxPos)
    requires !Live(e) && pos != NullPos
    ensures !Live(MarkEntry(h, e, ops, pos))
  {
    var e' := MarkEntry(h, e, ops, pos);
    forall n | 0 <= n < |e'.vSpent| ensures e'.vSpent[n] != NullPos { assert e.vSpent[n] != NullPos; }
  }

  /** So does filing a transaction of the pool. */
  lemma TwinFile(env: Env, b: BlockRec, cb: Hash, v: Index, w: Index, tx: Tx, pos: DiskTxPos)
    requires Twins(env, b, cb, v, w) && tx.hash != cb && !tx.IsCoinBase()
    requires tx.hash in env.mempool && env.mempool[tx.hash] == tx
    requires pos != NullPos && pos != MEMORY_POS && pos in env.disk && env.disk[pos] == tx
    ensures Twins(env, b, cb, v[tx.hash := Fresh(MEMORY_POS, |tx.vout|)], w[tx.hash := Fresh(pos, |tx.vout|)])
  {
    var v', w' := v[tx.hash := Fresh(MEMORY_POS, |tx.vout|)], w[tx.hash := Fresh(pos, |tx.vout|)];
    forall h | h in v' && h != cb ensures TwinEntry(env, b, h, v'[h], w'[h]) {
      if h != tx.hash { assert TwinEntry(env, b, h, v[h], w[h]); }
    }
  }

  /** One transaction. */
  lemma TwinConnect(env: Env, path: seq<BlockRec>, b: BlockRec, cb: Tx, idx: Index, a: Acc, w: Index, tx: Tx,
      pos: DiskTxPos)
    requires Twins(env, b, cb.hash, a.view, w) && tx.hash != cb.hash && !tx.IsCoinBase()
    requires tx.hash in env.mempool && env.mempool[tx.hash] == tx
    requires pos != NullPos && pos != MEMORY_POS && pos in env.disk && env.disk[pos] == tx
    requires !(tx.hash in idx && Live(idx[tx.hash]))
    requires var r := ConnectTx(env, Ctx(path, true, false), idx, a, tx, MEMORY_POS, false);
      r.Some? && cb.nSigOps + r.value.nSigOps <= MAX_BLOCK_SIGOPS
    ensures var r := ConnectTx(env, Ctx(path, true, false), idx, a, tx, MEMORY_POS, false).value;
      var s := ConnectTx(env, Ctx(path + [b], true, false), idx, Acc(w, a.nFees, cb.nSigOps + a.nSigOps), tx, pos,
          EnforceBIP30(b));
      && s.Some? && Twins(env, b, cb.hash, r.view, s.value.view)
      && s.value.nFees == r.nFees && s.value.nSigOps == cb.nSigOps + r.nSigOps
  {
    hide Twins, Spendable, Mark, Live;
    ConnectNeedsInputs(env, Ctx(path, true, false), idx, a, tx);
    TwinSpendable(env, path, b, cb.hash, a.view, w, tx);
    TwinValueIn(env, b, cb.hash, a.view, w, tx.vin);
    TwinMark(env, b, cb.hash, a.view, w, OpsOf(tx.vin), pos);
    TwinFile(env, b, cb.hash, Mark(a.view, OpsOf(tx.vin), MEMORY_POS), Mark(w, OpsOf(tx.vin), pos), tx, pos);
  }

  /* ---- the whole block ---- */

  lemma {:induction false} ReplayGrows(env: Env, ctx: Ctx, idx: Index, txs: seq<Tx>, k: nat)
    requires Replay(env, ctx, idx, txs).Some? && k <= |txs|
    ensures Replay(env, ctx, idx, txs[..k]).Some?
    ensures Replay(env, ctx, idx, txs[..k]).value.nSigOps <= Replay(env, ctx, idx, txs).value.nSigOps
    decreases |txs|
  {
    var n := |txs| - 1;
    if k <= n {
      assert txs[..n][..k] == txs[..k];
      OpsGrow(env, ctx, idx, Replay(env, ctx, idx, txs[..n]).value, txs[n]);
      hide ConnectTx;
      ReplayGrows(env, ctx, idx, txs[..n], k);
    } else {
      assert txs[..k] == txs;
    }
  }

  lemma OpsGrow(env: Env, ctx: Ctx, idx: Index, a: Acc, tx: Tx)
    requires ConnectTx(env, ctx, idx, a, tx, MEMORY_POS, false).Some?
    ensures ConnectTx(env, ctx, idx, a, tx, MEMORY_POS, false).value.nSigOps >= a.nSigOps + tx.nSigOps
  {
    hide Spendable, Mark;
  }

  lemma {:induction false} OpsCounted(env: Env, ctx: Ctx, idx: Index, txs: seq<Tx>)
    requires Replay(env, ctx, idx, txs).Some?
    ensures SigOps(txs) <= Replay(env, ctx, idx, txs).value.nSigOps
  {
    if txs != [] {
      var n := |txs| - 1;
      OpsGrow(env, ctx, idx, Replay(env, ctx, idx, txs[..n]).value, txs[n]);
      hide ConnectTx;
      OpsCounted(env, ctx, idx, txs[..n]);
    }
  }

  lemma {:induction false} SizesCount(txs: seq<Tx>)
    requires forall i :: 0 <= i < |txs| ==> txs[i].nSize > 0
    ensures Sizes(txs) >= |txs|
  {
    if txs != [] { SizesCount(txs[..|txs| - 1]); }
  }

  lemma {:induction false} SigOpsFirst(cb: Tx, txs: seq<Tx>)
    ensures SigOps([cb] + txs) == cb.nSigOps + SigOps(txs)
  {
    var all := [cb] + txs;
    if txs == [] {
      assert all == [cb] && all[..0] == [];
    } else {
      assert all[..|all| - 1] == [cb] + txs[..|txs| - 1];
      SigOpsFirst(cb, txs[..|txs| - 1]);
    }
  }

  lemma Parts(env: Env, path: seq<BlockRec>, idx: Index, c: Candidate, b: BlockRec, i: nat)
    requires FilledIn(env, path, idx, c, b) && Built(env, path, idx, c) && PoolChecked(env.mempool) && i < |c.vtx|
    ensures i + 1 < |b.block.vtx| && b.block.vtx[i + 1] == c.vtx[i] && CheckTransaction(c.vtx[i]) && c.vtx[i].nSize > 0
    ensures var tx, pos := c.vtx[i], TxPos(b, i + 1);
      && tx.hash in env.mempool && env.mempool[tx.hash] == tx && !tx.IsCoinBase() && tx.hash != b.block.vtx[0].hash
      && pos != NullPos && pos != MEMORY_POS && pos in env.disk && env.disk[pos] == tx
      && !(tx.hash in idx && Live(idx[tx.hash]))
  {
    hide CheckTransaction, DistinctIds, Live, Replay;
    var vtx := b.block.vtx;
    assert vtx[1..][i] == vtx[i + 1];
    assert TxOffset(b, i + 1) > 1;
    assert c.vtx[i].hash in Ids(c.vtx);
    assert vtx[i + 1].hash in idx ==> !Live(idx[vtx[i + 1].hash]);
  }

  lemma CandidateChecks(env: Env, path: seq<BlockRec>, idx: Index, c: Candidate, b: BlockRec)
    requires FilledIn(env, path, idx, c, b) && Built(env, path, idx, c) && PoolChecked(env.mempool)
    ensures CheckBlock(env, b.block)
  {
    hide CheckTransaction, Replay, NoLiveOverwrite, Stored, DistinctIds, PoolChecked, SigOps;
    var vtx := b.block.vtx;
    forall i | 1 <= i < |vtx| ensures vtx[i] == c.vtx[i - 1] && CheckTransaction(vtx[i]) && !vtx[i].IsCoinBase() {
      Parts(env, path, idx, c, b, i - 1);
    }
    CandidateLimits(env, path, idx, c, b);
    CandidateIds(env, path, idx, c, b);
  }

  lemma CandidateLimits(env: Env, path: seq<BlockRec>, idx: Index, c: Candidate, b: BlockRec)
    requires FilledIn(env, path, idx, c, b) && Built(env, path, idx, c) && PoolChecked(env.mempool)
    ensures |b.block.vtx| <= MAX_BLOCK_SIZE && SigOps(b.block.vtx) <= MAX_BLOCK_SIGOPS
  {
    hide CheckTransaction, Replay, NoLiveOverwrite, Stored, DistinctIds, PoolChecked, SigOps, Sizes;
    forall i | 0 <= i < |c.vtx| ensures c.vtx[i].nSize > 0 { Parts(env, path, idx, c, b, i); }
    SizesCount(c.vtx);
    OpsCounted(env, Ctx(path, true, false), idx, c.vtx);
    assert b.block.vtx == [b.block.vtx[0]] + c.vtx;
    SigOpsFirst(b.block.vtx[0], c.vtx);
  }

  lemma CandidateIds(env: Env, path: seq<BlockRec>, idx: Index, c: Candidate, b: BlockRec)
    requires FilledIn(env, path, idx, c, b) && Built(env, path, idx, c) && PoolChecked(env.mempool)
    ensures DistinctIds(b.block.vtx)
  {
    var vtx := b.block.vtx;
    assert DistinctIds(c.vtx);
    hide CheckTransaction, Replay, NoLiveOverwrite, Stored, PoolChecked, SigOps, Built, FilledIn, Live;
    forall i | 0 <= i < |c.vtx| ensures vtx[i + 1] == c.vtx[i] && vtx[i + 1].hash != vtx[0].hash {
      Parts(env, path, idx, c, b, i);
    }
    forall i, j | 0 <= i < j < |vtx| ensures vtx[i].hash != vtx[j].hash {
      assert vtx[j] == vtx[(j - 1) + 1];
      if i > 0 { assert vtx[i] == vtx[(i - 1) + 1]; }
    }
  }

  lemma First(env: Env, path: seq<BlockRec>, idx: Index, c: Candidate, b: BlockRec)
    requires FilledIn(env, path, idx, c, b) && IndexOk(env, idx)
    ensures var cb := b.block.vtx[0]; var s := ConnectTxs(env, BlockCtx(path, b, false), idx, b, 1);
      && s == Some(Acc(idx[cb.hash := Fresh(TxPos(b, 0), |cb.vout|)], 0, cb.nSigOps))
      && Twins(env, b, cb.hash, idx, s.value.view)
  {
    hide CheckTransaction, Stored, TxAt, EntryOk, Ids;
    var cb := b.block.vtx[0];
    assert cb.hash in idx ==> !Live(idx[cb.hash]);
    assert ConnectTxs(env, BlockCtx(path, b, false), idx, b, 0) == Some(Acc(idx, 0, 0));
  }

  /** After the k-th transaction of the candidate, the miner's index and that of ConnectBlock are side by side, with
      the same fees, and the signature operations differ by those of the coinbase. */
  ghost predicate InStep(env: Env, path: seq<BlockRec>, idx: Index, c: Candidate, b: BlockRec, k: nat)
    requires k <= |c.vtx| && |b.block.vtx| == |c.vtx| + 1
  {
    var r := Replay(env, Ctx(path, true, false), idx, c.vtx[..k]);
    var s := ConnectTxs(env, BlockCtx(path, b, false), idx, b, k + 1);
    && r.Some? && s.Some? && Twins(env, b, b.block.vtx[0].hash, r.value.view, s.value.view)
    && s.value.nFees == r.value.nFees && s.value.nSigOps == b.block.vtx[0].nSigOps + r.value.nSigOps
  }

  lemma {:induction false} TwinTxs(env: Env, path: seq<BlockRec>, idx: Index, c: Candidate, b: BlockRec, k: nat)
    requires FilledIn(env, path, idx, c, b) && Built(env, path, idx, c) && PoolChecked(env.mempool) && IndexOk(env, idx)
    requires k <= |c.vtx|
    ensures |b.block.vtx| == |c.vtx| + 1 && InStep(env, path, idx, c, b, k)
  {
    hide Twins, ConnectTx, IndexOk, Live;
    if k == 0 {
      First(env, path, idx, c, b);
    } else {
      TwinTxs(env, path, idx, c, b, k - 1);
      hide InStep;
      TwinNext(env, path, idx, c, b, k);
    }
  }

  lemma TwinNext(env: Env, path: seq<BlockRec>, idx: Index, c: Candidate, b: BlockRec, k: nat)
    requires FilledIn(env, path, idx, c, b) && Built(env, path, idx, c) && PoolChecked(env.mempool)
    requires 0 < k <= |c.vtx| && |b.block.vtx| == |c.vtx| + 1 && InStep(env, path, idx, c, b, k - 1)
    ensures InStep(env, path, idx, c, b, k)
  {
    hide Twins, ConnectTx, Live, FilledIn, Built, TxPos, PoolChecked, CheckTransaction, Stored;
    var tx, cb := c.vtx[k - 1], b.block.vtx[0];
    Parts(env, path, idx, c, b, k - 1);
    TwinLimit(env, path, idx, c, b, k);
    var mctx := Ctx(path, true, false);
    assert c.vtx[..k][..k - 1] == c.vtx[..k - 1] && c.vtx[..k][k - 1] == tx;
    var a := Replay(env, mctx, idx, c.vtx[..k - 1]).value;
    var w := ConnectTxs(env, BlockCtx(path, b, false), idx, b, k).value;
    TwinConnect(env, path, b, cb, idx, a, w.view, tx, TxPos(b, k));
  }

  lemma TwinLimit(env: Env, path: seq<BlockRec>, idx: Index, c: Candidate, b: BlockRec, k: nat)
    requires FilledIn(env, path, idx, c, b) && Built(env, path, idx, c) && k <= |c.vtx|
    ensures var r := Replay(env, Ctx(path, true, false), idx, c.vtx[..k]);
      r.Some? && b.block.vtx[0].nSigOps + r.value.nSigOps <= MAX_BLOCK_SIGOPS
    ensures BlockCtx(path, b, false) == Ctx(path + [b], true, false)
  {
    hide ConnectTx, Replay, CheckTransaction, NoLiveOverwrite, Stored, DistinctIds;
    ReplayGrows(env, Ctx(path, true, false), idx, c.vtx, k);
  }

  /** A candidate, filled in, connects on the index it was built on. */
  lemma CandidateConnects(env: Env, path: seq<BlockRec>, skipSigs: bool, idx: Index, c: Candidate, b: BlockRec)
    requires FilledIn(env, path, idx, c, b) && Built(env, path, idx, c) && PoolChecked(env.mempool) && IndexOk(env, idx)
    ensures ChainModel.ConnectBlock(env, path, skipSigs, idx, b).Some?
  {
    CandidateChecks(env, path, idx, c, b);
    TwinTxs(env, path, idx, c, b, |c.vtx|);
    assert c.vtx[..|c.vtx|] == c.vtx;
    hide Twins, ConnectTxs, CheckBlock, NoLiveOverwrite, Stored, IndexOk;
    assert ChainModel.ConnectBlock(env, path, false, idx, b).Some?;
    SkipSigsKeepsResult(env, path, false, idx, b);
  }
}
