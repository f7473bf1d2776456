/** Building a candidate block from the memory pool. The order in which ready transactions are taken is left
    open: the original goes by a floating-point priority. */
module BlockMaker {
  import opened Basics
  import opened ChainModel
  import opened ChainLaws
  import opened ChainDb
  import ChainBlocks

  const MAX_BLOCK_SIZE_GEN: nat := MAX_BLOCK_SIZE / 2
  const FIRST_SIZE: nat := 1000
  const FIRST_SIGOPS: nat := 100

  /** A transaction that waits for the transactions it depends on. */
  datatype Orphan = Orphan(tx: Tx, setDependsOn: set<Hash>)

  /** What decides whether a transaction may go into the block besides its inputs: whether it is final, and
      the fee it must pay, which depends on the size of the block so far. */
  datatype Policy = Policy(isFinal: Tx -> bool, minFee: (Tx, nat) -> int)

  /** The value the coinbase pays out, and the other transactions. */
  datatype Candidate = Candidate(coinbaseValue: int, vtx: seq<Tx>)

  /* ---- dependencies ---- */

  /** The output can be read from the block files. */
  predicate OnDisk(env: Env, idx: Index, op: OutPoint) {
    op.hash in idx && idx[op.hash].pos in env.disk && op.n < |env.disk[idx[op.hash].pos].vout|
  }

  /** The transactions of inputs that cannot be read from the block files. */
  function Missing(env: Env, idx: Index, vin: seq<TxIn>): set<Hash> {
    set i | 0 <= i < |vin| && !OnDisk(env, idx, vin[i].prevout) :: vin[i].prevout.hash
  }

  predicate Eligible(policy: Policy, tx: Tx) { !tx.IsCoinBase() && policy.isFinal(tx) }

  function WaitingIds(vOrphan: seq<Orphan>): set<Hash> {
    set j | 0 <= j < |vOrphan| && vOrphan[j].setDependsOn != {} :: vOrphan[j].tx.hash
  }

  function OrphanIds(vOrphan: seq<Orphan>): set<Hash> { set j | 0 <= j < |vOrphan| :: vOrphan[j].tx.hash }

  predicate DistinctOrphans(v: seq<Orphan>) { forall i, j :: 0 <= i < j < |v| ==> v[i].tx.hash != v[j].tx.hash }

  /** The pool files every transaction under its identifier, and each has passed the checks on amounts. */
  predicate PoolOk(pool: map<Hash, Tx>) {
    forall h :: h in pool ==> pool[h].hash == h && ValueOutInRange(pool[h].vout)
  }

  /** The transactions are in the pool, and none is a coinbase. */
  predicate Pooled(pool: map<Hash, Tx>, txs: seq<Tx>) {
    forall i :: 0 <= i < |txs| ==> txs[i].hash in pool && pool[txs[i].hash] == txs[i] && !txs[i].IsCoinBase()
  }

  lemma PooledMore(pool: map<Hash, Tx>, txs: seq<Tx>, tx: Tx)
    requires Pooled(pool, txs) && tx.hash in pool && pool[tx.hash] == tx && !tx.IsCoinBase()
    ensures Pooled(pool, txs + [tx])
  {
  }

  /** Every transaction seen is ready, waiting or taken, and only one of these. */
  ghost predicate Sorted(pool: map<Hash, Tx>, queue: seq<Tx>, vOrphan: seq<Orphan>, seen: set<Hash>, taken: set<Hash>) {
    && Pooled(pool, queue)
    && (forall j :: 0 <= j < |vOrphan| ==>
          vOrphan[j].tx.hash in pool && pool[vOrphan[j].tx.hash] == vOrphan[j].tx && !vOrphan[j].tx.IsCoinBase())
    && DistinctIds(queue) && DistinctOrphans(vOrphan) && OrphanIds(vOrphan) <= seen
    && Ids(queue) !! taken && WaitingIds(vOrphan) !! taken && Ids(queue) !! WaitingIds(vOrphan)
    && seen == Ids(queue) + WaitingIds(vOrphan) + taken && seen <= pool.Keys
  }

  /** Every transaction that waits for one is listed under it. */
  predicate Listed(vOrphan: seq<Orphan>, mapDependers: map<Hash, seq<int>>) {
    && (forall h, k :: h in mapDependers && 0 <= k < |mapDependers[h]| ==> 0 <= mapDependers[h][k] < |vOrphan|)
    && forall j, h :: 0 <= j < |vOrphan| && h in vOrphan[j].setDependsOn ==> h in mapDependers && j in mapDependers[h]
  }

  /** A transaction waits for exactly those of its missing inputs that are not in the block. */
  ghost predicate WaitsRight(env: Env, idx: Index, vOrphan: seq<Orphan>, inBlock: set<Hash>) {
    forall j :: 0 <= j < |vOrphan| ==> vOrphan[j].setDependsOn == Missing(env, idx, vOrphan[j].tx.vin) - inBlock
  }

  /* ---- the block as it replays ---- */

  /** The transactions connected one after the other on top of an index, at the position that stands for the pool. */
  function Replay(env: Env, ctx: Ctx, idx: Index, txs: seq<Tx>): Option<Acc> {
    if txs == [] then Some(Acc(idx, 0, 0))
    else
      match Replay(env, ctx, idx, txs[..|txs| - 1])
      case None => None
      case Some(a) => ConnectTx(env, ctx, idx, a, txs[|txs| - 1], MEMORY_POS, false)
  }

  function Sizes(txs: seq<Tx>): nat { if txs == [] then 0 else Sizes(txs[..|txs| - 1]) + txs[|txs| - 1].nSize }

  /** A transaction is taken into the block exactly if it fits, can pay, and its inputs are there and unspent. */
  predicate Admitted(env: Env, ctx: Ctx, policy: Policy, a: Acc, nBlockSize: nat, tx: Tx) {
    && nBlockSize + tx.nSize < MAX_BLOCK_SIZE_GEN
    && AllFound(env, a.view, tx.vin)
    && ValueIn(env, a.view, tx.vin) - ValueOut(tx.vout) >= policy.minFee(tx, nBlockSize)
    && FIRST_SIGOPS + a.nSigOps + tx.nSigOps + P2SHSigOps(env, tx.vin, PrevOuts(env, a.view, tx.vin)) < MAX_BLOCK_SIGOPS
    && Spendable(env, ctx, a.view, tx)
  }

  /** That is: it fits, it connects on top of the block so far, the sigops stay below the limit, and the fees grow by at
      least the fee demanded. */
  lemma AdmittedIff(env: Env, ctx: Ctx, policy: Policy, idx: Index, a: Acc, nBlockSize: nat, tx: Tx)
    requires ctx.strict && !tx.IsCoinBase()
    ensures var r := ConnectTx(env, ctx, idx, a, tx, MEMORY_POS, false);
      Admitted(env, ctx, policy, a, nBlockSize, tx) <==>
        && nBlockSize + tx.nSize < MAX_BLOCK_SIZE_GEN
        && r.Some? && FIRST_SIGOPS + r.value.nSigOps < MAX_BLOCK_SIGOPS
        && r.value.nFees - a.nFees >= policy.minFee(tx, nBlockSize)
  {
    hide Spendable, Mark, ValueIn, ValueOut, P2SHSigOps;
  }

  /** The k-th transaction of the list raises the replayed fees by at least the fee demanded at its place. */
  predicate PaysAt(env: Env, ctx: Ctx, policy: Policy, idx: Index, txs: seq<Tx>, k: nat) {
    k < |txs| && match Replay(env, ctx, idx, txs[..k])
      case None => false
      case Some(a) =>
        match Replay(env, ctx, idx, txs[..k + 1])
        case None => false
        case Some(c) => c.nFees - a.nFees >= policy.minFee(txs[k], FIRST_SIZE + Sizes(txs[..k]))
  }

  predicate AllPay(env: Env, ctx: Ctx, policy: Policy, idx: Index, txs: seq<Tx>) {
    forall k :: 0 <= k < |txs| ==> PaysAt(env, ctx, policy, idx, txs, k)
  }

  lemma AllPayMore(env: Env, ctx: Ctx, policy: Policy, idx: Index, txs: seq<Tx>, tx: Tx, a: Acc)
    requires AllPay(env, ctx, policy, idx, txs) && Replay(env, ctx, idx, txs) == Some(a) && ctx.strict
    requires !tx.IsCoinBase() && Admitted(env, ctx, policy, a, FIRST_SIZE + Sizes(txs), tx)
    ensures AllPay(env, ctx, policy, idx, txs + [tx])
  {
    hide PaysAt, Replay, Admitted;
    forall k | 0 <= k < |txs| ensures PaysAt(env, ctx, policy, idx, txs + [tx], k) {
      PaysStill(env, ctx, policy, idx, txs, tx, k);
    }
    LastPays(env, ctx, policy, idx, txs, tx, a);
  }

  lemma PaysStill(env: Env, ctx: Ctx, policy: Policy, idx: Index, txs: seq<Tx>, tx: Tx, k: nat)
    requires PaysAt(env, ctx, policy, idx, txs, k)
    ensures PaysAt(env, ctx, policy, idx, txs + [tx], k)
  {
    hide Replay, Sizes;
    var more := txs + [tx];
    assert more[..k] == txs[..k] && more[..k + 1] == txs[..k + 1];
  }

  lemma LastPays(env: Env, ctx: Ctx, policy: Policy, idx: Index, txs: seq<Tx>, tx: Tx, a: Acc)
    requires Replay(env, ctx, idx, txs) == Some(a) && ctx.strict
    requires !tx.IsCoinBase() && Admitted(env, ctx, policy, a, FIRST_SIZE + Sizes(txs), tx)
    ensures PaysAt(env, ctx, policy, idx, txs + [tx], |txs|)
  {
    AdmittedIff(env, ctx, policy, idx, a, FIRST_SIZE + Sizes(txs), tx);
    ReplayMore(env, ctx, idx, txs, tx, a);
    hide Replay, Admitted, ConnectTx, Sizes, DistinctIds, Ids;
    var more := txs + [tx];
    assert more[..|txs|] == txs && more[..|txs| + 1] == more;
  }

  /** The transaction was refused when the block had its first k transactions. */
  predicate RefusedAt(env: Env, ctx: Ctx, policy: Policy, idx: Index, vtx: seq<Tx>, tx: Tx, k: nat) {
    k <= |vtx| && match Replay(env, ctx, idx, vtx[..k])
      case None => false
      case Some(a) => !Admitted(env, ctx, policy, a, FIRST_SIZE + Sizes(vtx[..k]), tx)
  }

  ghost predicate Refused(env: Env, ctx: Ctx, policy: Policy, idx: Index, vtx: seq<Tx>, tx: Tx) {
    exists k :: RefusedAt(env, ctx, policy, idx, vtx, tx, k)
  }

  /** Whatever was taken is in the block or was refused when its turn came. */
  ghost predicate Tried(env: Env, ctx: Ctx, policy: Policy, idx: Index, vtx: seq<Tx>, taken: set<Hash>) {
    forall h :: h in taken && h !in Ids(vtx) ==> h in env.mempool && Refused(env, ctx, policy, idx, vtx, env.mempool[h])
  }

  lemma TriedNone(env: Env, ctx: Ctx, policy: Policy, idx: Index, vtx: seq<Tx>)
    ensures Tried(env, ctx, policy, idx, vtx, {})
  {
  }

  lemma TriedAccepted(env: Env, ctx: Ctx, policy: Policy, idx: Index, vtx: seq<Tx>, taken: set<Hash>, tx: Tx)
    requires Tried(env, ctx, policy, idx, vtx, taken)
    ensures Tried(env, ctx, policy, idx, vtx + [tx], taken + {tx.hash})
  {
    hide Replay, Ids, Admitted;
    IdsMore(vtx, tx);
    forall h | h in taken && h !in Ids(vtx) ensures Refused(env, ctx, policy, idx, vtx + [tx], env.mempool[h]) {
      var k: nat :| RefusedAt(env, ctx, policy, idx, vtx, env.mempool[h], k);
      assert (vtx + [tx])[..k] == vtx[..k];
      assert RefusedAt(env, ctx, policy, idx, vtx + [tx], env.mempool[h], k);
    }
  }

  lemma TriedRefused(env: Env, ctx: Ctx, policy: Policy, idx: Index, vtx: seq<Tx>, taken: set<Hash>, tx: Tx, a: Acc)
    requires Tried(env, ctx, policy, idx, vtx, taken) && tx.hash in env.mempool && env.mempool[tx.hash] == tx
    requires Replay(env, ctx, idx, vtx) == Some(a) && !Admitted(env, ctx, policy, a, FIRST_SIZE + Sizes(vtx), tx)
    ensures Tried(env, ctx, policy, idx, vtx, taken + {tx.hash})
  {
    hide Replay, Ids, Admitted;
    assert vtx[..|vtx|] == vtx;
    assert RefusedAt(env, ctx, policy, idx, vtx, tx, |vtx|);
  }

  lemma AdmittedConnects(env: Env, ctx: Ctx, policy: Policy, idx: Index, a: Acc, nBlockSize: nat, tx: Tx)
    requires Admitted(env, ctx, policy, a, nBlockSize, tx) && ctx.strict && !tx.IsCoinBase()
    ensures ConnectTx(env, ctx, idx, a, tx, MEMORY_POS, false) ==
      Some(Acc(Mark(a.view, OpsOf(tx.vin), MEMORY_POS)[tx.hash := Fresh(MEMORY_POS, |tx.vout|)],
               a.nFees + ValueIn(env, a.view, tx.vin) - ValueOut(tx.vout),
               a.nSigOps + tx.nSigOps + P2SHSigOps(env, tx.vin, PrevOuts(env, a.view, tx.vin))))
  {
    hide Spendable, Mark;
  }

  /** In a list that replays, every input is an output of the index or of an earlier transaction of the list. */
  lemma {:induction false} ParentsFirst(env: Env, ctx: Ctx, idx: Index, txs: seq<Tx>, k: nat, i: nat)
    requires Replay(env, ctx, idx, txs).Some? && k < |txs| && !txs[k].IsCoinBase() && i < |txs[k].vin|
    ensures txs[k].vin[i].prevout.hash in idx || txs[k].vin[i].prevout.hash in Ids(txs[..k])
    decreases |txs|
  {
    var n := |txs| - 1;
    hide Spendable, Mark, ConnectTx;
    if k < n {
      assert txs[..n][..k] == txs[..k];
      ParentsFirst(env, ctx, idx, txs[..n], k, i);
    } else {
      var a := Replay(env, ctx, idx, txs[..n]).value;
      ConnectNeedsInputs(env, ctx, idx, a, txs[n]);
      assert Found(env, a.view, txs[n].vin[i].prevout);
      ViewKeys(env, ctx, idx, txs[..n]);
    }
  }

  lemma ConnectNeedsInputs(env: Env, ctx: Ctx, idx: Index, a: Acc, tx: Tx)
    requires ConnectTx(env, ctx, idx, a, tx, MEMORY_POS, false).Some? && !tx.IsCoinBase()
    ensures AllFound(env, a.view, tx.vin) && Spendable(env, ctx, a.view, tx)
  {
    hide Mark;
  }

  lemma {:induction false} ViewKeys(env: Env, ctx: Ctx, idx: Index, txs: seq<Tx>)
    requires Replay(env, ctx, idx, txs).Some?
    ensures Replay(env, ctx, idx, txs).value.view.Keys == idx.Keys + Ids(txs)
  {
    if txs != [] {
      var n := |txs| - 1;
      ViewKeys(env, ctx, idx, txs[..n]);
      ConnectKeys(env, ctx, idx, Replay(env, ctx, idx, txs[..n]).value, txs[n]);
      IdsSnoc(txs);
    }
  }

  lemma ConnectKeys(env: Env, ctx: Ctx, idx: Index, a: Acc, tx: Tx)
    requires ConnectTx(env, ctx, idx, a, tx, MEMORY_POS, false).Some?
    ensures ConnectTx(env, ctx, idx, a, tx, MEMORY_POS, false).value.view.Keys == a.view.Keys + {tx.hash}
  {
    hide Spendable;
    var m := Mark(a.view, OpsOf(tx.vin), MEMORY_POS);
    assert m.Keys == a.view.Keys;
  }

  lemma IdsSnoc(txs: seq<Tx>)
    requires txs != []
    ensures Ids(txs) == Ids(txs[..|txs| - 1]) + {txs[|txs| - 1].hash}
  {
    var n := |txs| - 1;
    forall h ensures h in Ids(txs) <==> h in Ids(txs[..n]) + {txs[n].hash} {
      if h in Ids(txs) { var i :| 0 <= i < |txs| && txs[i].hash == h; assert i < n ==> txs[..n][i].hash == h; }
      if h in Ids(txs[..n]) { var i :| 0 <= i < n && txs[..n][i].hash == h; assert txs[i].hash == h; }
    }
  }

  /** The output is there and marked as spent. */
  predicate IsSpent(idx: Index, op: OutPoint) {
    op.hash in idx && op.n < |idx[op.hash].vSpent| && idx[op.hash].vSpent[op.n] != NullPos
  }

  lemma ConnectSpends(env: Env, ctx: Ctx, idx: Index, a: Acc, tx: Tx, op: OutPoint)
    requires ConnectTx(env, ctx, idx, a, tx, MEMORY_POS, false).Some? && !tx.IsCoinBase() && op.hash != tx.hash
    requires IsSpent(a.view, op) || op in OpsOf(tx.vin)
    ensures IsSpent(ConnectTx(env, ctx, idx, a, tx, MEMORY_POS, false).value.view, op)
  {
    ConnectNeedsInputs(env, ctx, idx, a, tx);
    if op in OpsOf(tx.vin) {
      var i :| 0 <= i < |tx.vin| && tx.vin[i].prevout == op;
      assert Found(env, a.view, tx.vin[i].prevout);
    }
    hide Spendable, AllFound;
    var m := Mark(a.view, OpsOf(tx.vin), MEMORY_POS);
    assert m[op.hash] == MarkEntry(op.hash, a.view[op.hash], OpsOf(tx.vin), MEMORY_POS);
  }

  /** A record whose outputs are all spent stays so until its identifier is used again. */
  lemma {:induction false} StaysSpent(env: Env, ctx: Ctx, idx: Index, txs: seq<Tx>, h: Hash)
    requires Replay(env, ctx, idx, txs).Some? && h !in Ids(txs) && (h in idx ==> !Live(idx[h]))
    ensures var view := Replay(env, ctx, idx, txs).value.view; h in view ==> !Live(view[h])
    decreases |txs|
  {
    hide ConnectTx, Live, Ids;
    if txs != [] {
      var n := |txs| - 1;
      IdsSnoc(txs);
      StaysSpent(env, ctx, idx, txs[..n], h);
      StaysSpentOne(env, ctx, idx, Replay(env, ctx, idx, txs[..n]).value, txs[n], h);
    }
  }

  lemma StaysSpentOne(env: Env, ctx: Ctx, idx: Index, a: Acc, tx: Tx, h: Hash)
    requires ConnectTx(env, ctx, idx, a, tx, MEMORY_POS, false).Some? && h != tx.hash
    requires h in a.view ==> !Live(a.view[h])
    ensures var view := ConnectTx(env, ctx, idx, a, tx, MEMORY_POS, false).value.view; h in view ==> !Live(view[h])
  {
    ConnectTxAvailable(env, ctx, idx, a, tx, MEMORY_POS, false);
    hide ConnectTx;
    if h in a.view {
      var e := MarkEntry(h, a.view[h], OpsOf(tx.vin), MEMORY_POS);
      forall n | 0 <= n < |e.vSpent| ensures e.vSpent[n] != NullPos { assert a.view[h].vSpent[n] != NullPos; }
    }
  }

  /** So no transaction up to and including the one that uses the identifier again spends an output of it. */
  lemma NotOfLater(env: Env, ctx: Ctx, idx: Index, txs: seq<Tx>, i: nat, n: nat, op: OutPoint)
    requires Replay(env, ctx, idx, txs).Some? && DistinctIds(txs) && i <= n < |txs| && op in OpsOf(txs[i].vin)
    requires !txs[i].IsCoinBase() && NoLiveOverwrite(idx, txs)
    ensures op.hash != txs[n].hash
  {
    hide Replay, ConnectTx;
    PrefixReplays(env, ctx, idx, txs, i);
    var a := Replay(env, ctx, idx, txs[..i]).value;
    ConnectTxAvailable(env, ctx, idx, a, txs[i], MEMORY_POS, false);
    var k :| 0 <= k < |txs[i].vin| && txs[i].vin[k].prevout == op;
    assert IsUnspent(a.view, op);
    assert Live(a.view[op.hash]);
    hide Live;
    if op.hash == txs[n].hash {
      StaysSpent(env, ctx, idx, txs[..i], op.hash);
    }
  }

  /** After the list has replayed, everything its transactions spend is marked as spent. */
  lemma {:induction false} SpentInTheEnd(env: Env, ctx: Ctx, idx: Index, txs: seq<Tx>, i: nat, op: OutPoint)
    requires Replay(env, ctx, idx, txs).Some? && DistinctIds(txs) && i < |txs| && op in OpsOf(txs[i].vin)
    requires NoLiveOverwrite(idx, txs) && forall k :: 0 <= k < |txs| ==> !txs[k].IsCoinBase()
    ensures IsSpent(Replay(env, ctx, idx, txs).value.view, op)
    decreases |txs|
  {
    hide ConnectTx, IsSpent, OpsOf, Live;
    var n := |txs| - 1;
    NotOfLater(env, ctx, idx, txs, i, n, op);
    if i < n { SpentInTheEnd(env, ctx, idx, txs[..n], i, op); }
    ConnectSpends(env, ctx, idx, Replay(env, ctx, idx, txs[..n]).value, txs[n], op);
  }

  /** No output is spent by two transactions of a list that replays, provided none of them takes the identifier of a
      record of the index with an unspent output. */
  lemma NoOutputTwice(env: Env, ctx: Ctx, idx: Index, txs: seq<Tx>, i: nat, j: nat, op: OutPoint)
    requires Replay(env, ctx, idx, txs).Some? && DistinctIds(txs) && i < j < |txs|
    requires NoLiveOverwrite(idx, txs) && forall k :: 0 <= k < |txs| ==> !txs[k].IsCoinBase()
    ensures op !in OpsOf(txs[i].vin) || op !in OpsOf(txs[j].vin)
  {
    hide Replay, ConnectTx, Live;
    PrefixReplays(env, ctx, idx, txs, j);
    var a := Replay(env, ctx, idx, txs[..j]).value;
    ConnectNeedsInputs(env, ctx, idx, a, txs[j]);
    if op in OpsOf(txs[i].vin) {
      SpentInTheEnd(env, ctx, idx, txs[..j], i, op);
      forall k | 0 <= k < |txs[j].vin|
        ensures txs[j].vin[k].prevout != op
      {
        assert InputOk(env, ctx, a.view, txs[j], k);
      }
    }
  }

  lemma {:induction false} PrefixReplays(env: Env, ctx: Ctx, idx: Index, txs: seq<Tx>, j: nat)
    requires Replay(env, ctx, idx, txs).Some? && j < |txs|
    ensures Replay(env, ctx, idx, txs[..j]).Some?
    ensures ConnectTx(env, ctx, idx, Replay(env, ctx, idx, txs[..j]).value, txs[j], MEMORY_POS, false).Some?
    decreases |txs|
  {
    hide ConnectTx;
    var n := |txs| - 1;
    if j < n {
      assert txs[..n][..j] == txs[..j];
      PrefixReplays(env, ctx, idx, txs[..n], j);
    }
  }

  lemma HasHash(s: set<Hash>)
    ensures s != {} ==> exists h :: h in s
  {
    if forall h :: h !in s { assert s == {}; }
  }

  /** A candidate on top of a path: pool transactions, none twice, that fit, replay on the index and leave room for
      the sigops of a coinbase, which pays subsidy and fees. */
  ghost predicate Built(env: Env, path: seq<BlockRec>, idx: Index, c: Candidate) {
    && DistinctIds(c.vtx) && FIRST_SIZE + Sizes(c.vtx) < MAX_BLOCK_SIZE
    && Pooled(env.mempool, c.vtx)
    && match Replay(env, Ctx(path, true, false), idx, c.vtx)
       case None => false
       case Some(r) =>
         FIRST_SIGOPS + r.nSigOps <= MAX_BLOCK_SIGOPS && c.coinbaseValue == env.subsidy(|path|) + r.nFees
  }

  class Maker {
    const env: Env
    const policy: Policy
    const db: TxDB
    const pindexPrev: BlockIndex

    var vOrphan: seq<Orphan>
    var mapDependers: map<Hash, seq<int>>
    var queue: seq<Tx>
    ghost var seen: set<Hash>
    ghost var taken: set<Hash>

    var mapTestPool: Index
    var vtx: seq<Tx>
    var nBlockSize: nat
    var nBlockSigOps: nat
    var nFees: int

    constructor (env: Env, policy: Policy, db: TxDB, pindexPrev: BlockIndex)
      requires pindexPrev.Linked() && PoolOk(env.mempool)
      ensures this.env == env && this.policy == policy && this.db == db && this.pindexPrev == pindexPrev
      ensures Valid() && seen == {} && taken == {} && vtx == []
    {
      this.env, this.policy, this.db, this.pindexPrev := env, policy, db, pindexPrev;
      vOrphan, mapDependers, queue, seen, taken := [], map[], [], {}, {};
      mapTestPool, vtx, nBlockSize, nBlockSigOps, nFees := map[], [], FIRST_SIZE, FIRST_SIGOPS, 0;
      new;
      assert db.Current().txs + map[] == db.Current().txs;
    }

    ghost function Base(): Index
      reads this, db
    {
      db.Current().txs
    }

    /** Signatures are always verified, under the strict rules, and maturity is counted from the last block. */
    ghost function Context(): (c: Ctx)
      ensures c.strict
    {
      if pindexPrev.Linked() then Ctx(Recs(pindexPrev.Line()), true, false) else Ctx([], true, false)
    }

    /** The running totals are those of the block's transactions replayed. */
    ghost function Running(): Option<Acc>
      reads this, db
    {
      if nBlockSigOps < FIRST_SIGOPS then None else Some(Acc(Base() + mapTestPool, nFees, nBlockSigOps - FIRST_SIGOPS))
    }

    ghost predicate BlockValid()
      reads this, db
    {
      && pindexPrev.Linked() && PoolOk(env.mempool)
      && Running().Some? && Replay(env, Context(), Base(), vtx) == Running()
      && nBlockSize == FIRST_SIZE + Sizes(vtx)
      && (vtx != [] ==> nBlockSize < MAX_BLOCK_SIZE_GEN && nBlockSigOps < MAX_BLOCK_SIGOPS)
      && DistinctIds(vtx) && Ids(vtx) <= taken && Pooled(env.mempool, vtx)
      && AllPay(env, Context(), policy, Base(), vtx)
    }

    ghost predicate Valid()
      reads this, db
    {
      && BlockValid() && Sorted(env.mempool, queue, vOrphan, seen, taken)
      && Listed(vOrphan, mapDependers) && WaitsRight(env, Base(), vOrphan, Ids(vtx))
    }

    /** Looks for the inputs of a transaction. On the first one that is missing the transaction is put with the
        orphans, and it is listed under each that is. */
    method FindMissing(tx: Tx) returns (porphan: int, ghost deps: set<Hash>)
      requires Listed(vOrphan, mapDependers)
      modifies this`vOrphan, this`mapDependers
      ensures deps == Missing(env, Base(), tx.vin) && (porphan < 0 <==> deps == {})
      ensures vOrphan == old(vOrphan) + (if porphan < 0 then [] else [Orphan(tx, deps)])
      ensures Listed(vOrphan, mapDependers)
    {
      hide OnDisk, Missing, Listed;
      porphan, deps := -1, {};
      var i := 0;
      MissingNone(env, Base(), tx.vin);
      while i < |tx.vin|
        invariant 0 <= i <= |tx.vin| && deps == Missing(env, Base(), tx.vin[..i])
        invariant vOrphan == old(vOrphan) + (if porphan < 0 then [] else [Orphan(tx, deps)])
        invariant (porphan < 0 <==> deps == {}) && (porphan >= 0 ==> porphan == old(|vOrphan|))
        invariant Listed(vOrphan, mapDependers)
      {
        var op := tx.vin[i].prevout;
        MissingSnoc(env, Base(), tx.vin, i);
        var found := ReadFromDisk(op);
        if !found {
          if porphan < 0 {
            porphan := |vOrphan|;
            ListedNew(vOrphan, mapDependers, tx);
            vOrphan := vOrphan + [Orphan(tx, {})];
          }
          ListedMore(vOrphan, mapDependers, porphan, op.hash);
          mapDependers :=
            mapDependers[op.hash := (if op.hash in mapDependers then mapDependers[op.hash] else []) + [porphan]];
          vOrphan := vOrphan[porphan := vOrphan[porphan].(setDependsOn := vOrphan[porphan].setDependsOn + {op.hash})];
          deps := deps + {op.hash};
        }
        i := i + 1;
      }
      assert tx.vin[..i] == tx.vin;
    }

    /** Looks at one transaction of the pool: it is ready if all its inputs are on disk, and else it waits. */
    method AddCandidate(tx: Tx)
      requires Valid() && vtx == [] && tx.hash in env.mempool && env.mempool[tx.hash] == tx && !tx.IsCoinBase()
      requires tx.hash !in seen
      modifies this`vOrphan, this`mapDependers, this`queue, this`seen
      ensures Valid() && seen == old(seen) + {tx.hash}
    {
      hide Sorted, Listed, OnDisk, Missing, Replay, PoolOk, DistinctIds;
      var porphan, deps := FindMissing(tx);
      if porphan < 0 {
        assert old(vOrphan) + [] == old(vOrphan);
        SortedReady(env.mempool, queue, vOrphan, seen, taken, tx);
        queue := queue + [tx];
      } else {
        SortedWaiting(env.mempool, queue, old(vOrphan), seen, taken, tx, deps);
      }
      seen := seen + {tx.hash};
      assert Ids(vtx) == {};
    }

    /** Tries to put a transaction into the block. */
    method TryInclude(tx: Tx) returns (ok: bool)
      requires BlockValid() && tx.hash in env.mempool && env.mempool[tx.hash] == tx && !tx.IsCoinBase()
      requires tx.hash in taken && tx.hash !in Ids(vtx)
      modifies this`mapTestPool, this`vtx, this`nBlockSize, this`nBlockSigOps, this`nFees
      ensures BlockValid() && vtx == if ok then old(vtx) + [tx] else old(vtx)
      ensures ok == Admitted(env, Context(), policy, old(Running()).value, old(nBlockSize), tx)
    {
      hide Replay, Spendable, Mark, DistinctIds, AllFound, Ids, Sizes, Pooled, ValueIn, ValueOut, P2SHSigOps;
      ghost var a := Running().value;
      if nBlockSize + tx.nSize >= MAX_BLOCK_SIZE_GEN { return false; }
      var nTxSigOps := tx.nSigOps;
      if nBlockSigOps + nTxSigOps >= MAX_BLOCK_SIGOPS { return false; }
      var nMinFee := policy.minFee(tx, nBlockSize);
      LookupQueued(env, Base(), mapTestPool, tx.vin);
      var mapInputs, fInvalid;
      ok, mapInputs, fInvalid := FetchInputs(env, db, mapTestPool, false, true, tx);
      if !ok { return; }
      var nValueIn := GetValueIn(env, a.view, tx, mapInputs);
      var nValueOut := GetValueOut(tx);
      var nTxFees := nValueIn - nValueOut.value;
      if nTxFees < nMinFee { return false; }
      var nP2SH := ChainBlocks.GetP2SHSigOpCount(env, a.view, tx, mapInputs);
      nTxSigOps := nTxSigOps + nP2SH;
      if nBlockSigOps + nTxSigOps >= MAX_BLOCK_SIGOPS { return false; }
      var mapTestPoolTmp;
      ok, mapTestPoolTmp := ConnectInputs(env, Base(), Context(), false, true, tx, MEMORY_POS, mapInputs, mapTestPool,
          pindexPrev);
      if !ok { return; }
      assert Admitted(env, Context(), policy, a, nBlockSize, tx);
      Accept(tx, mapTestPoolTmp, nTxSigOps, nTxFees);
    }

    method Accept(tx: Tx, mapTestPoolTmp: Index, nTxSigOps: nat, nTxFees: int)
      requires BlockValid() && tx.hash in env.mempool && env.mempool[tx.hash] == tx && !tx.IsCoinBase()
      requires tx.hash in taken && tx.hash !in Ids(vtx)
      requires var a := Running().value;
        && Admitted(env, Context(), policy, a, nBlockSize, tx)
        && Base() + mapTestPoolTmp == Mark(a.view, OpsOf(tx.vin), MEMORY_POS)
        && nTxSigOps == tx.nSigOps + P2SHSigOps(env, tx.vin, PrevOuts(env, a.view, tx.vin))
        && nTxFees == ValueIn(env, a.view, tx.vin) - ValueOut(tx.vout)
      modifies this`mapTestPool, this`vtx, this`nBlockSize, this`nBlockSigOps, this`nFees
      ensures BlockValid() && vtx == old(vtx) + [tx]
    {
      hide Replay, Spendable, Mark, DistinctIds, Ids, Context, Sizes, Pooled, PoolOk, ValueIn, ValueOut, P2SHSigOps;
      hide AllPay;
      ghost var a := Running().value;
      AllPayMore(env, Context(), policy, Base(), vtx, tx, a);
      PooledMore(env.mempool, vtx, tx);
      AdmittedConnects(env, Context(), policy, Base(), a, nBlockSize, tx);
      ReplayMore(env, Context(), Base(), vtx, tx, a);
      OverlayMore(Base(), mapTestPoolTmp, tx.hash, Fresh(MEMORY_POS, |tx.vout|));
      mapTestPool := mapTestPoolTmp[tx.hash := Fresh(MEMORY_POS, |tx.vout|)];
      vtx := vtx + [tx];
      nBlockSize := nBlockSize + tx.nSize;
      nBlockSigOps := nBlockSigOps + nTxSigOps;
      nFees := nFees + nTxFees;
    }

    /** Tells the transactions that wait for this one; each that waits for nothing else becomes ready. */
    method Release(hash: Hash, ghost inBlock: set<Hash>)
      requires Sorted(env.mempool, queue, vOrphan, seen, taken) && Listed(vOrphan, mapDependers)
      requires WaitsRight(env, Base(), vOrphan, inBlock)
      modifies this`vOrphan, this`queue
      ensures old(BlockValid()) ==> BlockValid()
      ensures Sorted(env.mempool, queue, vOrphan, seen, taken) && Listed(vOrphan, mapDependers)
      ensures WaitsRight(env, Base(), vOrphan, inBlock + {hash})
    {
      hide Sorted, Listed, Missing, WaitsRight, Replay, PoolOk, DistinctIds, Ids;
      ghost var v := vOrphan;
      var list := if hash in mapDependers then mapDependers[hash] else [];
      var k := 0;
      assert ReleasedSome(v, vOrphan, hash, list[..0]);
      while k < |list|
        invariant 0 <= k <= |list| && ReleasedSome(v, vOrphan, hash, list[..k])
        invariant Sorted(env.mempool, queue, vOrphan, seen, taken) && Listed(v, mapDependers)
      {
        ListedPlace(v, mapDependers, hash, k);
        var porphan := list[k];
        ReleasedOne(v, vOrphan, hash, list, k);
        if vOrphan[porphan].setDependsOn != {} {
          SortedRelease(env.mempool, queue, vOrphan, seen, taken, porphan, hash);
          vOrphan := vOrphan[porphan := vOrphan[porphan].(setDependsOn := vOrphan[porphan].setDependsOn - {hash})];
          if vOrphan[porphan].setDependsOn == {} {
            queue := queue + [vOrphan[porphan].tx];
          }
        }
        k := k + 1;
      }
      assert list[..k] == list;
      ReleasedAll(env, Base(), v, vOrphan, hash, mapDependers, inBlock);
    }

    /** Takes a ready transaction off the queue, for good. */
    method TakeOff() returns (tx: Tx)
      requires Valid() && queue != []
      modifies this`queue, this`taken
      ensures Valid() && taken == old(taken) + {tx.hash} && tx.hash !in old(taken) && tx.hash !in Ids(vtx)
      ensures tx.hash in env.mempool && env.mempool[tx.hash] == tx && !tx.IsCoinBase()
    {
      hide Sorted, Listed, WaitsRight, Replay, PoolOk, DistinctIds, Ids;
      var p :| 0 <= p < |queue|;
      tx := queue[p];
      SortedTake(env.mempool, queue, vOrphan, seen, taken, p);
      TakenNew(env.mempool, queue, vOrphan, seen, taken, p, vtx);
      queue := queue[..p] + queue[p + 1..];
      taken := taken + {tx.hash};
    }

    /** Everything taken so far is in the block or was refused. */
    ghost predicate AllTried()
      reads this, db
    {
      Tried(env, Context(), policy, Base(), vtx, taken)
    }

    /** Takes a ready transaction off the queue and tries to put it into the block. */
    method TakeOne()
      requires Valid() && AllTried() && queue != []
      modifies this
      ensures Valid() && AllTried() && seen == old(seen) && old(taken) < taken
    {
      hide Sorted, Listed, WaitsRight, Ids, Admitted, Replay, Tried, PoolOk, DistinctIds, Sizes;
      ghost var done := taken;
      var tx := TakeOff();
      ghost var inBlock, txs, a := Ids(vtx), vtx, Running().value;
      assert Replay(env, Context(), Base(), txs) == Some(a) && nBlockSize == FIRST_SIZE + Sizes(txs);
      hide BlockValid;
      var ok := TryInclude(tx);
      if ok {
        IdsMore(txs, tx);
        TriedAccepted(env, Context(), policy, Base(), txs, done, tx);
        Release(tx.hash, inBlock);
      } else {
        TriedRefused(env, Context(), policy, Base(), txs, done, tx, a);
      }
    }

    /** Looks at the whole pool. */
    method Collect()
      requires Valid() && vtx == [] && seen == {} && taken == {}
      modifies this`vOrphan, this`mapDependers, this`queue, this`seen
      ensures Valid() && forall h :: h in seen <==> h in env.mempool && Eligible(policy, env.mempool[h])
    {
      hide Sorted, Listed, WaitsRight, Replay, PoolOk, DistinctIds, Ids, Missing;
      var todo := env.mempool.Keys;
      while todo != {}
        invariant Valid() && todo <= env.mempool.Keys
        invariant forall h :: h in seen <==> h in env.mempool && h !in todo && Eligible(policy, env.mempool[h])
        decreases |todo|
      {
        HasHash(todo);
        var h :| h in todo;
        var tx := env.mempool[h];
        FiledRight(env.mempool, h);
        if !tx.IsCoinBase() && policy.isFinal(tx) { AddCandidate(tx); }
        todo := todo - {h};
      }
    }

    /** Takes ready transactions until there is none. */
    method Fill()
      requires Valid() && AllTried()
      modifies this
      ensures Valid() && AllTried() && queue == [] && seen == old(seen)
    {
      hide Sorted, Listed, WaitsRight, Replay, PoolOk, DistinctIds, Ids, Missing, Tried;
      TakenKnown(env.mempool, queue, vOrphan, seen, taken);
      while queue != []
        invariant Valid() && AllTried() && seen == old(seen) && taken <= env.mempool.Keys
        decreases |env.mempool.Keys - taken|
      {
        ghost var was := taken;
        TakeOne();
        TakenKnown(env.mempool, queue, vOrphan, seen, taken);
        Fewer(env.mempool.Keys, was, taken);
      }
    }

    /** The block as it stands is a candidate. */
    lemma BuiltNow()
      requires BlockValid()
      ensures Built(env, Recs(pindexPrev.Line()), Base(),
        Candidate(env.subsidy(pindexPrev.rec.nHeight + 1) + nFees, vtx))
    {
      hide ConnectTx, PoolOk, DistinctIds;
      assert |Recs(pindexPrev.Line())| == pindexPrev.rec.nHeight + 1;
      assert Context() == Ctx(Recs(pindexPrev.Line()), true, false);
      if vtx == [] { assert Sizes(vtx) == 0; }
    }

    method ReadFromDisk(op: OutPoint) returns (ok: bool)
      ensures ok == OnDisk(env, Base(), op)
    {
      var e := db.ReadTxIndex(op.hash);
      ok := e.Some? && e.value.pos in env.disk && op.n < |env.disk[e.value.pos].vout|;
    }
  }

  lemma MissingSnoc(env: Env, idx: Index, vin: seq<TxIn>, i: nat)
    requires i < |vin|
    ensures Missing(env, idx, vin[..i + 1]) ==
      Missing(env, idx, vin[..i]) + if OnDisk(env, idx, vin[i].prevout) then {} else {vin[i].prevout.hash}
  {
    var a, b := vin[..i + 1], vin[..i];
    forall h
      ensures h in Missing(env, idx, a) <==>
        h in Missing(env, idx, b) || (!OnDisk(env, idx, vin[i].prevout) && h == vin[i].prevout.hash)
    {
      if h in Missing(env, idx, a) {
        var k :| 0 <= k < |a| && !OnDisk(env, idx, a[k].prevout) && a[k].prevout.hash == h;
        assert k < i ==> b[k] == a[k];
      }
      if h in Missing(env, idx, b) {
        var k :| 0 <= k < |b| && !OnDisk(env, idx, b[k].prevout) && b[k].prevout.hash == h;
        assert a[k] == b[k];
      }
      assert a[i] == vin[i];
    }
  }

  lemma MissingNone(env: Env, idx: Index, vin: seq<TxIn>)
    ensures Missing(env, idx, vin[..0]) == {}
  {
  }

  lemma ListedNew(v: seq<Orphan>, m: map<Hash, seq<int>>, tx: Tx)
    requires Listed(v, m)
    ensures Listed(v + [Orphan(tx, {})], m)
  {
  }

  lemma ListedMore(v: seq<Orphan>, m: map<Hash, seq<int>>, j: nat, h: Hash)
    requires Listed(v, m) && j < |v|
    ensures Listed(v[j := v[j].(setDependsOn := v[j].setDependsOn + {h})], m[h := (if h in m then m[h] else []) + [j]])
  {
    var list := if h in m then m[h] else [];
    var w, n := v[j := v[j].(setDependsOn := v[j].setDependsOn + {h})], m[h := list + [j]];
    assert (list + [j])[|list|] == j;
    forall i, g | 0 <= i < |w| && g in w[i].setDependsOn ensures g in n && i in n[g] {
      if !(i == j && g == h) {
        assert g in v[i].setDependsOn;
        if g == h { var k :| 0 <= k < |m[h]| && m[h][k] == i; assert n[h][k] == i; }
      }
    }
  }

  lemma IdsMore(txs: seq<Tx>, tx: Tx)
    ensures Ids(txs + [tx]) == Ids(txs) + {tx.hash}
  {
    IdsSnoc(txs + [tx]);
    assert (txs + [tx])[..|txs|] == txs;
  }

  lemma WaitingMore(v: seq<Orphan>, o: Orphan)
    ensures WaitingIds(v + [o]) == WaitingIds(v) + (if o.setDependsOn != {} then {o.tx.hash} else {})
    ensures OrphanIds(v + [o]) == OrphanIds(v) + {o.tx.hash}
  {
    var w := v + [o];
    forall j | 0 <= j < |v| ensures w[j] == v[j] {}
    assert w[|v|] == o;
    forall h | h in WaitingIds(v)
      ensures h in WaitingIds(w)
    {
      var j :| 0 <= j < |v| && v[j].setDependsOn != {} && v[j].tx.hash == h;
      assert w[j] == v[j];
    }
    forall h | h in OrphanIds(v)
      ensures h in OrphanIds(w)
    {
      var j :| 0 <= j < |v| && v[j].tx.hash == h;
      assert w[j] == v[j];
    }
  }

  lemma SortedReady(pool: map<Hash, Tx>, queue: seq<Tx>, v: seq<Orphan>, seen: set<Hash>, taken: set<Hash>, tx: Tx)
    requires Sorted(pool, queue, v, seen, taken) && tx.hash in pool && pool[tx.hash] == tx && !tx.IsCoinBase()
    requires tx.hash !in seen
    ensures Sorted(pool, queue + [tx], v, seen + {tx.hash}, taken)
  {
    IdsMore(queue, tx);
    NewQueued(queue, tx);
    hide Ids, WaitingIds, OrphanIds;
  }

  lemma NewQueued(queue: seq<Tx>, tx: Tx)
    requires DistinctIds(queue) && tx.hash !in Ids(queue)
    ensures DistinctIds(queue + [tx])
  {
    forall i | 0 <= i < |queue| ensures queue[i].hash != tx.hash { assert queue[i].hash in Ids(queue); }
  }

  lemma SortedWaiting(pool: map<Hash, Tx>, queue: seq<Tx>, v: seq<Orphan>, seen: set<Hash>, taken: set<Hash>, tx: Tx,
      deps: set<Hash>)
    requires Sorted(pool, queue, v, seen, taken) && tx.hash in pool && pool[tx.hash] == tx && !tx.IsCoinBase()
    requires tx.hash !in seen && deps != {}
    ensures Sorted(pool, queue, v + [Orphan(tx, deps)], seen + {tx.hash}, taken)
  {
    WaitingMore(v, Orphan(tx, deps));
    assert DistinctOrphans(v + [Orphan(tx, deps)]) by {
      forall j | 0 <= j < |v| ensures v[j].tx.hash != tx.hash { assert v[j].tx.hash in OrphanIds(v); }
    }
    hide Ids, WaitingIds, OrphanIds;
  }

  /** An orphan waits for one transaction less, and is ready if that was the last. */
  lemma SortedRelease(pool: map<Hash, Tx>, queue: seq<Tx>, v: seq<Orphan>, seen: set<Hash>, taken: set<Hash>, j: nat,
      h: Hash)
    requires Sorted(pool, queue, v, seen, taken) && j < |v| && v[j].setDependsOn != {}
    ensures var o := v[j].(setDependsOn := v[j].setDependsOn - {h});
      Sorted(pool, if o.setDependsOn == {} then queue + [o.tx] else queue, v[j := o], seen, taken)
  {
    var o := v[j].(setDependsOn := v[j].setDependsOn - {h});
    WaitingChange(v, j, o);
    IdsMore(queue, o.tx);
    if o.setDependsOn == {} { NewQueued(queue, o.tx); }
    hide Ids, WaitingIds, OrphanIds;
  }

  lemma WaitingChange(v: seq<Orphan>, j: nat, o: Orphan)
    requires j < |v| && DistinctOrphans(v) && o.tx == v[j].tx && v[j].setDependsOn != {}
    ensures WaitingIds(v[j := o]) == (if o.setDependsOn != {} then WaitingIds(v) else WaitingIds(v) - {o.tx.hash})
    ensures OrphanIds(v[j := o]) == OrphanIds(v) && o.tx.hash in WaitingIds(v) && DistinctOrphans(v[j := o])
  {
    var w := v[j := o];
    assert v[j].tx.hash in WaitingIds(v);
    forall h ensures h in WaitingIds(w) <==> h in WaitingIds(v) && (h != o.tx.hash || o.setDependsOn != {}) {
      if h in WaitingIds(w) {
        var k :| 0 <= k < |w| && w[k].setDependsOn != {} && w[k].tx.hash == h;
        assert v[k].tx.hash == h && v[k].setDependsOn != {};
      }
      if h in WaitingIds(v) {
        var k :| 0 <= k < |v| && v[k].setDependsOn != {} && v[k].tx.hash == h;
        assert w[k].tx.hash == h && (k != j ==> w[k] == v[k]);
      }
    }
    forall h ensures h in OrphanIds(w) <==> h in OrphanIds(v) {
      if h in OrphanIds(w) { var k :| 0 <= k < |w| && w[k].tx.hash == h; assert v[k].tx.hash == h; }
      if h in OrphanIds(v) { var k :| 0 <= k < |v| && v[k].tx.hash == h; assert w[k].tx.hash == h; }
    }
  }

  lemma SortedTake(pool: map<Hash, Tx>, queue: seq<Tx>, v: seq<Orphan>, seen: set<Hash>, taken: set<Hash>, p: nat)
    requires Sorted(pool, queue, v, seen, taken) && p < |queue|
    ensures Sorted(pool, queue[..p] + queue[p + 1..], v, seen, taken + {queue[p].hash})
  {
    var q := queue[..p] + queue[p + 1..];
    assert Ids(q) == Ids(queue) - {queue[p].hash} && queue[p].hash in Ids(queue) && DistinctIds(q) by {
      IdsTake(queue, p);
    }
    forall i | 0 <= i < |q| ensures q[i].hash in pool && pool[q[i].hash] == q[i] && !q[i].IsCoinBase() {
      assert q[i] == queue[if i < p then i else i + 1];
    }
    hide Ids, WaitingIds, OrphanIds;
  }

  lemma IdsTake(queue: seq<Tx>, p: nat)
    requires DistinctIds(queue) && p < |queue|
    ensures var q := queue[..p] + queue[p + 1..];
      Ids(q) == Ids(queue) - {queue[p].hash} && queue[p].hash in Ids(queue) && DistinctIds(q)
  {
    var q := queue[..p] + queue[p + 1..];
    forall i | 0 <= i < |q| ensures q[i] == queue[if i < p then i else i + 1] {}
    forall h | h in Ids(queue) && h != queue[p].hash ensures h in Ids(q) {
      var i :| 0 <= i < |queue| && queue[i].hash == h;
      assert q[if i < p then i else i - 1] == queue[i];
    }
  }

  lemma TakenNew(pool: map<Hash, Tx>, queue: seq<Tx>, v: seq<Orphan>, seen: set<Hash>, taken: set<Hash>, p: nat,
      vtx: seq<Tx>)
    requires Sorted(pool, queue, v, seen, taken) && p < |queue| && Ids(vtx) <= taken
    ensures queue[p].hash !in taken && queue[p].hash !in Ids(vtx)
    ensures queue[p].hash in pool && pool[queue[p].hash] == queue[p] && !queue[p].IsCoinBase()
  {
    assert queue[p].hash in Ids(queue);
    hide Ids;
  }

  lemma ReplayMore(env: Env, ctx: Ctx, idx: Index, txs: seq<Tx>, tx: Tx, a: Acc)
    requires Replay(env, ctx, idx, txs) == Some(a)
    ensures Replay(env, ctx, idx, txs + [tx]) == ConnectTx(env, ctx, idx, a, tx, MEMORY_POS, false)
    ensures Sizes(txs + [tx]) == Sizes(txs) + tx.nSize
    ensures DistinctIds(txs) && tx.hash !in Ids(txs) ==> DistinctIds(txs + [tx])
    ensures Ids(txs + [tx]) == Ids(txs) + {tx.hash}
  {
    assert (txs + [tx])[..|txs|] == txs;
    hide ConnectTx;
    IdsMore(txs, tx);
    if DistinctIds(txs) && tx.hash !in Ids(txs) { NewQueued(txs, tx); }
  }

  lemma OverlayMore(base: Index, queue: Index, h: Hash, e: TxIndex)
    ensures base + queue[h := e] == (base + queue)[h := e]
  {
  }

  /** The orphans at the listed places wait for h no more; the others are as they were. */
  ghost predicate ReleasedSome(v: seq<Orphan>, w: seq<Orphan>, h: Hash, places: seq<int>) {
    |w| == |v| && forall j :: 0 <= j < |v| ==>
      w[j] == v[j].(setDependsOn := if j in places then v[j].setDependsOn - {h} else v[j].setDependsOn)
  }

  lemma ListedPlace(v: seq<Orphan>, m: map<Hash, seq<int>>, h: Hash, k: nat)
    requires Listed(v, m) && h in m && k < |m[h]|
    ensures 0 <= m[h][k] < |v|
  {
  }

  lemma ReleasedOne(v: seq<Orphan>, w: seq<Orphan>, h: Hash, list: seq<int>, k: nat)
    requires k < |list| && 0 <= list[k] < |v| && ReleasedSome(v, w, h, list[..k])
    ensures |w| == |v|
    ensures var o := w[list[k]];
      var w' := if o.setDependsOn != {} then w[list[k] := o.(setDependsOn := o.setDependsOn - {h})] else w;
      ReleasedSome(v, w', h, list[..k + 1])
  {
    assert list[..k + 1] == list[..k] + [list[k]];
  }

  lemma ReleasedAll(env: Env, idx: Index, v: seq<Orphan>, w: seq<Orphan>, h: Hash, m: map<Hash, seq<int>>,
      inBlock: set<Hash>)
    requires Listed(v, m) && WaitsRight(env, idx, v, inBlock) && ReleasedSome(v, w, h, if h in m then m[h] else [])
    ensures Listed(w, m) && WaitsRight(env, idx, w, inBlock + {h})
  {
    hide Missing;
    forall j | 0 <= j < |w| ensures w[j].setDependsOn == v[j].setDependsOn - {h} {
      if h in v[j].setDependsOn { assert j in m[h]; }
    }
    forall j, g | 0 <= j < |w| && g in w[j].setDependsOn ensures g in m && j in m[g] { assert g in v[j].setDependsOn; }
    forall j | 0 <= j < |w| ensures w[j].setDependsOn == Missing(env, idx, w[j].tx.vin) - (inBlock + {h}) {
      assert v[j].setDependsOn == Missing(env, idx, v[j].tx.vin) - inBlock;
    }
  }

  /** Builds a candidate on top of the last block: the coinbase pays the subsidy of the next height and all the
      fees. Every transaction of the pool that may be mined is taken off the queue once, or it waits to the end
      for one that is neither on disk nor in the block; one taken is in the block, or was refused against the
      block as it was when its turn came. */
  method CreateNewBlock(env: Env, policy: Policy, db: TxDB, pindexPrev: BlockIndex)
    returns (c: Candidate, ghost taken: set<Hash>)
    requires pindexPrev.Linked() && PoolOk(env.mempool)
    ensures Built(env, Recs(pindexPrev.Line()), db.Current().txs, c)
    ensures Ids(c.vtx) <= taken <= env.mempool.Keys && (c.vtx != [] ==> FIRST_SIZE + Sizes(c.vtx) < MAX_BLOCK_SIZE_GEN)
    ensures AllPay(env, Ctx(Recs(pindexPrev.Line()), true, false), policy, db.Current().txs, c.vtx)
    ensures forall h :: h in taken ==> Eligible(policy, env.mempool[h])
    ensures Tried(env, Ctx(Recs(pindexPrev.Line()), true, false), policy, db.Current().txs, c.vtx, taken)
    ensures forall h :: h in env.mempool && Eligible(policy, env.mempool[h]) && h !in taken ==>
      Missing(env, db.Current().txs, env.mempool[h].vin) - Ids(c.vtx) != {}
  {
    hide Sorted, Listed, WaitsRight, Replay, PoolOk, DistinctIds, Ids, Missing, Eligible, Tried, Built;
    var maker := new Maker(env, policy, db, pindexPrev);
    maker.Collect();
    TriedNone(env, maker.Context(), policy, maker.Base(), maker.vtx);
    maker.Fill();
    TakenKnown(env.mempool, maker.queue, maker.vOrphan, maker.seen, maker.taken);
    taken := maker.taken;
    maker.BuiltNow();
    c := Candidate(env.subsidy(pindexPrev.rec.nHeight + 1) + maker.nFees, maker.vtx);
    forall h | h in env.mempool && Eligible(policy, env.mempool[h]) && h !in taken
      ensures Missing(env, db.Current().txs, env.mempool[h].vin) - Ids(c.vtx) != {}
    {
      StillWaits(env, db.Current().txs, maker.vOrphan, maker.seen, maker.taken, Ids(c.vtx), h);
    }
  }

  lemma FiledRight(pool: map<Hash, Tx>, h: Hash)
    requires PoolOk(pool) && h in pool
    ensures pool[h].hash == h
  {
  }

  lemma TakenKnown(pool: map<Hash, Tx>, queue: seq<Tx>, v: seq<Orphan>, seen: set<Hash>, taken: set<Hash>)
    requires Sorted(pool, queue, v, seen, taken)
    ensures taken <= seen <= pool.Keys
  {
    hide Ids, WaitingIds;
  }

  lemma Fewer(all: set<Hash>, was: set<Hash>, now: set<Hash>)
    requires was < now <= all
    ensures |all - now| < |all - was|
  {
    assert all - was == (all - now) + (now - was);
    assert now - was != {};
  }

  lemma StillWaits(env: Env, idx: Index, v: seq<Orphan>, seen: set<Hash>, taken: set<Hash>, inBlock: set<Hash>, h: Hash)
    requires Sorted(env.mempool, [], v, seen, taken) && WaitsRight(env, idx, v, inBlock) && h in seen && h !in taken
    ensures h in env.mempool && Missing(env, idx, env.mempool[h].vin) - inBlock != {}
  {
    hide Missing;
    assert h in WaitingIds(v);
    var j :| 0 <= j < |v| && v[j].setDependsOn != {} && v[j].tx.hash == h;
  }
}
