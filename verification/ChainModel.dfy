/** The data of the transaction index and of the blocks that edit it, and what connecting and
    disconnecting one block does to the index, as functions of the index as a whole.
    The methods in module ChainDb work through queued changes, per-transaction input maps and
    single records; they are proved to compute these functions. */
module ChainModel {

  import opened Basics

  /** Transaction and block identifiers (uint256). */
  type Hash = nat

  type Script = seq<nat>

  const NULL_N: nat := 0xffff_ffff

  datatype OutPoint = OutPoint(hash: Hash, n: nat) {
    predicate IsNull() { hash == 0 && n == NULL_N }
  }

  datatype TxIn = TxIn(prevout: OutPoint, scriptSig: Script)

  datatype TxOut = TxOut(nValue: int, scriptPubKey: Script)

  /** hash is the transaction's identifier, nSize its serialized size and nSigOps its count of
      signature operations; all three are fixed when the transaction is made. */
  datatype Tx = Tx(hash: Hash, vin: seq<TxIn>, vout: seq<TxOut>, nSize: nat, nSigOps: nat) {
    predicate IsCoinBase() { |vin| == 1 && vin[0].prevout.IsNull() }
  }

  /** Where a transaction lies in the block files; the null position marks "not spent". */
  datatype DiskTxPos = NullPos | Pos(nFile: nat, nBlockPos: nat, nTxPos: nat)

  /** The position that stands for "in the memory pool, not on disk". */
  const MEMORY_POS: DiskTxPos := Pos(1, 1, 1)

  /** One record of the index: where the transaction is, and which transaction spent each output. */
  datatype TxIndex = TxIndex(pos: DiskTxPos, vSpent: seq<DiskTxPos>)

  type Index = map<Hash, TxIndex>

  datatype Block = Block(hash: Hash, vtx: seq<Tx>)

  /** A block together with the fields of its index node that connecting it reads. */
  datatype BlockRec = BlockRec(block: Block, nFile: nat, nBlockPos: nat, nHeight: nat, nTime: nat)

  /** Everything the chain code reads but does not compute here: the block files, the memory pool,
      signature verification, the sigops of a script run for an output, the subsidy schedule, the header checks, which
      blocks can be read back from disk, and the height below which signatures are skipped. */
  datatype Env = Env(
    disk: map<DiskTxPos, Tx>,
    mempool: map<Hash, Tx>,
    verifySignature: (Tx, Tx, nat, bool) -> bool,
    scriptSigOps: (Script, Script) -> nat,
    subsidy: nat -> nat,
    headerOk: Block -> bool,
    readable: Hash -> bool,
    totalBlocksEstimate: nat)

  const COIN: int := 100_000_000
  const MAX_MONEY: int := 1_000_000_000 * COIN
  const MAX_BLOCK_SIZE: nat := 1_000_000
  const MAX_BLOCK_SIGOPS: nat := MAX_BLOCK_SIZE / 50
  const COINBASE_MATURITY: nat := 15
  const BIP30_SWITCH_TIME: nat := 1349049600
  const BIP16_SWITCH_TIME: nat := 1349049600
  const BLOCK_HEADER_SIZE: nat := 80

  predicate MoneyRange(v: int) { 0 <= v <= MAX_MONEY }

  /* ---- amounts ---- */

  function ValueOut(vout: seq<TxOut>): int {
    if vout == [] then 0 else ValueOut(vout[..|vout| - 1]) + vout[|vout| - 1].nValue
  }

  /** GetValueOut throws as soon as an amount or a running total leaves the money range. */
  predicate ValueOutInRange(vout: seq<TxOut>) {
    forall i :: 0 <= i < |vout| ==> MoneyRange(vout[i].nValue) && MoneyRange(ValueOut(vout[..i + 1]))
  }

  /* ---- context-free checks ---- */

  predicate DistinctInputs(vin: seq<TxIn>) {
    forall i, j :: 0 <= i < j < |vin| ==> vin[i].prevout != vin[j].prevout
  }

  predicate CheckTransaction(tx: Tx) {
    && tx.vin != [] && tx.vout != []
    && tx.nSize <= MAX_BLOCK_SIZE
    && ValueOutInRange(tx.vout)
    && DistinctInputs(tx.vin)
    && (if tx.IsCoinBase() then 2 <= |tx.vin[0].scriptSig| <= 100
        else forall i :: 0 <= i < |tx.vin| ==> !tx.vin[i].prevout.IsNull())
  }

  predicate DistinctIds(vtx: seq<Tx>) {
    forall i, j :: 0 <= i < j < |vtx| ==> vtx[i].hash != vtx[j].hash
  }

  function SigOps(vtx: seq<Tx>): nat {
    if vtx == [] then 0 else SigOps(vtx[..|vtx| - 1]) + vtx[|vtx| - 1].nSigOps
  }

  /** headerOk stands for the size, proof of work, timestamp and merkle root tests. */
  predicate CheckBlock(env: Env, block: Block) {
    && block.vtx != [] && |block.vtx| <= MAX_BLOCK_SIZE
    && env.headerOk(block)
    && block.vtx[0].IsCoinBase()
    && (forall i :: 1 <= i < |block.vtx| ==> !block.vtx[i].IsCoinBase())
    && (forall i :: 0 <= i < |block.vtx| ==> CheckTransaction(block.vtx[i]))
    && DistinctIds(block.vtx)
    && SigOps(block.vtx) <= MAX_BLOCK_SIGOPS
  }

  /* ---- positions in the block files ---- */

  function SizeOfCompactSize(n: nat): nat {
    if n < 253 then 1 else if n <= 0xffff then 3 else if n <= 0xffff_ffff then 5 else 9
  }

  function TotalSize(vtx: seq<Tx>): nat {
    if vtx == [] then 0 else TotalSize(vtx[..|vtx| - 1]) + vtx[|vtx| - 1].nSize
  }

  /** Byte offset of the i-th transaction of a block (i may be one past the last). */
  function TxOffset(b: BlockRec, i: nat): nat
    requires i <= |b.block.vtx|
  {
    b.nBlockPos + BLOCK_HEADER_SIZE + SizeOfCompactSize(|b.block.vtx|) + TotalSize(b.block.vtx[..i])
  }

  function TxPos(b: BlockRec, i: nat): DiskTxPos
    requires i <= |b.block.vtx|
  {
    Pos(b.nFile, b.nBlockPos, TxOffset(b, i))
  }

  /** The block files hold the block's transactions where its index node says they are. */
  predicate Stored(env: Env, b: BlockRec) {
    forall i :: 0 <= i < |b.block.vtx| ==> TxPos(b, i) in env.disk && env.disk[TxPos(b, i)] == b.block.vtx[i]
  }

  /* ---- the index ---- */

  predicate Live(e: TxIndex) { exists n :: 0 <= n < |e.vSpent| && e.vSpent[n] == NullPos }

  predicate IsUnspent(idx: Index, op: OutPoint) {
    op.hash in idx && op.n < |idx[op.hash].vSpent| && idx[op.hash].vSpent[op.n] == NullPos
  }

  /** Every record points at the transaction it is filed under, with one mark for each output. */
  predicate IndexOk(env: Env, idx: Index) {
    forall h :: h in idx ==> EntryOk(env, h, idx[h])
  }

  predicate EntryOk(env: Env, h: Hash, e: TxIndex) {
    && e.pos in env.disk && e.pos != NullPos && e.pos != MEMORY_POS
    && env.disk[e.pos].hash == h
    && |env.disk[e.pos].vout| == |e.vSpent|
    && forall n :: 0 <= n < |e.vSpent| ==> env.disk[e.pos].vout[n].nValue >= 0
  }

  /** Two indexes with the same unspent outputs, created by the same transactions. */
  ghost predicate SameUnspent(a: Index, b: Index) {
    forall op :: IsUnspent(a, op) == IsUnspent(b, op)
              && (IsUnspent(a, op) ==> a[op.hash].pos == b[op.hash].pos)
  }

  function OpsOf(vin: seq<TxIn>): set<OutPoint> {
    set i | 0 <= i < |vin| :: vin[i].prevout
  }

  /** The index with the mark of every outpoint in ops set to pos. */
  function Mark(idx: Index, ops: set<OutPoint>, pos: DiskTxPos): Index {
    map h | h in idx :: MarkEntry(h, idx[h], ops, pos)
  }

  function MarkEntry(h: Hash, e: TxIndex, ops: set<OutPoint>, pos: DiskTxPos): TxIndex {
    TxIndex(e.pos, seq(|e.vSpent|, n requires 0 <= n < |e.vSpent| =>
      if OutPoint(h, n) in ops then pos else e.vSpent[n]))
  }

  function Fresh(pos: DiskTxPos, nOutputs: nat): TxIndex {
    TxIndex(pos, seq(nOutputs, _ => NullPos))
  }

  /* ---- connecting ---- */

  /** Ancestors from genesis up to and including the block being connected, whether P2SH is
      enforced, and whether signatures are skipped (below the last checkpoint). */
  datatype Ctx = Ctx(path: seq<BlockRec>, strict: bool, skipSigs: bool)

  predicate EnforceBIP30(b: BlockRec) { b.nTime > BIP30_SWITCH_TIME }

  function BlockCtx(path: seq<BlockRec>, b: BlockRec, skipSigs: bool): Ctx {
    Ctx(path + [b], b.nTime >= BIP16_SWITCH_TIME, skipSigs)
  }

  /** The record was written by one of the last COINBASE_MATURITY blocks of the path. */
  predicate Immature(path: seq<BlockRec>, pos: DiskTxPos)
    requires pos != NullPos
  {
    exists j :: 0 <= j < |path| && |path| - j <= COINBASE_MATURITY
             && path[j].nBlockPos == pos.nBlockPos && path[j].nFile == pos.nFile
  }

  /** The transaction filed under h at this position: read from the pool or from the block files. */
  function TxAt(env: Env, h: Hash, pos: DiskTxPos): Option<Tx> {
    if pos == MEMORY_POS then if h in env.mempool then Some(env.mempool[h]) else None
    else if pos != NullPos && pos in env.disk then Some(env.disk[pos]) else None
  }

  predicate Found(env: Env, view: Index, op: OutPoint) {
    && op.hash in view && TxAt(env, op.hash, view[op.hash].pos).Some?
    && op.n < |TxAt(env, op.hash, view[op.hash].pos).value.vout| && op.n < |view[op.hash].vSpent|
  }

  predicate AllFound(env: Env, view: Index, vin: seq<TxIn>) {
    forall i :: 0 <= i < |vin| ==> Found(env, view, vin[i].prevout)
  }

  function PrevTx(env: Env, view: Index, op: OutPoint): Tx
    requires Found(env, view, op)
  {
    TxAt(env, op.hash, view[op.hash].pos).value
  }

  function PrevOut(env: Env, view: Index, op: OutPoint): TxOut
    requires Found(env, view, op)
  {
    PrevTx(env, view, op).vout[op.n]
  }

  function PrevOuts(env: Env, view: Index, vin: seq<TxIn>): seq<TxOut>
    requires AllFound(env, view, vin)
  {
    seq(|vin|, i requires 0 <= i < |vin| => PrevOut(env, view, vin[i].prevout))
  }

  /** OP_HASH160, a push of 20 bytes, OP_EQUAL. */
  predicate IsPayToScriptHash(s: Script) { |s| == 23 && s[0] == 0xa9 && s[1] == 0x14 && s[22] == 0x87 }

  /** The signature operations of the scripts the inputs push for pay-to-script-hash outputs. */
  function P2SHSigOps(env: Env, vin: seq<TxIn>, outs: seq<TxOut>): nat
    requires |vin| == |outs|
  {
    if vin == [] then 0
    else
      var m := |vin| - 1;
      P2SHSigOps(env, vin[..m], outs[..m])
      + if IsPayToScriptHash(outs[m].scriptPubKey) then env.scriptSigOps(outs[m].scriptPubKey, vin[m].scriptSig) else 0
  }

  function ValueIn(env: Env, view: Index, vin: seq<TxIn>): int
    requires AllFound(env, view, vin)
  {
    if vin == [] then 0
    else ValueIn(env, view, vin[..|vin| - 1]) + PrevOut(env, view, vin[|vin| - 1].prevout).nValue
  }

  /** The tests ConnectInputs applies to one input, apart from the running total. */
  predicate InputOk(env: Env, ctx: Ctx, view: Index, tx: Tx, i: nat)
    requires i < |tx.vin| && Found(env, view, tx.vin[i].prevout)
  {
    var op := tx.vin[i].prevout;
    var prev := PrevTx(env, view, op);
    && !(prev.IsCoinBase() && Immature(ctx.path, view[op.hash].pos))
    && MoneyRange(prev.vout[op.n].nValue)
    && view[op.hash].vSpent[op.n] == NullPos
    && (ctx.skipSigs || env.verifySignature(prev, tx, i, ctx.strict))
  }

  /** ConnectInputs accepts the transaction against this index. */
  predicate Spendable(env: Env, ctx: Ctx, view: Index, tx: Tx)
    requires AllFound(env, view, tx.vin)
  {
    && (forall i :: 0 <= i < |tx.vin| ==> InputOk(env, ctx, view, tx, i))
    && (forall i :: 0 <= i <= |tx.vin| ==> MoneyRange(ValueIn(env, view, tx.vin[..i])))
    && DistinctInputs(tx.vin)
    && MoneyRange(ValueIn(env, view, tx.vin) - ValueOut(tx.vout))
  }

  /** What ConnectBlock carries from one transaction to the next. */
  datatype Acc = Acc(view: Index, nFees: int, nSigOps: nat)

  function ConnectTx(env: Env, ctx: Ctx, db: Index, a: Acc, tx: Tx, pos: DiskTxPos, bip30: bool): Option<Acc> {
    var ops := a.nSigOps + tx.nSigOps;
    var created := Fresh(pos, |tx.vout|);
    if bip30 && tx.hash in db && Live(db[tx.hash]) then None
    else if ops > MAX_BLOCK_SIGOPS then None
    else if tx.IsCoinBase() then Some(Acc(a.view[tx.hash := created], a.nFees, ops))
    else if !AllFound(env, a.view, tx.vin) then None
    else
      var ops' := if ctx.strict then ops + P2SHSigOps(env, tx.vin, PrevOuts(env, a.view, tx.vin)) else ops;
      if ops' > MAX_BLOCK_SIGOPS || !Spendable(env, ctx, a.view, tx) then None
      else Some(Acc(Mark(a.view, OpsOf(tx.vin), pos)[tx.hash := created],
                    a.nFees + ValueIn(env, a.view, tx.vin) - ValueOut(tx.vout), ops'))
  }

  /** The first k transactions of b connected on top of db. */
  function ConnectTxs(env: Env, ctx: Ctx, db: Index, b: BlockRec, k: nat): Option<Acc>
    requires k <= |b.block.vtx|
  {
    if k == 0 then Some(Acc(db, 0, 0))
    else match ConnectTxs(env, ctx, db, b, k - 1)
      case None => None
      case Some(a) => ConnectTx(env, ctx, db, a, b.block.vtx[k - 1], TxPos(b, k - 1), EnforceBIP30(b))
  }

  /** The index after ConnectBlock, or None when the block is refused.
      path holds the ancestors of b, genesis first. */
  function ConnectBlock(env: Env, path: seq<BlockRec>, skipSigs: bool, db: Index, b: BlockRec): Option<Index> {
    if !CheckBlock(env, b.block) then None
    else match ConnectTxs(env, BlockCtx(path, b, skipSigs), db, b, |b.block.vtx|)
      case None => None
      case Some(a) =>
        if ValueOut(b.block.vtx[0].vout) > env.subsidy(b.nHeight) + a.nFees then None else Some(a.view)
  }

  /* ---- disconnecting ---- */

  predicate Undoable(idx: Index, vin: seq<TxIn>) {
    forall i :: 0 <= i < |vin| ==> vin[i].prevout.hash in idx && vin[i].prevout.n < |idx[vin[i].prevout.hash].vSpent|
  }

  function DisconnectTx(idx: Index, tx: Tx): Option<Index> {
    if tx.IsCoinBase() then Some(idx - {tx.hash})
    else if Undoable(idx, tx.vin) then Some(Mark(idx, OpsOf(tx.vin), NullPos) - {tx.hash})
    else None
  }

  /** The transactions of vtx disconnected from the last one down to position k. */
  function DisconnectTxs(idx: Index, vtx: seq<Tx>, k: nat): Option<Index>
    requires k <= |vtx|
    decreases |vtx| - k
  {
    if k == |vtx| then Some(idx)
    else match DisconnectTxs(idx, vtx, k + 1)
      case None => None
      case Some(d) => DisconnectTx(d, vtx[k])
  }

  function DisconnectBlock(idx: Index, block: Block): Option<Index> {
    DisconnectTxs(idx, block.vtx, 0)
  }
}
