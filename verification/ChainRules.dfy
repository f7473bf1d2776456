/** What every block that connects has passed, said without the functions that connect it: of each input of each
    transaction, of each transaction and of the block. */
module ChainRules {
  import opened Basics
  import opened ChainModel

  /** The index the t-th transaction of the block is connected to, with the tallies so far. */
  function BeforeTx(env: Env, path: seq<BlockRec>, skipSigs: bool, idx: Index, b: BlockRec, t: nat): Option<Acc>
    requires t <= |b.block.vtx|
  {
    ConnectTxs(env, BlockCtx(path, b, skipSigs), idx, b, t)
  }

  predicate WrittenBy(rec: BlockRec, pos: DiskTxPos) {
    pos.Pos? && rec.nFile == pos.nFile && rec.nBlockPos == pos.nBlockPos
  }

  /** The input names an output that is there and unspent and has a fit amount; if signatures are not skipped, its
      signature has been verified, under the strict rules if the block is late enough; and if it names an output of
      a coinbase, that was not written by the block or the last 14 before it. */
  predicate InputPassed(env: Env, path: seq<BlockRec>, skipSigs: bool, b: BlockRec, view: Index, tx: Tx, i: nat)
    requires i < |tx.vin|
  {
    var op := tx.vin[i].prevout;
    && op.hash in view && op.n < |view[op.hash].vSpent| && view[op.hash].vSpent[op.n] == NullPos
    && match TxAt(env, op.hash, view[op.hash].pos)
       case None => false
       case Some(prev) =>
         && op.n < |prev.vout| && 0 <= prev.vout[op.n].nValue <= MAX_MONEY
         && (!skipSigs ==> env.verifySignature(prev, tx, i, b.nTime >= BIP16_SWITCH_TIME))
         && (prev.IsCoinBase() ==>
               && !WrittenBy(b, view[op.hash].pos)
               && forall j :: |path| - 14 <= j < |path| && 0 <= j ==> !WrittenBy(path[j], view[op.hash].pos))
  }

  /** The sigops of the scripts the inputs run for outputs that demand a script by its hash. */
  function ScriptSigOps(env: Env, view: Index, vin: seq<TxIn>): nat
    requires AllFound(env, view, vin)
  {
    P2SHSigOps(env, vin, PrevOuts(env, view, vin))
  }

  /** The sigops up to this transaction, those of scripts demanded by hash included under the strict rules. */
  function SigOpsWith(env: Env, b: BlockRec, a: Acc, tx: Tx): nat
    requires !tx.IsCoinBase() ==> AllFound(env, a.view, tx.vin)
  {
    a.nSigOps + tx.nSigOps
    + if !tx.IsCoinBase() && b.nTime >= BIP16_SWITCH_TIME then ScriptSigOps(env, a.view, tx.vin) else 0
  }

  /** The transaction may be connected to what those before it have made: where BIP 30 is in force it repeats the id of
      no transaction with an unspent output; its inputs have passed and no two name the same output; they are worth at
      least what is paid out, with every amount in range; and the sigops stay within the limit. */
  predicate TxAllowed(env: Env, path: seq<BlockRec>, skipSigs: bool, idx: Index, b: BlockRec, a: Acc, tx: Tx) {
    && !(b.nTime > BIP30_SWITCH_TIME && tx.hash in idx && NullPos in idx[tx.hash].vSpent)
    && (!tx.IsCoinBase() ==>
          && (forall i :: 0 <= i < |tx.vin| ==> InputPassed(env, path, skipSigs, b, a.view, tx, i))
          && DistinctInputs(tx.vin) && AllFound(env, a.view, tx.vin)
          && (forall i :: 0 <= i <= |tx.vin| ==> 0 <= ValueIn(env, a.view, tx.vin[..i]) <= MAX_MONEY)
          && 0 <= ValueIn(env, a.view, tx.vin) - ValueOut(tx.vout) <= MAX_MONEY)
    && SigOpsWith(env, b, a, tx) <= MAX_BLOCK_SIGOPS
  }

  /** The transaction may be connected after those before it, and its sigops and fees are counted. */
  predicate TxPassed(env: Env, path: seq<BlockRec>, skipSigs: bool, idx: Index, b: BlockRec, t: nat)
    requires t < |b.block.vtx|
  {
    var tx := b.block.vtx[t];
    match BeforeTx(env, path, skipSigs, idx, b, t)
    case None => false
    case Some(a) =>
      && TxAllowed(env, path, skipSigs, idx, b, a, tx)
      && match BeforeTx(env, path, skipSigs, idx, b, t + 1)
         case None => false
         case Some(c) =>
           && c.nSigOps == SigOpsWith(env, b, a, tx)
           && c.nFees == a.nFees + if tx.IsCoinBase() then 0 else ValueIn(env, a.view, tx.vin) - ValueOut(tx.vout)
  }

  /** All transactions have passed; the first one alone is a coinbase, and claims no more than the subsidy and the
      fees. */
  predicate Passed(env: Env, path: seq<BlockRec>, skipSigs: bool, idx: Index, b: BlockRec) {
    var vtx := b.block.vtx;
    && vtx != [] && (forall t :: 0 <= t < |vtx| ==> (vtx[t].IsCoinBase() <==> t == 0))
    && (forall t :: 0 <= t < |vtx| ==> TxPassed(env, path, skipSigs, idx, b, t))
    && match BeforeTx(env, path, skipSigs, idx, b, |vtx|)
       case None => false
       case Some(a) => ValueOut(vtx[0].vout) <= env.subsidy(b.nHeight) + a.nFees
  }

  /** What a block must satisfy to connect: if the transactions before one connect, that one may be connected; and if
      all do, the coinbase claims no more than the subsidy and the fees. */
  predicate Connectable(env: Env, path: seq<BlockRec>, skipSigs: bool, idx: Index, b: BlockRec) {
    var vtx := b.block.vtx;
    && CheckBlock(env, b.block)
    && (forall t :: 0 <= t < |vtx| ==>
          var r := BeforeTx(env, path, skipSigs, idx, b, t);
          r.Some? ==> TxAllowed(env, path, skipSigs, idx, b, r.value, vtx[t]))
    && match BeforeTx(env, path, skipSigs, idx, b, |vtx|)
       case None => true
       case Some(a) => ValueOut(vtx[0].vout) <= env.subsidy(b.nHeight) + a.nFees
  }

  lemma InputPassedIff(env: Env, path: seq<BlockRec>, skipSigs: bool, b: BlockRec, view: Index, tx: Tx, i: nat)
    requires i < |tx.vin|
    ensures InputPassed(env, path, skipSigs, b, view, tx, i) <==>
      Found(env, view, tx.vin[i].prevout) && InputOk(env, BlockCtx(path, b, skipSigs), view, tx, i)
  {
    if Found(env, view, tx.vin[i].prevout) && view[tx.vin[i].prevout.hash].pos != NullPos {
      ImmatureIff(path, b, view[tx.vin[i].prevout.hash].pos);
    }
    hide Immature, WrittenBy;
  }

  lemma ImmatureIff(path: seq<BlockRec>, b: BlockRec, pos: DiskTxPos)
    requires pos != NullPos
    ensures Immature(path + [b], pos) <==>
      WrittenBy(b, pos) || exists j :: |path| - 14 <= j < |path| && 0 <= j && WrittenBy(path[j], pos)
  {
    var all := path + [b];
    assert all[|path|] == b;
    assert forall j :: 0 <= j < |path| ==> all[j] == path[j];
  }

  lemma AllPassedIff(env: Env, path: seq<BlockRec>, skipSigs: bool, b: BlockRec, view: Index, tx: Tx)
    ensures (forall i :: 0 <= i < |tx.vin| ==> InputPassed(env, path, skipSigs, b, view, tx, i)) <==>
      AllFound(env, view, tx.vin)
      && forall i :: 0 <= i < |tx.vin| ==> InputOk(env, BlockCtx(path, b, skipSigs), view, tx, i)
  {
    forall i | 0 <= i < |tx.vin|
      ensures InputPassed(env, path, skipSigs, b, view, tx, i) <==>
        Found(env, view, tx.vin[i].prevout) && InputOk(env, BlockCtx(path, b, skipSigs), view, tx, i)
    {
      InputPassedIff(env, path, skipSigs, b, view, tx, i);
    }
    hide InputPassed, InputOk, Found;
  }

  /** One transaction connects exactly if it is allowed. */
  lemma TxConnectsIff(env: Env, path: seq<BlockRec>, skipSigs: bool, idx: Index, b: BlockRec, t: nat)
    requires t < |b.block.vtx| && BeforeTx(env, path, skipSigs, idx, b, t).Some?
    ensures var a := BeforeTx(env, path, skipSigs, idx, b, t).value;
      BeforeTx(env, path, skipSigs, idx, b, t + 1).Some? <==> TxAllowed(env, path, skipSigs, idx, b, a, b.block.vtx[t])
    ensures BeforeTx(env, path, skipSigs, idx, b, t + 1).Some? ==> TxPassed(env, path, skipSigs, idx, b, t)
  {
    hide Mark, InputPassed, InputOk, Found, P2SHSigOps, ValueIn, ValueOut, DistinctInputs;
    var a, tx := BeforeTx(env, path, skipSigs, idx, b, t).value, b.block.vtx[t];
    AllPassedIff(env, path, skipSigs, b, a.view, tx);
  }

  /** What a connected transaction leaves unspent: all of its own outputs, and of those before it the ones it does not
      name; the ones it names are marked with its position. */
  lemma TxUnspent(env: Env, path: seq<BlockRec>, skipSigs: bool, idx: Index, b: BlockRec, t: nat, op: OutPoint)
    requires t < |b.block.vtx| && BeforeTx(env, path, skipSigs, idx, b, t + 1).Some?
    ensures BeforeTx(env, path, skipSigs, idx, b, t).Some?
    ensures var a := BeforeTx(env, path, skipSigs, idx, b, t).value.view;
      var c, tx := BeforeTx(env, path, skipSigs, idx, b, t + 1).value.view, b.block.vtx[t];
      var named := !tx.IsCoinBase() && exists i :: 0 <= i < |tx.vin| && tx.vin[i].prevout == op;
      && tx.hash in c && c[tx.hash].pos == TxPos(b, t)
      && (op.hash == tx.hash ==> (IsUnspent(c, op) <==> op.n < |tx.vout|))
      && (op.hash != tx.hash ==> (IsUnspent(c, op) <==> IsUnspent(a, op) && !named))
      && (op.hash != tx.hash && named ==>
            op.hash in c && op.n < |c[op.hash].vSpent| && c[op.hash].vSpent[op.n] == TxPos(b, t))
  {
    hide InputOk, P2SHSigOps, ValueIn, ValueOut, DistinctInputs, Live;
    var a, tx := BeforeTx(env, path, skipSigs, idx, b, t).value.view, b.block.vtx[t];
    if !tx.IsCoinBase() {
      assert op in OpsOf(tx.vin) <==> exists i :: 0 <= i < |tx.vin| && tx.vin[i].prevout == op;
      MarkUnspent(a, OpsOf(tx.vin), TxPos(b, t), op);
      if op in OpsOf(tx.vin) { FoundNamed(env, a, tx.vin, op); }
    }
    hide Mark, OpsOf, AllFound;
  }

  lemma MarkUnspent(idx: Index, ops: set<OutPoint>, pos: DiskTxPos, op: OutPoint)
    requires pos != NullPos
    ensures IsUnspent(Mark(idx, ops, pos), op) <==> IsUnspent(idx, op) && op !in ops
    ensures op in ops && op.hash in idx && op.n < |idx[op.hash].vSpent| ==>
      var e := Mark(idx, ops, pos)[op.hash]; op.n < |e.vSpent| && e.vSpent[op.n] == pos
  {
  }

  lemma FoundNamed(env: Env, view: Index, vin: seq<TxIn>, op: OutPoint)
    requires AllFound(env, view, vin) && op in OpsOf(vin)
    ensures op.hash in view && op.n < |view[op.hash].vSpent|
  {
  }

  lemma {:induction false} PrefixConnects(env: Env, path: seq<BlockRec>, skipSigs: bool, idx: Index, b: BlockRec,
      t: nat, k: nat)
    requires t <= k <= |b.block.vtx| && BeforeTx(env, path, skipSigs, idx, b, k).Some?
    ensures BeforeTx(env, path, skipSigs, idx, b, t).Some?
    decreases k
  {
    hide ConnectTx;
    if t < k { PrefixConnects(env, path, skipSigs, idx, b, t, k - 1); }
  }

  lemma {:induction false} AllowedConnect(env: Env, path: seq<BlockRec>, skipSigs: bool, idx: Index, b: BlockRec,
      k: nat)
    requires k <= |b.block.vtx| && Connectable(env, path, skipSigs, idx, b)
    ensures BeforeTx(env, path, skipSigs, idx, b, k).Some?
  {
    hide TxAllowed, TxPassed, CheckBlock;
    if k > 0 {
      AllowedConnect(env, path, skipSigs, idx, b, k - 1);
      TxConnectsIff(env, path, skipSigs, idx, b, k - 1);
    }
  }

  /** A block connects exactly if it is connectable. */
  lemma ConnectsIff(env: Env, path: seq<BlockRec>, skipSigs: bool, idx: Index, b: BlockRec)
    ensures ConnectBlock(env, path, skipSigs, idx, b).Some? <==> Connectable(env, path, skipSigs, idx, b)
  {
    hide ConnectTxs, TxAllowed, TxPassed, CheckTransaction;
    var vtx := b.block.vtx;
    if ConnectBlock(env, path, skipSigs, idx, b).Some? {
      forall t | 0 <= t < |vtx|
        ensures var r := BeforeTx(env, path, skipSigs, idx, b, t);
          r.Some? ==> TxAllowed(env, path, skipSigs, idx, b, r.value, vtx[t])
      {
        PrefixConnects(env, path, skipSigs, idx, b, t, |vtx|);
        PrefixConnects(env, path, skipSigs, idx, b, t + 1, |vtx|);
        TxConnectsIff(env, path, skipSigs, idx, b, t);
      }
    }
    if Connectable(env, path, skipSigs, idx, b) { AllowedConnect(env, path, skipSigs, idx, b, |vtx|); }
  }

  /** A block that connects has passed. */
  lemma ConnectedPassed(env: Env, path: seq<BlockRec>, skipSigs: bool, idx: Index, b: BlockRec)
    requires ConnectBlock(env, path, skipSigs, idx, b).Some?
    ensures Passed(env, path, skipSigs, idx, b)
  {
    hide ConnectTxs, TxPassed, TxAllowed, CheckTransaction;
    var vtx := b.block.vtx;
    forall t | 0 <= t < |vtx| ensures TxPassed(env, path, skipSigs, idx, b, t) {
      PrefixConnects(env, path, skipSigs, idx, b, t, |vtx|);
      PrefixConnects(env, path, skipSigs, idx, b, t + 1, |vtx|);
      TxConnectsIff(env, path, skipSigs, idx, b, t);
    }
  }
}
