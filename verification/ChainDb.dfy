/** The transaction database and the methods that edit it, input by input and record by record.
    Each is proved against the function of module ChainModel that says what it does to the index. */
module ChainDb {
  import opened Basics
  import opened ChainModel
  import opened ChainLaws

  /** A node of the block tree. pprev and the block fields never change once the node is made. */
  class BlockIndex {
    const pprev: BlockIndex?
    const rec: BlockRec
    const nChainWork: nat
    var pnext: BlockIndex?

    constructor (rec: BlockRec, pprev: BlockIndex?, nChainWork: nat)
      ensures this.rec == rec && this.pprev == pprev && this.nChainWork == nChainWork && pnext == null
    {
      this.rec := rec;
      this.pprev := pprev;
      this.nChainWork := nChainWork;
      this.pnext := null;
    }

    /** Heights count up by one from a node without a predecessor. */
    ghost predicate Linked()
      decreases rec.nHeight
    {
      if pprev == null then rec.nHeight == 0
      else rec.nHeight == pprev.rec.nHeight + 1 && pprev.Linked()
    }

    /** The node and its ancestors, the root first. */
    ghost function Line(): (line: seq<BlockIndex>)
      requires Linked()
      ensures |line| == rec.nHeight + 1 && line[|line| - 1] == this
      decreases rec.nHeight
    {
      if pprev == null then [this] else pprev.Line() + [this]
    }

    /** The blocks of the ancestors, the root first, without this node's own. */
    ghost function Before(): seq<BlockRec>
      requires Linked()
    {
      if pprev == null then [] else Recs(pprev.Line())
    }
  }

  ghost function Recs(line: seq<BlockIndex>): seq<BlockRec> {
    seq(|line|, i requires 0 <= i < |line| => line[i].rec)
  }

  /** The three kinds of record the chain code keeps: transaction index, hashNext of each disk
      block index, and the hash of the best chain. */
  datatype Records = Records(txs: Index, hashNext: map<Hash, Hash>, hashBestChain: Hash)

  class TxDB {
    var committed: Records
    var activeTxn: Option<Records>

    ghost function Current(): Records
      reads this
    {
      match activeTxn case Some(r) => r case None => committed
    }

    /** What every write does: the given records become current, and only there. */
    ghost predicate Holds(r: Records, wasCommitted: Records, wasActive: bool)
      reads this
    {
      Current() == r && activeTxn.Some? == wasActive && (wasActive ==> committed == wasCommitted)
    }

    constructor (r: Records)
      ensures committed == r && activeTxn == None
    {
      committed := r;
      activeTxn := None;
    }

    method TxnBegin() returns (ok: bool)
      modifies this
      ensures ok == old(activeTxn.None?)
      ensures ok ==> activeTxn == Some(old(committed))
      ensures !ok ==> activeTxn == old(activeTxn)
      ensures committed == old(committed)
    {
      ok := activeTxn.None?;
      if ok { activeTxn := Some(committed); }
    }

    method TxnCommit() returns (ok: bool)
      modifies this
      ensures ok == old(activeTxn.Some?) && activeTxn == None
      ensures committed == old(Current())
    {
      ok := activeTxn.Some?;
      if ok { committed := activeTxn.value; }
      activeTxn := None;
    }

    method TxnAbort() returns (ok: bool)
      modifies this
      ensures ok == old(activeTxn.Some?) && activeTxn == None
      ensures committed == old(committed)
    {
      ok := activeTxn.Some?;
      activeTxn := None;
    }

    method Write(r: Records)
      modifies this
      ensures Holds(r, old(committed), old(activeTxn.Some?))
    {
      if activeTxn.Some? { activeTxn := Some(r); } else { committed := r; }
    }

    method Read() returns (r: Records)
      ensures r == Current()
    {
      r := if activeTxn.Some? then activeTxn.value else committed;
    }

    method ReadTxIndex(h: Hash) returns (found: Option<TxIndex>)
      ensures found == if h in Current().txs then Some(Current().txs[h]) else None
    {
      var r := Read();
      found := if h in r.txs then Some(r.txs[h]) else None;
    }

    method UpdateTxIndex(h: Hash, e: TxIndex)
      modifies this
      ensures Holds(old(Current()).(txs := old(Current()).txs[h := e]), old(committed), old(activeTxn.Some?))
    {
      var r := Read();
      Write(r.(txs := r.txs[h := e]));
    }

    method EraseTxIndex(tx: Tx)
      modifies this
      ensures Holds(old(Current()).(txs := old(Current()).txs - {tx.hash}), old(committed), old(activeTxn.Some?))
    {
      var r := Read();
      Write(r.(txs := r.txs - {tx.hash}));
    }

    method WriteHashNext(h: Hash, next: Hash)
      modifies this
      ensures Holds(old(Current()).(hashNext := old(Current()).hashNext[h := next]), old(committed),
        old(activeTxn.Some?))
    {
      var r := Read();
      Write(r.(hashNext := r.hashNext[h := next]));
    }

    method WriteHashBestChain(h: Hash)
      modifies this
      ensures Holds(old(Current()).(hashBestChain := h), old(committed), old(activeTxn.Some?))
    {
      var r := Read();
      Write(r.(hashBestChain := h));
    }
  }

  /* ---- fetching inputs ---- */

  datatype Prev = Prev(index: TxIndex, tx: Tx)

  type MapPrevTx = map<Hash, Prev>

  /** inputs holds the record and the transaction of exactly the hashes the inputs point at. */
  ghost predicate Fetched(env: Env, view: Index, vin: seq<TxIn>, inputs: MapPrevTx) {
    && (forall i :: 0 <= i < |vin| ==> vin[i].prevout.hash in inputs)
    && (forall h :: h in inputs ==>
          h in view && TxAt(env, h, view[h].pos) == Some(inputs[h].tx) && inputs[h].index == view[h])
  }

  /** A record and its transaction, if that can be read. */
  function WithTx(env: Env, h: Hash, e: TxIndex): Option<Prev> {
    match TxAt(env, h, e.pos) case None => None case Some(tx) => Some(Prev(e, tx))
  }

  /** Where an input's transaction is looked up: for blocks and for mining in the queued changes first;
      otherwise in the index alone or, if it is not there, in the pool, with nothing spent. */
  function Lookup(env: Env, db: Index, queue: Index, queued: bool, h: Hash): Option<Prev> {
    if queued && h in queue then WithTx(env, h, queue[h])
    else if h in db then WithTx(env, h, db[h])
    else if !queued && h in env.mempool then
      Some(Prev(Fresh(NullPos, |env.mempool[h].vout|), env.mempool[h]))
    else None
  }

  predicate InRange(p: Prev, n: nat) { n < |p.tx.vout| && n < |p.index.vSpent| }

  /** Every input's transaction is found. */
  predicate Known(env: Env, db: Index, queue: Index, queued: bool, vin: seq<TxIn>) {
    forall i :: 0 <= i < |vin| ==> Lookup(env, db, queue, queued, vin[i].prevout.hash).Some?
  }

  /** And every input names one of its outputs. */
  predicate KnownInRange(env: Env, db: Index, queue: Index, queued: bool, vin: seq<TxIn>) {
    forall i :: 0 <= i < |vin| ==> KnownOne(env, db, queue, queued, vin[i].prevout)
  }

  predicate KnownOne(env: Env, db: Index, queue: Index, queued: bool, op: OutPoint) {
    var found := Lookup(env, db, queue, queued, op.hash);
    found.Some? && InRange(found.value, op.n)
  }

  /** The map holds what is looked up for exactly the hashes of the inputs. */
  ghost predicate LookedUp(env: Env, db: Index, queue: Index, queued: bool, vin: seq<TxIn>, inputs: MapPrevTx) {
    && (forall i :: 0 <= i < |vin| ==> vin[i].prevout.hash in inputs)
    && (forall h :: h in inputs ==> Lookup(env, db, queue, queued, h) == Some(inputs[h]))
    && (forall h :: h in inputs ==> exists i :: 0 <= i < |vin| && vin[i].prevout.hash == h)
  }

  /** For blocks and for mining, looking up is finding in the index with the queued changes laid over it. */
  lemma LookupQueued(env: Env, db: Index, queue: Index, vin: seq<TxIn>)
    ensures KnownInRange(env, db, queue, true, vin) == AllFound(env, db + queue, vin)
    ensures forall inputs :: LookedUp(env, db, queue, true, vin, inputs) ==> Fetched(env, db + queue, vin, inputs)
  {
    hide Lookup, Found, LookedUp, Fetched, InRange;
    forall i | 0 <= i < |vin|
      ensures Found(env, db + queue, vin[i].prevout) == KnownOne(env, db, queue, true, vin[i].prevout)
    {
      LookupOne(env, db, queue, vin[i].prevout);
    }
    forall inputs | LookedUp(env, db, queue, true, vin, inputs) ensures Fetched(env, db + queue, vin, inputs) {
      LookedUpFetched(env, db, queue, vin, inputs);
    }
  }

  lemma LookupOne(env: Env, db: Index, queue: Index, op: OutPoint)
    ensures Found(env, db + queue, op) == KnownOne(env, db, queue, true, op)
  {
  }

  lemma LookedUpFetched(env: Env, db: Index, queue: Index, vin: seq<TxIn>, inputs: MapPrevTx)
    requires LookedUp(env, db, queue, true, vin, inputs)
    ensures Fetched(env, db + queue, vin, inputs)
  {
  }

  method FetchInputs(env: Env, db: TxDB, queue: Index, fBlock: bool, fMiner: bool, tx: Tx)
    returns (ok: bool, inputs: MapPrevTx, fInvalid: bool)
    ensures tx.IsCoinBase() ==> ok && inputs == map[] && !fInvalid
    ensures !tx.IsCoinBase() ==> ok == KnownInRange(env, db.Current().txs, queue, fBlock || fMiner, tx.vin)
    ensures !tx.IsCoinBase() ==> fInvalid == (!ok && Known(env, db.Current().txs, queue, fBlock || fMiner, tx.vin))
    ensures !tx.IsCoinBase() && ok ==> LookedUp(env, db.Current().txs, queue, fBlock || fMiner, tx.vin, inputs)
  {
    hide Lookup, LookedUp, InRange, Known, KnownInRange;
    ghost var base := db.Current().txs;
    inputs, fInvalid := map[], false;
    if tx.IsCoinBase() { return true, inputs, false; }
    var queued := fBlock || fMiner;
    var i := 0;
    NoneLookedUp(env, base, queue, queued, tx.vin);
    while i < |tx.vin|
      invariant 0 <= i <= |tx.vin|
      invariant LookedUp(env, base, queue, queued, tx.vin[..i], inputs)
    {
      var h := tx.vin[i].prevout.hash;
      ghost var was := inputs;
      if h !in inputs {
        var found := FetchOne(env, db, queue, queued, h);
        if found.None? {
          NotKnown(env, base, queue, queued, tx.vin, i);
          return false, inputs, false;
        }
        inputs := inputs[h := found.value];
      }
      NextLookedUp(env, base, queue, queued, tx.vin, i, was, inputs);
      i := i + 1;
    }
    assert tx.vin[..i] == tx.vin;
    AllKnown(env, base, queue, queued, tx.vin, inputs);
    i := 0;
    while i < |tx.vin|
      invariant 0 <= i <= |tx.vin|
      invariant forall j :: 0 <= j < i ==> InRange(inputs[tx.vin[j].prevout.hash], tx.vin[j].prevout.n)
    {
      var op := tx.vin[i].prevout;
      RangeTest(inputs[op.hash], op.n);
      if op.n >= |inputs[op.hash].tx.vout| || op.n >= |inputs[op.hash].index.vSpent| {
        return false, inputs, true;
      }
      i := i + 1;
    }
    ok := true;
  }

  lemma RangeTest(p: Prev, n: nat)
    ensures InRange(p, n) <==> !(n >= |p.tx.vout| || n >= |p.index.vSpent|)
  {
  }

  lemma NoneLookedUp(env: Env, db: Index, queue: Index, queued: bool, vin: seq<TxIn>)
    ensures LookedUp(env, db, queue, queued, vin[..0], map[])
  {
  }

  lemma NotKnown(env: Env, db: Index, queue: Index, queued: bool, vin: seq<TxIn>, i: nat)
    requires i < |vin| && Lookup(env, db, queue, queued, vin[i].prevout.hash).None?
    ensures !Known(env, db, queue, queued, vin) && !KnownInRange(env, db, queue, queued, vin)
  {
    hide Lookup;
  }

  lemma AllKnown(env: Env, db: Index, queue: Index, queued: bool, vin: seq<TxIn>, inputs: MapPrevTx)
    requires LookedUp(env, db, queue, queued, vin, inputs)
    ensures Known(env, db, queue, queued, vin) && forall i :: 0 <= i < |vin| ==> vin[i].prevout.hash in inputs
    ensures KnownInRange(env, db, queue, queued, vin) <==>
            forall i :: 0 <= i < |vin| ==> InRange(inputs[vin[i].prevout.hash], vin[i].prevout.n)
  {
    hide Lookup, InRange;
    assert forall i :: 0 <= i < |vin| ==>
      Lookup(env, db, queue, queued, vin[i].prevout.hash) == Some(inputs[vin[i].prevout.hash]);
  }

  lemma NextLookedUp(env: Env, db: Index, queue: Index, queued: bool, vin: seq<TxIn>, i: nat, was: MapPrevTx,
      inputs: MapPrevTx)
    requires i < |vin| && LookedUp(env, db, queue, queued, vin[..i], was)
    requires var h := vin[i].prevout.hash;
      if h in was then inputs == was
      else h in inputs && inputs == was[h := inputs[h]] && Lookup(env, db, queue, queued, h) == Some(inputs[h])
    ensures LookedUp(env, db, queue, queued, vin[..i + 1], inputs)
  {
    hide Lookup;
    var a, b := vin[..i + 1], vin[..i];
    assert a[i] == vin[i];
    forall j | 0 <= j < i ensures a[j] == b[j] {}
    forall h | h in inputs && h != vin[i].prevout.hash ensures exists j :: 0 <= j < |a| && a[j].prevout.hash == h {
      assert h in was;
      var j :| 0 <= j < |b| && b[j].prevout.hash == h;
      assert a[j] == b[j];
    }
  }

  /** Reads one input's record, and then its transaction. */
  method FetchOne(env: Env, db: TxDB, queue: Index, queued: bool, h: Hash) returns (found: Option<Prev>)
    ensures found == Lookup(env, db.Current().txs, queue, queued, h)
  {
    var txindex;
    if queued && h in queue {
      txindex := Some(queue[h]);
    } else {
      txindex := db.ReadTxIndex(h);
    }
    if txindex.None? && queued { return None; }
    if txindex.None? || txindex.value.pos == MEMORY_POS {
      if h !in env.mempool { return None; }
      var txPrev := env.mempool[h];
      var e := if txindex.None? then Fresh(NullPos, |txPrev.vout|) else txindex.value;
      return Some(Prev(e, txPrev));
    }
    return WithTx(env, h, txindex.value);
  }

  /* ---- connecting inputs ---- */

  /** Walks back from the block being connected, at most COINBASE_MATURITY blocks. */
  method IsImmature(pindexBlock: BlockIndex, pos: DiskTxPos) returns (r: bool)
    requires pindexBlock.Linked() && pos != NullPos
    ensures r == Immature(Recs(pindexBlock.Line()), pos)
  {
    ghost var path := Recs(pindexBlock.Line());
    var pindex: BlockIndex? := pindexBlock;
    ghost var k := |path|;
    while pindex != null && pindexBlock.rec.nHeight - pindex.rec.nHeight < COINBASE_MATURITY
      invariant 0 <= k <= |path|
      invariant pindex == null <==> k == 0
      invariant pindex != null ==> pindex.Linked() && Recs(pindex.Line()) == path[..k]
      invariant forall j :: k <= j < |path| && |path| - j <= COINBASE_MATURITY ==>
        !(path[j].nBlockPos == pos.nBlockPos && path[j].nFile == pos.nFile)
      decreases k
    {
      assert path[k - 1] == path[..k][k - 1] == pindex.rec;
      if pindex.rec.nBlockPos == pos.nBlockPos && pindex.rec.nFile == pos.nFile {
        return true;
      }
      if pindex.pprev != null {
        assert Recs(pindex.pprev.Line()) == path[..k][..k - 1] == path[..k - 1];
      }
      pindex := pindex.pprev;
      k := k - 1;
    }
    r := false;
  }

  /** The records of the inputs after the first inputs have been marked. */
  ghost predicate Marked(env: Env, view: Index, ops: set<OutPoint>, pos: DiskTxPos, inputs: MapPrevTx) {
    && inputs.Keys <= view.Keys
    && (forall h :: h in inputs ==> inputs[h].index == MarkEntry(h, view[h], ops, pos))
    && (forall h :: h in inputs ==> TxAt(env, h, view[h].pos) == Some(inputs[h].tx))
  }

  /** The queued records laid over the database give the marked index. */
  ghost predicate Queued(db: Index, queue: Index, view: Index, ops: set<OutPoint>, pos: DiskTxPos) {
    db + queue == Mark(view, ops, pos)
  }

  /** The cheap tests of one input; nValueIn' is the running total. */
  method CheckInput(env: Env, ghost view: Index, ghost ctx: Ctx, tx: Tx, i: nat, inputs: MapPrevTx,
                    pindexBlock: BlockIndex, nValueIn: int)
    returns (ok: bool, nValueIn': int)
    requires pindexBlock.Linked() && ctx.path == Recs(pindexBlock.Line()) && i < |tx.vin|
    requires AllFound(env, view, tx.vin) && Fetched(env, view, tx.vin, inputs)
    requires nValueIn == ValueIn(env, view, tx.vin[..i])
    ensures ok ==> nValueIn' == ValueIn(env, view, tx.vin[..i + 1]) && MoneyRange(nValueIn')
    ensures ok ==> CheapOk(env, ctx, view, tx.vin[i].prevout)
    ensures !ok ==> !Spendable(env, ctx, view, tx)
  {
    var op := tx.vin[i].prevout;
    var prev := inputs[op.hash];
    assert Found(env, view, op);
    nValueIn' := nValueIn;
    if op.n >= |prev.tx.vout| || op.n >= |prev.index.vSpent| {
      return false, nValueIn;
    }
    if prev.tx.IsCoinBase() {
      var immature := IsImmature(pindexBlock, prev.index.pos);
      if immature {
        assert !InputOk(env, ctx, view, tx, i);
        return false, nValueIn;
      }
    }
    nValueIn' := nValueIn + prev.tx.vout[op.n].nValue;
    assert tx.vin[..i + 1][..i] == tx.vin[..i];
    if !MoneyRange(prev.tx.vout[op.n].nValue) || !MoneyRange(nValueIn') {
      assert !MoneyRange(prev.tx.vout[op.n].nValue) ==> !InputOk(env, ctx, view, tx, i);
      return false, nValueIn';
    }
    ok := true;
  }

  /** The cheap tests on every input; returns the value of the inputs. */
  method CheckInputs(env: Env, ghost view: Index, ghost ctx: Ctx, tx: Tx, inputs: MapPrevTx, pindexBlock: BlockIndex)
    returns (ok: bool, nValueIn: int)
    requires pindexBlock.Linked() && ctx.path == Recs(pindexBlock.Line())
    requires AllFound(env, view, tx.vin) && Fetched(env, view, tx.vin, inputs)
    ensures !ok ==> !Spendable(env, ctx, view, tx)
    ensures ok ==> nValueIn == ValueIn(env, view, tx.vin)
    ensures ok ==> forall i :: 0 <= i <= |tx.vin| ==> MoneyRange(ValueIn(env, view, tx.vin[..i]))
    ensures ok ==> forall i :: 0 <= i < |tx.vin| ==> CheapOk(env, ctx, view, tx.vin[i].prevout)
  {
    hide Spendable, Fetched, CheapOk, AllFound, Found, ValueIn, MoneyRange;
    nValueIn := 0;
    var i := 0;
    AllFoundParts(env, view, tx.vin);
    NoValue(env, view, tx.vin);
    while i < |tx.vin|
      invariant 0 <= i <= |tx.vin|
      invariant nValueIn == ValueIn(env, view, tx.vin[..i])
      invariant forall j :: 0 <= j <= i ==> MoneyRange(ValueIn(env, view, tx.vin[..j]))
      invariant forall j :: 0 <= j < i ==> CheapOk(env, ctx, view, tx.vin[j].prevout)
    {
      ok, nValueIn := CheckInput(env, view, ctx, tx, i, inputs, pindexBlock, nValueIn);
      if !ok { return; }
      i := i + 1;
    }
    assert tx.vin[..i] == tx.vin;
    ok := true;
  }

  lemma AllFoundParts(env: Env, view: Index, vin: seq<TxIn>)
    requires AllFound(env, view, vin)
    ensures forall i :: 0 <= i <= |vin| ==> AllFound(env, view, vin[..i])
    ensures forall i :: 0 <= i < |vin| ==> Found(env, view, vin[i].prevout)
  {
  }

  lemma NoValue(env: Env, view: Index, vin: seq<TxIn>)
    requires AllFound(env, view, vin[..0])
    ensures ValueIn(env, view, vin[..0]) == 0 && MoneyRange(0)
  {
  }

  predicate CheapOk(env: Env, ctx: Ctx, view: Index, op: OutPoint)
    requires Found(env, view, op)
  {
    && !(PrevTx(env, view, op).IsCoinBase() && Immature(ctx.path, view[op.hash].pos))
    && MoneyRange(PrevOut(env, view, op).nValue)
  }

  /** Where the marking loop stands after i inputs. */
  ghost predicate MarkLoop(env: Env, db: Index, queue: Index, view: Index, vin: seq<TxIn>, i: nat, pos: DiskTxPos,
      inputs: MapPrevTx)
    requires i <= |vin|
  {
    && Marked(env, view, OpsOf(vin[..i]), pos, inputs)
    && Queued(db, queue, view, OpsOf(vin[..i]), pos)
    && DistinctInputs(vin[..i])
  }

  /** The signature of the input has been verified against the transaction it names. */
  predicate Signed(env: Env, view: Index, tx: Tx, i: nat, strict: bool) {
    && i < |tx.vin| && Found(env, view, tx.vin[i].prevout)
    && env.verifySignature(PrevTx(env, view, tx.vin[i].prevout), tx, i, strict)
  }

  /** The expensive tests of one input, and its mark: made in the fetched record and copied to the queue. */
  method MarkInput(env: Env, ghost db: Index, ghost view: Index, ghost ctx: Ctx, skipSigs: bool, strict: bool,
                   tx: Tx, i: nat, pos: DiskTxPos, inputs: MapPrevTx, queue: Index)
    returns (ok: bool, inputs': MapPrevTx, queue': Index)
    requires i < |tx.vin| && pos != NullPos && ctx.skipSigs == skipSigs && ctx.strict == strict
    requires Found(env, view, tx.vin[i].prevout) && CheapOk(env, ctx, view, tx.vin[i].prevout)
    requires tx.vin[i].prevout.hash in inputs && MarkLoop(env, db, queue, view, tx.vin, i, pos, inputs)
    ensures ok ==> InputOk(env, ctx, view, tx, i)
    ensures ok && !skipSigs ==> Signed(env, view, tx, i, strict)
    ensures ok ==> inputs'.Keys == inputs.Keys && MarkLoop(env, db, queue', view, tx.vin, i + 1, pos, inputs')
    ensures !ok ==> !DistinctInputs(tx.vin) || !InputOk(env, ctx, view, tx, i)
  {
    var op := tx.vin[i].prevout;
    var prev := inputs[op.hash];
    inputs', queue' := inputs, queue;
    SpentTest(env, ctx, view, tx, i, pos, inputs);
    if prev.index.vSpent[op.n] != NullPos {
      return false, inputs, queue;
    }
    if !skipSigs && !env.verifySignature(prev.tx, tx, i, strict) {
      return false, inputs, queue;
    }
    MarkStep(env, db, queue, view, tx.vin, i, pos, inputs);
    var marked := TxIndex(prev.index.pos, prev.index.vSpent[op.n := pos]);
    inputs' := inputs[op.hash := Prev(marked, prev.tx)];
    queue' := queue[op.hash := marked];
    ok := true;
  }

  /** Two inputs that name the same outpoint are caught here, by the mark the first one left. */
  method MarkInputs(env: Env, ghost db: Index, ghost ctx: Ctx, skipSigs: bool, strict: bool, tx: Tx, pos: DiskTxPos,
                    inputs0: MapPrevTx, queue0: Index)
    returns (ok: bool, queue: Index)
    requires pos != NullPos && ctx.skipSigs == skipSigs && ctx.strict == strict
    requires AllFound(env, db + queue0, tx.vin) && Fetched(env, db + queue0, tx.vin, inputs0)
    requires forall i :: 0 <= i < |tx.vin| ==> CheapOk(env, ctx, db + queue0, tx.vin[i].prevout)
    ensures ok == (DistinctInputs(tx.vin) && forall i :: 0 <= i < |tx.vin| ==> InputOk(env, ctx, db + queue0, tx, i))
    ensures ok ==> Queued(db, queue, db + queue0, OpsOf(tx.vin), pos)
    ensures ok && !skipSigs ==> forall i :: 0 <= i < |tx.vin| ==> Signed(env, db + queue0, tx, i, strict)
  {
    hide Signed, InputOk, CheapOk, Fetched, AllFound, Found, MarkLoop, Queued, DistinctInputs;
    ghost var view := db + queue0;
    var inputs := inputs0;
    queue := queue0;
    AllFoundParts(env, view, tx.vin);
    MarkBegins(env, db, queue, tx.vin, pos, inputs);
    var i := 0;
    while i < |tx.vin|
      invariant 0 <= i <= |tx.vin|
      invariant inputs.Keys == inputs0.Keys
      invariant MarkLoop(env, db, queue, view, tx.vin, i, pos, inputs)
      invariant forall j :: 0 <= j < i ==> InputOk(env, ctx, view, tx, j)
      invariant !skipSigs ==> forall j :: 0 <= j < i ==> Signed(env, view, tx, j, strict)
    {
      ok, inputs, queue := MarkInput(env, db, view, ctx, skipSigs, strict, tx, i, pos, inputs, queue);
      if !ok { return; }
      i := i + 1;
    }
    MarkEnds(env, db, queue, view, tx.vin, pos, inputs);
    ok := true;
  }

  lemma MarkBegins(env: Env, db: Index, queue: Index, vin: seq<TxIn>, pos: DiskTxPos, inputs: MapPrevTx)
    requires Fetched(env, db + queue, vin, inputs)
    ensures MarkLoop(env, db, queue, db + queue, vin, 0, pos, inputs)
    ensures forall i :: 0 <= i < |vin| ==> vin[i].prevout.hash in inputs
  {
    hide Mark, MarkEntry;
    NothingMarked(env, db + queue, inputs, pos);
    assert OpsOf(vin[..0]) == {};
  }

  lemma MarkEnds(env: Env, db: Index, queue: Index, view: Index, vin: seq<TxIn>, pos: DiskTxPos, inputs: MapPrevTx)
    requires MarkLoop(env, db, queue, view, vin, |vin|, pos, inputs)
    ensures Queued(db, queue, view, OpsOf(vin), pos) && DistinctInputs(vin)
  {
    hide Queued, Marked;
    assert vin[..|vin|] == vin;
  }

  lemma NothingMarked(env: Env, view: Index, inputs: MapPrevTx, pos: DiskTxPos)
    requires forall h :: h in inputs ==>
      h in view && inputs[h].index == view[h] && TxAt(env, h, view[h].pos) == Some(inputs[h].tx)
    ensures Marked(env, view, {}, pos, inputs) && Mark(view, {}, pos) == view
  {
    forall h | h in view ensures MarkEntry(h, view[h], {}, pos) == view[h] {
      assert MarkEntry(h, view[h], {}, pos).vSpent == view[h].vSpent;
    }
  }

  /** The mark in the fetched record is null exactly when the output is unspent in the index and
      not named by an earlier input. */
  lemma SpentTest(env: Env, ctx: Ctx, view: Index, tx: Tx, i: nat, pos: DiskTxPos, inputs: MapPrevTx)
    requires i < |tx.vin| && pos != NullPos && Found(env, view, tx.vin[i].prevout) && tx.vin[i].prevout.hash in inputs
    requires Marked(env, view, OpsOf(tx.vin[..i]), pos, inputs)
    ensures var op := tx.vin[i].prevout; var prev := inputs[op.hash];
      && op.n < |prev.index.vSpent| && prev.tx == PrevTx(env, view, op)
      && (prev.index.vSpent[op.n] == NullPos ==> op !in OpsOf(tx.vin[..i]) && view[op.hash].vSpent[op.n] == NullPos)
      && (prev.index.vSpent[op.n] != NullPos ==> !DistinctInputs(tx.vin) || !InputOk(env, ctx, view, tx, i))
  {
    var op := tx.vin[i].prevout;
    if op in OpsOf(tx.vin[..i]) {
      var j :| 0 <= j < i && tx.vin[..i][j].prevout == op;
      assert tx.vin[j].prevout == tx.vin[i].prevout;
    }
  }

  lemma MarkStep(env: Env, db: Index, queue: Index, view: Index, vin: seq<TxIn>, i: nat, pos: DiskTxPos,
      inputs: MapPrevTx)
    requires i < |vin| && pos != NullPos && Found(env, view, vin[i].prevout) && vin[i].prevout.hash in inputs
    requires Marked(env, view, OpsOf(vin[..i]), pos, inputs) && Queued(db, queue, view, OpsOf(vin[..i]), pos)
    requires DistinctInputs(vin[..i]) && vin[i].prevout !in OpsOf(vin[..i])
    ensures var op := vin[i].prevout;
      var e := inputs[op.hash].index;
      var marked := TxIndex(e.pos, e.vSpent[op.n := pos]);
      && Marked(env, view, OpsOf(vin[..i + 1]), pos, inputs[op.hash := Prev(marked, inputs[op.hash].tx)])
      && Queued(db, queue[op.hash := marked], view, OpsOf(vin[..i + 1]), pos)
    ensures DistinctInputs(vin[..i + 1])
  {
    hide OpsOf, DistinctInputs, MarkEntry;
    var op, ops := vin[i].prevout, OpsOf(vin[..i]);
    MarkLength(op.hash, view[op.hash], ops, pos);
    DistinctStep(vin, i);
    MarkEntryStep(view, ops, op, pos);
    QueueStep(db, queue, view, ops, op, pos);
  }

  lemma QueueStep(db: Index, queue: Index, view: Index, ops: set<OutPoint>, op: OutPoint, pos: DiskTxPos)
    requires Queued(db, queue, view, ops, pos) && op.hash in view && op.n < |view[op.hash].vSpent|
    ensures |MarkEntry(op.hash, view[op.hash], ops, pos).vSpent| == |view[op.hash].vSpent|
    ensures var e := MarkEntry(op.hash, view[op.hash], ops, pos);
      Queued(db, queue[op.hash := TxIndex(e.pos, e.vSpent[op.n := pos])], view, ops + {op}, pos)
  {
    hide MarkEntry, Mark;
    MarkLength(op.hash, view[op.hash], ops, pos);
    var e := MarkEntry(op.hash, view[op.hash], ops, pos);
    var marked := TxIndex(e.pos, e.vSpent[op.n := pos]);
    MarkAlso(view, ops, op, pos, marked);
    assert db + queue[op.hash := marked] == (db + queue)[op.hash := marked];
  }

  lemma MarkAlso(view: Index, ops: set<OutPoint>, op: OutPoint, pos: DiskTxPos, marked: TxIndex)
    requires op.hash in view && op.n < |view[op.hash].vSpent|
    requires |MarkEntry(op.hash, view[op.hash], ops, pos).vSpent| == |view[op.hash].vSpent|
    requires var e := MarkEntry(op.hash, view[op.hash], ops, pos); marked == TxIndex(e.pos, e.vSpent[op.n := pos])
    ensures Mark(view, ops + {op}, pos) == Mark(view, ops, pos)[op.hash := marked]
  {
    hide MarkEntry;
    MarkEntryStep(view, ops, op, pos);
    var a, b := Mark(view, ops + {op}, pos), Mark(view, ops, pos)[op.hash := marked];
    assert forall h :: h in a <==> h in view;
    assert forall h :: h in b <==> h in view;
    forall h | h in view ensures a[h] == b[h] {}
  }

  lemma MarkLength(h: Hash, e: TxIndex, ops: set<OutPoint>, pos: DiskTxPos)
    ensures |MarkEntry(h, e, ops, pos).vSpent| == |e.vSpent|
  {
  }

  lemma DistinctStep(vin: seq<TxIn>, i: nat)
    requires i < |vin| && DistinctInputs(vin[..i]) && vin[i].prevout !in OpsOf(vin[..i])
    ensures DistinctInputs(vin[..i + 1])
    ensures OpsOf(vin[..i + 1]) == OpsOf(vin[..i]) + {vin[i].prevout}
  {
    assert vin[..i + 1][..i] == vin[..i];
    OpsSnoc(vin[..i + 1]);
    forall j | 0 <= j < i ensures vin[j].prevout != vin[i].prevout { assert vin[..i][j].prevout in OpsOf(vin[..i]); }
  }

  /** One more marked outpoint changes one mark of one record. */
  lemma MarkEntryStep(view: Index, ops: set<OutPoint>, op: OutPoint, pos: DiskTxPos)
    requires op.hash in view && op.n < |view[op.hash].vSpent|
    ensures forall h :: h in view && h != op.hash ==>
      MarkEntry(h, view[h], ops + {op}, pos) == MarkEntry(h, view[h], ops, pos)
    ensures var e := MarkEntry(op.hash, view[op.hash], ops, pos);
      MarkEntry(op.hash, view[op.hash], ops + {op}, pos) == TxIndex(e.pos, e.vSpent[op.n := pos])
  {
    forall h | h in view && h != op.hash
      ensures MarkEntry(h, view[h], ops + {op}, pos) == MarkEntry(h, view[h], ops, pos)
    {
      assert MarkEntry(h, view[h], ops + {op}, pos).vSpent == MarkEntry(h, view[h], ops, pos).vSpent;
    }
    var e := MarkEntry(op.hash, view[op.hash], ops, pos);
    assert MarkEntry(op.hash, view[op.hash], ops + {op}, pos).vSpent == e.vSpent[op.n := pos];
  }

  method ConnectInputs(env: Env, ghost db: Index, ghost ctx: Ctx, skipSigs: bool, strict: bool, tx: Tx, pos: DiskTxPos,
                       inputs: MapPrevTx, queue0: Index, pindexBlock: BlockIndex)
    returns (ok: bool, queue: Index)
    requires pos != NullPos && ctx.skipSigs == skipSigs && ctx.strict == strict
    requires pindexBlock.Linked() && ctx.path == Recs(pindexBlock.Line())
    requires !tx.IsCoinBase() ==> AllFound(env, db + queue0, tx.vin) && Fetched(env, db + queue0, tx.vin, inputs)
    requires ValueOutInRange(tx.vout)
    ensures tx.IsCoinBase() ==> ok && queue == queue0
    ensures !tx.IsCoinBase() ==> ok == Spendable(env, ctx, db + queue0, tx)
    ensures !tx.IsCoinBase() && ok ==> db + queue == Mark(db + queue0, OpsOf(tx.vin), pos)
    ensures !tx.IsCoinBase() && ok && !skipSigs ==>
      forall i :: 0 <= i < |tx.vin| ==> Signed(env, db + queue0, tx, i, strict)
  {
    hide Signed;
    queue := queue0;
    if tx.IsCoinBase() { return true, queue; }
    var nValueIn;
    ok, nValueIn := CheckInputs(env, db + queue0, ctx, tx, inputs, pindexBlock);
    if !ok { return; }
    ok, queue := MarkInputs(env, db, ctx, skipSigs, strict, tx, pos, inputs, queue0);
    if !ok { return; }
    var out := GetValueOut(tx);
    var nValueOut := out.value;
    var nTxFee := nValueIn - nValueOut;
    ok := nValueIn >= nValueOut && nTxFee >= 0 && MoneyRange(nTxFee);
  }

  /** The sum of the outputs, unless an amount or a running total leaves the money range. */
  method GetValueOut(tx: Tx) returns (r: Option<int>)
    ensures r == if ValueOutInRange(tx.vout) then Some(ValueOut(tx.vout)) else None
  {
    var nValueOut := 0;
    var i := 0;
    while i < |tx.vout|
      invariant 0 <= i <= |tx.vout| && nValueOut == ValueOut(tx.vout[..i])
      invariant forall j :: 0 <= j < i ==> MoneyRange(tx.vout[j].nValue) && MoneyRange(ValueOut(tx.vout[..j + 1]))
    {
      assert tx.vout[..i + 1][..i] == tx.vout[..i];
      nValueOut := nValueOut + tx.vout[i].nValue;
      if !MoneyRange(tx.vout[i].nValue) || !MoneyRange(nValueOut) { return None; }
      i := i + 1;
    }
    assert tx.vout[..i] == tx.vout;
    r := Some(nValueOut);
  }

  method GetValueIn(env: Env, ghost view: Index, tx: Tx, inputs: MapPrevTx) returns (nResult: int)
    requires !tx.IsCoinBase() ==> AllFound(env, view, tx.vin) && Fetched(env, view, tx.vin, inputs)
    ensures nResult == if tx.IsCoinBase() then 0 else ValueIn(env, view, tx.vin)
  {
    nResult := 0;
    if tx.IsCoinBase() { return; }
    var i := 0;
    while i < |tx.vin|
      invariant 0 <= i <= |tx.vin| && nResult == ValueIn(env, view, tx.vin[..i])
    {
      assert tx.vin[..i + 1][..i] == tx.vin[..i];
      assert Found(env, view, tx.vin[i].prevout);
      nResult := nResult + inputs[tx.vin[i].prevout.hash].tx.vout[tx.vin[i].prevout.n].nValue;
      i := i + 1;
    }
    assert tx.vin[..i] == tx.vin;
  }
}
