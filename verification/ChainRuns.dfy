/** Whole runs of connects and disconnects. After any run the index holds no more value than the subsidies
    of the current chain; and if no live record was overwritten, which BIP 30 sees to, it has the unspent
    outputs that replaying ConnectBlock from genesis along that chain would give. */
module ChainRuns {
  import opened Basics
  import opened ChainModel
  import opened ChainLaws
  import opened ChainSupply

  datatype Event = Connect(b: BlockRec, skipSigs: bool) | Disconnect

  /** The index and the blocks it reflects, genesis first. Genesis itself is never connected. */
  datatype State = State(idx: Index, chain: seq<BlockRec>)

  function Step(env: Env, s: State, e: Event): Option<State> {
    match e
    case Connect(b, skipSigs) =>
      (match ConnectBlock(env, s.chain, skipSigs, s.idx, b)
       case None => None
       case Some(idx) => Some(State(idx, s.chain + [b])))
    case Disconnect =>
      if |s.chain| <= 1 then None
      else match DisconnectBlock(s.idx, s.chain[|s.chain| - 1].block)
        case None => None
        case Some(idx) => Some(State(idx, s.chain[..|s.chain| - 1]))
  }

  /** The state after the events, each of which must succeed. */
  function Run(env: Env, genesis: BlockRec, es: seq<Event>): Option<State> {
    if es == [] then Some(State(map[], [genesis]))
    else match Run(env, genesis, es[..|es| - 1])
      case None => None
      case Some(s) => Step(env, s, es[|es| - 1])
  }

  /** ConnectBlock replayed along a chain, genesis excepted, on an empty index. */
  function Replay(env: Env, chain: seq<BlockRec>): Option<Index>
    requires chain != []
  {
    if |chain| == 1 then Some(map[])
    else match Replay(env, chain[..|chain| - 1])
      case None => None
      case Some(idx) => ConnectBlock(env, chain[..|chain| - 1], true, idx, chain[|chain| - 1])
  }

  function Subsidies(env: Env, chain: seq<BlockRec>): nat
    requires chain != []
  {
    if |chain| == 1 then 0 else Subsidies(env, chain[..|chain| - 1]) + env.subsidy(chain[|chain| - 1].nHeight)
  }

  /** The block was written to the block files first, and is dated after BIP 30 came into force. */
  predicate Legit(env: Env, b: BlockRec) { Stored(env, b) && EnforceBIP30(b) }

  /** A connected block is in the block files; it is dated after BIP 30 came into force, or no record
      with an unspent output has the identifier of one of its transactions. */
  predicate LegitStep(env: Env, s: State, e: Event) {
    e.Connect? ==> Stored(env, e.b) && (EnforceBIP30(e.b) || NoLiveOverwrite(s.idx, e.b.block.vtx))
  }

  predicate LegitRun(env: Env, genesis: BlockRec, es: seq<Event>) {
    es == [] ||
    (LegitRun(env, genesis, es[..|es| - 1]) &&
     match Run(env, genesis, es[..|es| - 1]) case None => true case Some(s) => LegitStep(env, s, es[|es| - 1]))
  }

  /** Each block of the chain is in the block files and, when the chain is replayed, overwrites no live record. */
  predicate Safe(env: Env, chain: seq<BlockRec>)
    requires chain != []
  {
    var m := |chain| - 1;
    m == 0 ||
    (Safe(env, chain[..m]) && Stored(env, chain[m]) &&
     match Replay(env, chain[..m]) case None => false case Some(idx) => NoLiveOverwrite(idx, chain[m].block.vtx))
  }

  ghost predicate Inv(env: Env, s: State) {
    && s.chain != [] && Safe(env, s.chain)
    && Replay(env, s.chain).Some?
    && Prunes(s.idx, Replay(env, s.chain).value)
  }

  lemma PrunesOverwrite(idx: Index, full: Index, vtx: seq<Tx>)
    requires Prunes(idx, full) && NoLiveOverwrite(idx, vtx)
    ensures NoLiveOverwrite(full, vtx)
  {
    forall i | 0 <= i < |vtx| && vtx[i].hash in full ensures !Live(full[vtx[i].hash]) {
      if vtx[i].hash in idx { assert full[vtx[i].hash] == idx[vtx[i].hash]; }
    }
  }

  lemma {:induction false} StepKeepsInv(env: Env, s: State, e: Event)
    requires Inv(env, s) && Step(env, s, e).Some? && LegitStep(env, s, e)
    ensures Inv(env, Step(env, s, e).value)
  {
    hide Inv, NoLiveOverwrite, Stored, EnforceBIP30;
    match e
    case Connect(b, skipSigs) => ConnectKeepsInv(env, s, b, skipSigs);
    case Disconnect => DisconnectKeepsInv(env, s);
  }

  lemma ConnectKeepsInv(env: Env, s: State, b: BlockRec, skipSigs: bool)
    requires Inv(env, s) && ConnectBlock(env, s.chain, skipSigs, s.idx, b).Some?
    requires Stored(env, b) && (EnforceBIP30(b) || NoLiveOverwrite(s.idx, b.block.vtx))
    ensures Inv(env, State(ConnectBlock(env, s.chain, skipSigs, s.idx, b).value, s.chain + [b]))
  {
    hide NoLiveOverwrite, Stored, EnforceBIP30, ChainModel.ConnectBlock, Prunes;
    assert (s.chain + [b])[..|s.chain|] == s.chain;
    SkipSigsKeepsResult(env, s.chain, skipSigs, s.idx, b);
    ConnectSeesOnlyUnspent(env, s.chain, true, s.idx, Replay(env, s.chain).value, b);
    if EnforceBIP30(b) { DisconnectUndoesConnectBIP30(env, s.chain, true, s.idx, b); }
    PrunesOverwrite(s.idx, Replay(env, s.chain).value, b.block.vtx);
  }

  lemma DisconnectKeepsInv(env: Env, s: State)
    requires Inv(env, s) && |s.chain| > 1 && DisconnectBlock(s.idx, s.chain[|s.chain| - 1].block).Some?
    ensures Inv(env, State(DisconnectBlock(s.idx, s.chain[|s.chain| - 1].block).value, s.chain[..|s.chain| - 1]))
  {
    hide NoLiveOverwrite, Stored, ChainModel.ConnectBlock, ChainModel.DisconnectBlock, Prunes;
    var chain, b := s.chain[..|s.chain| - 1], s.chain[|s.chain| - 1];
    var before, full := Replay(env, chain).value, Replay(env, s.chain).value;
    DisconnectUndoesConnect(env, chain, true, before, b);
    DisconnectSeesOnlyUnspent(s.idx, full, b.block);
    WithoutSpent(before, b.block.vtx);
    PrunesTransitive(DisconnectBlock(s.idx, b.block).value, DisconnectBlock(full, b.block).value, before);
  }

  lemma WithoutSpent(idx: Index, vtx: seq<Tx>)
    requires NoLiveOverwrite(idx, vtx)
    ensures Prunes(idx - Ids(vtx), idx)
  {
  }

  lemma {:induction false} RunKeepsInv(env: Env, genesis: BlockRec, es: seq<Event>)
    requires LegitRun(env, genesis, es) && Run(env, genesis, es).Some?
    ensures Inv(env, Run(env, genesis, es).value)
  {
    hide LegitStep;
    if es != [] {
      RunKeepsInv(env, genesis, es[..|es| - 1]);
      StepKeepsInv(env, Run(env, genesis, es[..|es| - 1]).value, es[|es| - 1]);
    }
  }

  lemma EmptyIsOk(env: Env)
    ensures IndexOk(env, map[]) && Total(env, map[]) == 0
  {
  }

  lemma {:induction false} ReplayBuilds(env: Env, chain: seq<BlockRec>)
    requires chain != [] && Safe(env, chain) && Replay(env, chain).Some?
    ensures Built(env, chain, Replay(env, chain).value)
  {
    hide Stored, NoLiveOverwrite, ChainModel.ConnectBlock;
    if |chain| > 1 {
      var m := |chain| - 1;
      ReplayBuilds(env, chain[..m]);
      BuiltNext(env, chain[..m], true, Replay(env, chain[..m]).value, chain[m]);
      assert chain[..m] + [chain[m]] == chain;
    }
  }

  /** In a state with the invariant, replaying the chain from genesis gives the same unspent outputs. */
  lemma InvMeans(env: Env, s: State)
    requires Inv(env, s)
    ensures SameUnspent(s.idx, Replay(env, s.chain).value) && Built(env, s.chain, s.idx)
  {
    hide Safe, Replay, Built;
    var full := Replay(env, s.chain).value;
    PrunesSameUnspent(s.idx, full);
    ReplayBuilds(env, s.chain);
    BuiltPart(env, s.chain, full, s.idx);
  }

  /** After any run of legitimate steps the chain replays from genesis, and replaying it gives the same
      unspent outputs. */
  lemma {:induction false} RunAgreesWithReplay(env: Env, genesis: BlockRec, es: seq<Event>, s: State)
    requires LegitRun(env, genesis, es) && Run(env, genesis, es) == Some(s)
    ensures s.chain != [] && Replay(env, s.chain).Some?
    ensures SameUnspent(s.idx, Replay(env, s.chain).value)
  {
    RunKeepsInv(env, genesis, es);
    InvMeans(env, s);
  }

  /* ---- the supply, whatever was overwritten ---- */

  /** The first index holds some of the records of the second. */
  predicate Part(idx: Index, full: Index) {
    forall h :: h in idx ==> h in full && idx[h] == full[h]
  }

  /** The index holds some of the records that connecting the last block of the chain made out of an index
      built in the same way for the blocks before it. */
  ghost predicate Built(env: Env, chain: seq<BlockRec>, idx: Index)
    requires chain != []
    decreases |chain|
  {
    var m := |chain| - 1;
    if m == 0 then idx == map[]
    else Stored(env, chain[m]) && exists db, skipSigs ::
      Built(env, chain[..m], db) && ConnectGives(env, chain[..m], skipSigs, db, chain[m], idx)
  }

  predicate ConnectGives(env: Env, path: seq<BlockRec>, skipSigs: bool, db: Index, b: BlockRec, idx: Index) {
    match ChainModel.ConnectBlock(env, path, skipSigs, db, b) case None => false case Some(full) => Part(idx, full)
  }

  lemma BuiltNext(env: Env, chain: seq<BlockRec>, skipSigs: bool, db: Index, b: BlockRec)
    requires chain != [] && Built(env, chain, db) && Stored(env, b) && ConnectBlock(env, chain, skipSigs, db, b).Some?
    ensures Built(env, chain + [b], ConnectBlock(env, chain, skipSigs, db, b).value)
  {
    hide Stored, ChainModel.ConnectBlock;
    assert (chain + [b])[..|chain|] == chain;
    assert ConnectGives(env, chain, skipSigs, db, b, ConnectBlock(env, chain, skipSigs, db, b).value);
  }

  lemma BuiltPart(env: Env, chain: seq<BlockRec>, full: Index, idx: Index)
    requires chain != [] && Built(env, chain, full) && Part(idx, full)
    ensures Built(env, chain, idx)
  {
    hide Stored, ChainModel.ConnectBlock;
    var m := |chain| - 1;
    if m > 0 {
      var db, skipSigs :| Built(env, chain[..m], db) && ConnectGives(env, chain[..m], skipSigs, db, chain[m], full);
      assert ConnectGives(env, chain[..m], skipSigs, db, chain[m], idx);
    } else {
      assert idx == map[];
    }
  }

  /** Undoing one transaction gives back only records that were there before it was connected. */
  lemma PartUndoTx(env: Env, ctx: Ctx, db: Index, a: Acc, tx: Tx, pos: DiskTxPos, bip30: bool, idx: Index)
    requires pos != NullPos && ConnectTx(env, ctx, db, a, tx, pos, bip30).Some? && DisconnectTx(idx, tx).Some?
    requires Part(idx, ConnectTx(env, ctx, db, a, tx, pos, bip30).value.view)
    ensures Part(DisconnectTx(idx, tx).value, a.view)
  {
    ConnectTxAvailable(env, ctx, db, a, tx, pos, bip30);
    var d := DisconnectTx(idx, tx).value;
    hide ChainModel.ConnectTx;
    if !tx.IsCoinBase() {
      forall h | h in d ensures h in a.view && d[h] == a.view[h] {
        assert idx[h] == MarkEntry(h, a.view[h], OpsOf(tx.vin), pos);
        assert d[h] == MarkEntry(h, idx[h], OpsOf(tx.vin), NullPos);
        assert d[h].vSpent == a.view[h].vSpent;
      }
    }
  }

  lemma {:induction false} PartUndoTxs(env: Env, ctx: Ctx, db: Index, b: BlockRec, idx: Index, k: nat)
    requires k <= |b.block.vtx| && ConnectTxs(env, ctx, db, b, |b.block.vtx|).Some?
    requires Part(idx, ConnectTxs(env, ctx, db, b, |b.block.vtx|).value.view)
    requires DisconnectTxs(idx, b.block.vtx, k).Some?
    ensures ConnectTxs(env, ctx, db, b, k).Some?
    ensures Part(DisconnectTxs(idx, b.block.vtx, k).value, ConnectTxs(env, ctx, db, b, k).value.view)
    decreases |b.block.vtx| - k
  {
    hide Part, ChainModel.ConnectTx, ChainModel.DisconnectTx;
    if k < |b.block.vtx| {
      PartUndoTxs(env, ctx, db, b, idx, k + 1);
      PartUndoTx(env, ctx, db, ConnectTxs(env, ctx, db, b, k).value, b.block.vtx[k], TxPos(b, k), EnforceBIP30(b),
                 DisconnectTxs(idx, b.block.vtx, k + 1).value);
    }
  }

  lemma {:induction false} StepKeepsBuilt(env: Env, s: State, e: Event)
    requires s.chain != [] && Built(env, s.chain, s.idx) && Step(env, s, e).Some? && (e.Connect? ==> Stored(env, e.b))
    ensures Step(env, s, e).value.chain != [] && Built(env, Step(env, s, e).value.chain, Step(env, s, e).value.idx)
  {
    hide Stored, Built;
    match e
    case Connect(b, skipSigs) => BuiltNext(env, s.chain, skipSigs, s.idx, b);
    case Disconnect => DisconnectKeepsBuilt(env, s);
  }

  lemma DisconnectKeepsBuilt(env: Env, s: State)
    requires |s.chain| > 1 && Built(env, s.chain, s.idx) && DisconnectBlock(s.idx, s.chain[|s.chain| - 1].block).Some?
    ensures Built(env, s.chain[..|s.chain| - 1], DisconnectBlock(s.idx, s.chain[|s.chain| - 1].block).value)
  {
    hide Stored, Part, ChainModel.ConnectTxs, ChainModel.DisconnectTxs;
    var m := |s.chain| - 1;
    var b := s.chain[m];
    var db, skipSigs :| Built(env, s.chain[..m], db) && ConnectGives(env, s.chain[..m], skipSigs, db, b, s.idx);
    PartUndo(env, s.chain[..m], skipSigs, db, b, s.idx);
    hide Built;
    BuiltPart(env, s.chain[..m], db, DisconnectBlock(s.idx, b.block).value);
  }

  lemma PartUndo(env: Env, path: seq<BlockRec>, skipSigs: bool, db: Index, b: BlockRec, idx: Index)
    requires ConnectGives(env, path, skipSigs, db, b, idx) && DisconnectBlock(idx, b.block).Some?
    ensures Part(DisconnectBlock(idx, b.block).value, db)
  {
    hide Part, CheckBlock;
    PartUndoTxs(env, BlockCtx(path, b, skipSigs), db, b, idx, 0);
  }

  lemma {:induction false} RunKeepsBuilt(env: Env, genesis: BlockRec, es: seq<Event>)
    requires Run(env, genesis, es).Some? && forall i :: 0 <= i < |es| && es[i].Connect? ==> Stored(env, es[i].b)
    ensures var s := Run(env, genesis, es).value; s.chain != [] && Built(env, s.chain, s.idx)
  {
    hide Stored, Built, Step;
    if es == [] {
      NothingBuilt(env, genesis);
    } else {
      RunKeepsBuilt(env, genesis, es[..|es| - 1]);
      StepKeepsBuilt(env, Run(env, genesis, es[..|es| - 1]).value, es[|es| - 1]);
    }
  }

  lemma NothingBuilt(env: Env, genesis: BlockRec)
    ensures Built(env, [genesis], map[])
  {
  }

  lemma {:induction false} PartTotal(env: Env, idx: Index, full: Index)
    requires IndexOk(env, full) && Part(idx, full)
    ensures IndexOk(env, idx) && Total(env, idx) <= Total(env, full)
    decreases |full|
  {
    hide EntryOk, EntryValue, Live;
    if full == map[] {
      assert idx == map[];
    } else {
      var h :| h in full;
      TotalSplit(env, full, h);
      EntryNonNegative(env, full, h);
      PartTotal(env, idx - {h}, full - {h});
      if h in idx {
        TotalSplit(env, idx, h);
      } else {
        assert idx - {h} == idx;
      }
    }
  }

  lemma {:induction false} BuiltSupply(env: Env, chain: seq<BlockRec>, idx: Index)
    requires chain != [] && Built(env, chain, idx)
    ensures IndexOk(env, idx) && 0 <= Total(env, idx) <= Subsidies(env, chain)
    decreases |chain|
  {
    hide IndexOk, Stored, Part, ChainModel.ConnectBlock;
    var m := |chain| - 1;
    if m == 0 {
      EmptyIsOk(env);
    } else {
      var db, skipSigs :| Built(env, chain[..m], db) && ConnectGives(env, chain[..m], skipSigs, db, chain[m], idx);
      BuiltSupply(env, chain[..m], db);
      ConnectBlockValue(env, chain[..m], skipSigs, db, chain[m]);
      PartTotal(env, idx, ConnectBlock(env, chain[..m], skipSigs, db, chain[m]).value);
      TotalNonNegative(env, idx);
    }
  }

  /** Over every run, even one in which live records are overwritten and lost, the value of the unspent
      outputs never exceeds the subsidies of the chain. */
  lemma {:induction false} RunSupplyBound(env: Env, genesis: BlockRec, es: seq<Event>, s: State)
    requires Run(env, genesis, es) == Some(s) && forall i :: 0 <= i < |es| && es[i].Connect? ==> Stored(env, es[i].b)
    ensures s.chain != [] && IndexOk(env, s.idx) && 0 <= Total(env, s.idx) <= Subsidies(env, s.chain)
  {
    RunKeepsBuilt(env, genesis, es);
    BuiltSupply(env, s.chain, s.idx);
  }

  /* ---- when disconnecting fails ---- */

  /** Every record the block's inputs point at is present. */
  predicate InputsPresent(idx: Index, vtx: seq<Tx>) {
    forall i, j :: 0 <= i < |vtx| && !vtx[i].IsCoinBase() && 0 <= j < |vtx[i].vin| ==> vtx[i].vin[j].prevout.hash in idx
  }

  lemma InputsPresentCons(idx: Index, tx: Tx, vtx: seq<Tx>)
    ensures InputsPresent(idx, [tx] + vtx) <==> InputsPresent(idx, [tx]) && InputsPresent(idx, vtx)
  {
    var all := [tx] + vtx;
    assert all[0] == tx;
    if InputsPresent(idx, all) {
      forall i, j | 0 <= i < |vtx| && !vtx[i].IsCoinBase() && 0 <= j < |vtx[i].vin|
        ensures vtx[i].vin[j].prevout.hash in idx
      {
        assert all[i + 1] == vtx[i];
      }
    }
  }

  lemma {:induction false} DisconnectTxsNeedsInputs(idx: Index, full: Index, vtx: seq<Tx>, k: nat)
    requires k <= |vtx| && Prunes(idx, full) && DisconnectTxs(full, vtx, k).Some?
    ensures DisconnectTxs(idx, vtx, k).Some? <==> InputsPresent(idx, vtx[k..])
    decreases |vtx| - k
  {
    if k < |vtx| {
      DisconnectTxsNeedsInputs(idx, full, vtx, k + 1);
      assert vtx[k..] == [vtx[k]] + vtx[k + 1..];
      InputsPresentCons(idx, vtx[k], vtx[k + 1..]);
      if DisconnectTxs(idx, vtx, k + 1).Some? {
        PrunesDisconnectTxs(idx, full, vtx, k + 1);
        DisconnectErases(idx, vtx, k + 1);
        DisconnectErases(full, vtx, k + 1);
        var d, f := DisconnectTxs(idx, vtx, k + 1).value, DisconnectTxs(full, vtx, k + 1).value;
        if !vtx[k].IsCoinBase() {
          assert Undoable(f, vtx[k].vin);
          assert Undoable(d, vtx[k].vin) <==> InputsPresent(idx, [vtx[k]]);
        }
      }
    }
  }

  /** In a state of a run the tip can be disconnected exactly when every record its inputs point at is
      still in the index. */
  lemma TipUndoneIff(env: Env, s: State)
    requires Inv(env, s) && |s.chain| > 1
    ensures var tip := s.chain[|s.chain| - 1].block;
      DisconnectBlock(s.idx, tip).Some? <==> InputsPresent(s.idx, tip.vtx)
  {
    var m := |s.chain| - 1;
    DisconnectUndoesConnect(env, s.chain[..m], true, Replay(env, s.chain[..m]).value, s.chain[m]);
    DisconnectTxsNeedsInputs(s.idx, Replay(env, s.chain).value, s.chain[m].block.vtx, 0);
    assert s.chain[m].block.vtx[0..] == s.chain[m].block.vtx;
  }
}
