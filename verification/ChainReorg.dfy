/** Switching the index from one line of blocks to another: when the blocks of a line can be undone, and which
    index the switch leaves. */
module ChainReorg {
  import opened Basics
  import opened ChainModel
  import opened ChainLaws
  import opened ChainRuns

  /** Disconnects the blocks of the line from its end down to the first keep blocks. */
  function DisconnectTo(env: Env, idx: Index, line: seq<BlockRec>, keep: nat): Option<Index>
    requires keep <= |line|
    decreases |line|
  {
    if |line| == keep then Some(idx)
    else
      var b := line[|line| - 1];
      if !env.readable(b.block.hash) then None
      else match ChainModel.DisconnectBlock(idx, b.block)
        case None => None
        case Some(d) => DisconnectTo(env, d, line[..|line| - 1], keep)
  }

  /** Connects the blocks of the line from position k on. */
  function ConnectFrom(env: Env, skipSigs: bool, idx: Index, line: seq<BlockRec>, k: nat): Option<Index>
    requires k <= |line|
    decreases |line| - k
  {
    if k == |line| then Some(idx)
    else if !env.readable(line[k].block.hash) then None
    else match ChainModel.ConnectBlock(env, line[..k], skipSigs, idx, line[k])
      case None => None
      case Some(c) => ConnectFrom(env, skipSigs, c, line, k + 1)
  }

  /** Connects the blocks of the line from position k on for as long as they can be read and connect: how many
      blocks of the line there are up to the last one connected, and the index. */
  function AsFar(env: Env, skipSigs: bool, idx: Index, line: seq<BlockRec>, k: nat): (nat, Index)
    requires k <= |line|
    decreases |line| - k
  {
    if k == |line| || !env.readable(line[k].block.hash) then (k, idx)
    else match ChainModel.ConnectBlock(env, line[..k], skipSigs, idx, line[k])
      case None => (k, idx)
      case Some(c) => AsFar(env, skipSigs, c, line, k + 1)
  }

  /** All of them connect exactly if that gets to the end of the line, and then both give the same index. */
  lemma {:induction false} AsFarIff(env: Env, skipSigs: bool, idx: Index, line: seq<BlockRec>, k: nat)
    requires k <= |line|
    ensures var far, all := AsFar(env, skipSigs, idx, line, k), ConnectFrom(env, skipSigs, idx, line, k);
      k <= far.0 <= |line| && (all.Some? <==> far.0 == |line|) && (all.Some? ==> all == Some(far.1))
    decreases |line| - k
  {
    hide ChainModel.ConnectBlock;
    if k < |line| && env.readable(line[k].block.hash) {
      var made := ChainModel.ConnectBlock(env, line[..k], skipSigs, idx, line[k]);
      if made.Some? { AsFarIff(env, skipSigs, made.value, line, k + 1); }
    }
  }

  lemma AsFarNext(env: Env, skipSigs: bool, idx: Index, line: seq<BlockRec>, k: nat)
    requires k < |line|
    ensures AsFar(env, skipSigs, idx, line, k) ==
      if !env.readable(line[k].block.hash) then (k, idx)
      else match ChainModel.ConnectBlock(env, line[..k], skipSigs, idx, line[k])
        case None => (k, idx)
        case Some(c) => AsFar(env, skipSigs, c, line, k + 1)
  {
  }

  lemma AsFarEnd(env: Env, skipSigs: bool, idx: Index, line: seq<BlockRec>)
    ensures AsFar(env, skipSigs, idx, line, |line|) == (|line|, idx)
  {
  }

  /** The index after switching from one line to another that share their first keep blocks. */
  function Switch(env: Env, skipSigs: bool, idx: Index, from: seq<BlockRec>, to: seq<BlockRec>,
      keep: nat): Option<Index>
    requires keep <= |from| && keep <= |to|
  {
    match DisconnectTo(env, idx, from, keep)
    case None => None
    case Some(d) => ConnectFrom(env, skipSigs, d, to, keep)
  }

  /* ---- when a line can be undone ---- */

  /** The identifiers of the transactions of the blocks from position k on. */
  function IdsFrom(line: seq<BlockRec>, k: nat): set<Hash>
    requires k <= |line|
    decreases |line| - k
  {
    if k == |line| then {} else Ids(line[k].block.vtx) + IdsFrom(line, k + 1)
  }

  /** The block can be read, and every record its inputs point at is in the index and was not made again by a
      later block of the line. */
  predicate CanUndo(env: Env, idx: Index, line: seq<BlockRec>, i: nat)
    requires i < |line|
  {
    env.readable(line[i].block.hash) && InputsPresent(idx - IdsFrom(line, i + 1), line[i].block.vtx)
  }

  predicate CanUndoTo(env: Env, idx: Index, line: seq<BlockRec>, keep: nat) {
    forall i :: keep <= i < |line| ==> CanUndo(env, idx, line, i)
  }

  lemma {:induction false} IdsFromShorter(line: seq<BlockRec>, k: nat)
    requires line != [] && k < |line|
    ensures IdsFrom(line, k) == IdsFrom(line[..|line| - 1], k) + Ids(line[|line| - 1].block.vtx)
    decreases |line| - k
  {
    var m := |line| - 1;
    if k < m {
      IdsFromShorter(line, k + 1);
    } else {
      assert IdsFrom(line, m + 1) == {};
    }
  }

  /** Only the identifiers in the index matter for whether inputs are present. */
  lemma InputsPresentKeys(a: Index, b: Index, vtx: seq<Tx>)
    requires a.Keys == b.Keys
    ensures InputsPresent(a, vtx) == InputsPresent(b, vtx)
  {
    assert forall h :: h in a <==> h in b;
  }

  /** What the blocks below the last one need does not change when the last one is undone. */
  lemma CanUndoShorter(env: Env, idx: Index, d: Index, line: seq<BlockRec>, i: nat)
    requires line != [] && i < |line| - 1 && d.Keys == idx.Keys - Ids(line[|line| - 1].block.vtx)
    ensures CanUndo(env, d, line[..|line| - 1], i) == CanUndo(env, idx, line, i)
  {
    var m := |line| - 1;
    if i + 1 < m || i + 1 == m { IdsFromShorter(line, i + 1); }
    var below, all := IdsFrom(line[..m], i + 1), IdsFrom(line, i + 1);
    assert (d - below).Keys == (idx - all).Keys;
    InputsPresentKeys(d - below, idx - all, line[i].block.vtx);
  }

  /** In a state of a run, undoing the chain down to its first blocks succeeds exactly if each block to be
      undone can be read and the records its inputs point at are there and not made again further up. All
      this can be seen before the first block is undone. */
  lemma {:induction false} UndoSucceedsIff(env: Env, s: State, keep: nat)
    requires Inv(env, s) && 1 <= keep <= |s.chain|
    ensures DisconnectTo(env, s.idx, s.chain, keep).Some? <==> CanUndoTo(env, s.idx, s.chain, keep)
    decreases |s.chain|
  {
    hide Inv, CanUndo, ChainModel.DisconnectBlock;
    var m := |s.chain| - 1;
    if keep <= m {
      LastUndoneIff(env, s);
      if CanUndo(env, s.idx, s.chain, m) {
        LastUndone(env, s);
        var d := DisconnectBlock(s.idx, s.chain[m].block).value;
        UndoSucceedsIff(env, State(d, s.chain[..m]), keep);
        forall i | keep <= i < m ensures CanUndo(env, d, s.chain[..m], i) == CanUndo(env, s.idx, s.chain, i) {
          CanUndoShorter(env, s.idx, d, s.chain, i);
        }
      }
    }
  }

  lemma LastUndone(env: Env, s: State)
    requires Inv(env, s) && |s.chain| > 1 && DisconnectBlock(s.idx, s.chain[|s.chain| - 1].block).Some?
    ensures var m := |s.chain| - 1; var d := DisconnectBlock(s.idx, s.chain[m].block).value;
      Inv(env, State(d, s.chain[..m])) && d.Keys == s.idx.Keys - Ids(s.chain[m].block.vtx)
  {
    hide Inv;
    var b := s.chain[|s.chain| - 1];
    DisconnectKeepsInv(env, s);
    DisconnectErases(s.idx, b.block.vtx, 0);
    assert b.block.vtx[0..] == b.block.vtx;
  }

  lemma LastUndoneIff(env: Env, s: State)
    requires Inv(env, s) && |s.chain| > 1
    ensures var m := |s.chain| - 1;
      CanUndo(env, s.idx, s.chain, m) <==>
        env.readable(s.chain[m].block.hash) && DisconnectBlock(s.idx, s.chain[m].block).Some?
  {
    var m := |s.chain| - 1;
    TipUndoneIff(env, s);
    assert IdsFrom(s.chain, m + 1) == {};
    assert s.idx - {} == s.idx;
  }
}
