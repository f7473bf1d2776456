/** What the blocks have passed that are connected when a new block becomes the best. */
module ChainLineRules {
  import opened Basics
  import opened ChainModel
  import opened ChainRules
  import opened ChainDb
  import opened ChainReorg
  import opened ChainTree

  /** The i-th block of the line can be read and has passed, on the index that the blocks from the k-th one to it have
      made. */
  predicate PassedAt(env: Env, skipSigs: bool, idx: Index, line: seq<BlockRec>, k: nat, i: nat) {
    && k <= i < |line| && env.readable(line[i].block.hash)
    && var far := AsFar(env, skipSigs, idx, line[..i], k);
       far.0 == i && Passed(env, line[..i], skipSigs, far.1, line[i])
  }

  /** All blocks of a line that have been connected have passed. */
  lemma {:induction false} LinePassed(env: Env, skipSigs: bool, idx: Index, line: seq<BlockRec>, k: nat, i: nat)
    requires k <= i < |line| && i < AsFar(env, skipSigs, idx, line, k).0
    ensures PassedAt(env, skipSigs, idx, line, k, i)
    decreases i - k
  {
    hide Passed, ChainModel.ConnectBlock;
    var next := ChainModel.ConnectBlock(env, line[..k], skipSigs, idx, line[k]).value;
    if k < i {
      LinePassed(env, skipSigs, next, line, k + 1, i);
      assert line[..i][..k] == line[..k];
    } else {
      ConnectedPassed(env, line[..k], skipSigs, idx, line[k]);
    }
  }

  /** Connecting one part of a line, and then the rest as far as it goes, is connecting all as far as it goes. */
  lemma {:induction false} FarFrom(env: Env, skipSigs: bool, idx: Index, line: seq<BlockRec>, k: nat, m: nat)
    requires k <= m <= |line| && ConnectFrom(env, skipSigs, idx, line[..m], k).Some?
    ensures AsFar(env, skipSigs, idx, line, k) ==
      AsFar(env, skipSigs, ConnectFrom(env, skipSigs, idx, line[..m], k).value, line, m)
    decreases m - k
  {
    hide ChainModel.ConnectBlock;
    if k < m {
      assert line[..m][..k] == line[..k];
      FarFrom(env, skipSigs, ChainModel.ConnectBlock(env, line[..k], skipSigs, idx, line[k]).value, line, k + 1, m);
    }
  }

  /** The blocks connected when new_ becomes the best block have passed, down to the fork; if it extends the best, it
      alone. */
  ghost predicate NewPassed(env: Env, skipSigs: bool, idx: Index, best: BlockIndex, new_: BlockIndex, n: nat)
    requires best.Linked() && new_.Linked()
  {
    if new_.pprev == best then Passed(env, Recs(best.Line()), skipSigs, idx, new_.rec)
    else
      var keep := Common(best.Line(), Intermediate(best, new_).Line());
      keep > 0
      && match DisconnectTo(env, idx, Recs(best.Line()), keep)
         case None => false
         case Some(d) => forall i :: keep <= i < n ==> PassedAt(env, skipSigs, d, Recs(new_.Line()), keep, i)
  }

  lemma BestPassed(env: Env, skipSigs: bool, idx: Index, best: BlockIndex, new_: BlockIndex)
    requires best.Linked() && new_.Linked() && BestIndex(env, skipSigs, idx, best, new_).Some?
    ensures NewPassed(env, skipSigs, idx, best, new_, BestIndex(env, skipSigs, idx, best, new_).value.0)
  {
    hide Passed, PassedAt, ChainModel.ConnectBlock, Intermediate, AsFar, ConnectFrom, DisconnectTo, Common, Recs;
    if new_.pprev == best {
      ConnectedPassed(env, Recs(best.Line()), skipSigs, idx, new_.rec);
    } else {
      SwitchPassed(env, skipSigs, idx, best, new_, Intermediate(best, new_));
    }
  }

  lemma SwitchPassed(env: Env, skipSigs: bool, idx: Index, best: BlockIndex, new_: BlockIndex, mid: BlockIndex)
    requires best.Linked() && new_.Linked() && mid.Linked() && IsAncestor(mid, new_)
    requires ReorganizedIndex(env, skipSigs, idx, best, mid).Some?
    ensures var keep := Common(best.Line(), mid.Line());
      keep > 0 && DisconnectTo(env, idx, Recs(best.Line()), keep).Some?
    ensures var keep := Common(best.Line(), mid.Line());
      var d := DisconnectTo(env, idx, Recs(best.Line()), keep).value;
      var r := ReorganizedIndex(env, skipSigs, idx, best, mid).value;
      mid.rec.nHeight + 1 <= |Recs(new_.Line())|
      && forall i :: keep <= i < AsFar(env, skipSigs, r, Recs(new_.Line()), mid.rec.nHeight + 1).0 ==>
           PassedAt(env, skipSigs, d, Recs(new_.Line()), keep, i)
  {
    hide PassedAt, AsFar, ConnectFrom, DisconnectTo, Common;
    AncestorAt(mid, new_);
    var line, keep, m := Recs(new_.Line()), Common(best.Line(), mid.Line()), mid.rec.nHeight + 1;
    assert line[..m] == Recs(mid.Line());
    var d := DisconnectTo(env, idx, Recs(best.Line()), keep).value;
    FarFrom(env, skipSigs, d, line, keep, m);
    AsFarIff(env, skipSigs, d, line, keep);
    forall i | keep <= i < AsFar(env, skipSigs, d, line, keep).0 ensures PassedAt(env, skipSigs, d, line, keep, i) {
      LinePassed(env, skipSigs, d, line, keep, i);
    }
  }
}
