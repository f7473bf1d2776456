/** Signatures of several keys: the checking loop of CHECKMULTISIG, and how two partial sets of signatures
    are merged. Whether one signature is good for one key is a given relation. */
module Multisig {
  import opened Basics
  import opened Bytes
  import opened Script

  type Value = seq<byte>
  type Check = (Value, Value) -> bool

  /* ---- the checking loop ---- */

  /** f gives each signature a key it is good for, in the order of the keys and no key twice. */
  ghost predicate Assigns(check: Check, sigs: seq<Value>, keys: seq<Value>, f: seq<int>) {
    && |f| == |sigs|
    && (forall i :: 0 <= i < |f| ==> 0 <= f[i] < |keys| && check(sigs[i], keys[f[i]]))
    && forall i, j :: 0 <= i < j < |f| ==> f[i] < f[j]
  }

  ghost predicate Assignable(check: Check, sigs: seq<Value>, keys: seq<Value>) {
    exists f :: Assigns(check, sigs, keys, f)
  }

  /** The loop's strategy: each signature in turn takes the first key left that it is good for. */
  function Greedy(check: Check, sigs: seq<Value>, keys: seq<Value>): bool
    decreases |keys|
  {
    if sigs == [] then true
    else if |sigs| > |keys| then false
    else if check(sigs[0], keys[0]) then Greedy(check, sigs[1..], keys[1..])
    else Greedy(check, sigs, keys[1..])
  }

  function Shift(f: seq<int>, d: int): (g: seq<int>)
    ensures |g| == |f| && forall i :: 0 <= i < |f| ==> g[i] == f[i] + d
  {
    seq(|f|, i requires 0 <= i < |f| => f[i] + d)
  }

  /** Taking the first key that fits never spoils an assignment. */
  lemma {:induction false} GreedyFinds(check: Check, sigs: seq<Value>, keys: seq<Value>, f: seq<int>)
    requires Assigns(check, sigs, keys, f)
    ensures Greedy(check, sigs, keys)
    decreases |keys|
  {
    if sigs != [] {
      Spread(f, 0);
      assert f[|f| - 1] < |keys|;
      if check(sigs[0], keys[0]) {
        assert Assigns(check, sigs[1..], keys[1..], Shift(f[1..], -1));
        GreedyFinds(check, sigs[1..], keys[1..], Shift(f[1..], -1));
      } else {
        assert f[0] > 0;
        assert Assigns(check, sigs, keys[1..], Shift(f, -1));
        GreedyFinds(check, sigs, keys[1..], Shift(f, -1));
      }
    }
  }

  /** Increasing numbers spread at least as far as their places. */
  lemma {:induction false} Spread(f: seq<int>, i: nat)
    requires (forall j, k :: 0 <= j < k < |f| ==> f[j] < f[k]) && i < |f|
    ensures f[|f| - 1] >= f[i] + |f| - 1 - i
    decreases |f| - i
  {
    if i + 1 < |f| { Spread(f, i + 1); }
  }

  lemma {:induction false} GreedyAssigns(check: Check, sigs: seq<Value>, keys: seq<Value>) returns (f: seq<int>)
    requires Greedy(check, sigs, keys)
    ensures Assigns(check, sigs, keys, f)
    decreases |keys|
  {
    if sigs == [] {
      f := [];
    } else if check(sigs[0], keys[0]) {
      var g := GreedyAssigns(check, sigs[1..], keys[1..]);
      f := [0] + Shift(g, 1);
    } else {
      var g := GreedyAssigns(check, sigs, keys[1..]);
      f := Shift(g, 1);
    }
  }

  /** The loop succeeds exactly when some assignment exists. */
  lemma GreedyIff(check: Check, sigs: seq<Value>, keys: seq<Value>)
    ensures Greedy(check, sigs, keys) <==> Assignable(check, sigs, keys)
  {
    if Greedy(check, sigs, keys) {
      var f := GreedyAssigns(check, sigs, keys);
    }
    if Assignable(check, sigs, keys) {
      var f :| Assigns(check, sigs, keys, f);
      GreedyFinds(check, sigs, keys, f);
    }
  }

  /** The i-th value from the top of the stack, counting from 1. */
  function Top(stack: seq<Value>, i: nat): Value
    requires 1 <= i <= |stack|
  {
    stack[|stack| - i]
  }

  /** n values of the stack, downwards from the i-th. */
  function Down(stack: seq<Value>, i: nat, n: nat): (s: seq<Value>)
    requires 1 <= i && i + n <= |stack| + 1
    ensures |s| == n && forall j :: 0 <= j < n ==> s[j] == Top(stack, i + j)
  {
    seq(n, j requires 0 <= j < n => Top(stack, i + j))
  }

  /** The loop over the stack, where signatures and keys are counted down. */
  method CheckLoop(check: Check, stack: seq<Value>, isig0: nat, ikey0: nat, nSigs: nat, nKeys: nat)
    returns (fSuccess: bool)
    requires 1 <= isig0 && isig0 + nSigs <= |stack| + 1 && 1 <= ikey0 && ikey0 + nKeys <= |stack| + 1 && nSigs <= nKeys
    ensures fSuccess <==> Assignable(check, Down(stack, isig0, nSigs), Down(stack, ikey0, nKeys))
  {
    var isig, ikey, nSigsCount, nKeysCount := isig0, ikey0, nSigs, nKeys;
    ghost var sigs, keys := Down(stack, isig0, nSigs), Down(stack, ikey0, nKeys);
    assert sigs[0..] == sigs && keys[0..] == keys;
    fSuccess := true;
    while fSuccess && nSigsCount > 0
      invariant 0 <= nSigsCount && 0 <= nKeysCount && isig + nSigsCount == isig0 + nSigs
      invariant ikey + nKeysCount == ikey0 + nKeys
      invariant isig0 <= isig && ikey0 <= ikey && (fSuccess ==> nSigsCount <= nKeysCount)
      invariant Greedy(check, sigs, keys) == (fSuccess && Greedy(check, sigs[isig - isig0..], keys[ikey - ikey0..]))
      decreases nKeysCount
    {
      ghost var s, k := sigs[isig - isig0..], keys[ikey - ikey0..];
      assert s[0] == Top(stack, isig) && k[0] == Top(stack, ikey);
      assert s[1..] == sigs[isig + 1 - isig0..] && k[1..] == keys[ikey + 1 - ikey0..];
      if check(Top(stack, isig), Top(stack, ikey)) {
        isig := isig + 1;
        nSigsCount := nSigsCount - 1;
      }
      ikey := ikey + 1;
      nKeysCount := nKeysCount - 1;
      if nSigsCount > nKeysCount { fSuccess := false; }
    }
    GreedyIff(check, sigs, keys);
  }

  /* ---- merging ---- */

  /** An assignment read backwards is one for the signatures and the keys read backwards. */
  lemma AssignableReversed(check: Check, sigs: seq<Value>, keys: seq<Value>)
    requires Assignable(check, sigs, keys)
    ensures Assignable(check, Reversed(sigs), Reversed(keys))
  {
    var f :| Assigns(check, sigs, keys, f);
    var g := seq(|f|, i requires 0 <= i < |f| => |keys| - 1 - f[|f| - 1 - i]);
    assert Assigns(check, Reversed(sigs), Reversed(keys), g);
  }

  /** The pushes of the values, one after the other. */
  function PushAll(values: seq<Value>): seq<byte> {
    if values == [] then [] else PushAll(values[..|values| - 1]) + PushOp(values[|values| - 1])
  }

  function Empties(n: nat): (s: seq<Value>)
    ensures |s| == n && forall i :: 0 <= i < n ==> s[i] == []
  {
    seq(n, _ => [])
  }

  lemma PushOne(values: seq<Value>, v: Value)
    ensures PushAll(values + [v]) == PushAll(values) + PushOp(v)
  {
    assert (values + [v])[..|values|] == values;
  }

  /** Every signature that is good for some key has been put down for a key, or every key it is good for has
      got a signature. */
  ghost predicate Placed(check: Check, keys: seq<Value>, sigs: map<Value, Value>, sig: Value) {
    forall i :: 0 <= i < |keys| && check(sig, keys[i]) ==> keys[i] in sigs || exists k :: k in sigs && sigs[k] == sig
  }

  /** Each key's signature is one of those given and is good for it. */
  ghost predicate Matched(check: Check, keys: seq<Value>, all: set<Value>, sigs: map<Value, Value>) {
    forall k :: k in sigs ==> k in keys && sigs[k] in all && check(sigs[k], k)
  }

  /** Gives each signature to the first key it is good for that has none yet. */
  method MatchSigs(check: Check, keys: seq<Value>, allsigs: set<Value>) returns (sigs: map<Value, Value>)
    ensures Matched(check, keys, allsigs, sigs)
    ensures forall sig :: sig in allsigs ==> Placed(check, keys, sigs, sig)
  {
    sigs := map[];
    var todo := allsigs;
    while todo != {}
      invariant todo <= allsigs && Matched(check, keys, allsigs, sigs)
      invariant forall sig :: sig in allsigs - todo ==> Placed(check, keys, sigs, sig)
      decreases |todo|
    {
      var sig :| sig in todo;
      ghost var was := sigs;
      var i := 0;
      var found := false;
      while i < |keys| && !found
        invariant 0 <= i <= |keys| && (!found ==> sigs == was)
        invariant !found ==> forall j :: 0 <= j < i ==> keys[j] in sigs || !check(sig, keys[j])
        invariant found ==> i < |keys| && keys[i] !in was && check(sig, keys[i]) && sigs == was[keys[i] := sig]
        decreases |keys| - i, !found
      {
        if keys[i] in sigs {
          i := i + 1;
        } else if check(sig, keys[i]) {
          sigs := sigs[keys[i] := sig];
          found := true;
        } else {
          i := i + 1;
        }
      }
      forall s | s in allsigs - (todo - {sig}) ensures Placed(check, keys, sigs, s) {
        if s == sig {
          if found { assert keys[i] in sigs && sigs[keys[i]] == sig; }
        } else {
          StillPlaced(check, keys, was, sigs, s);
        }
      }
      todo := todo - {sig};
    }
  }

  lemma StillPlaced(check: Check, keys: seq<Value>, was: map<Value, Value>, sigs: map<Value, Value>, s: Value)
    requires Placed(check, keys, was, s) && forall k :: k in was ==> k in sigs && sigs[k] == was[k]
    ensures Placed(check, keys, sigs, s)
  {
    if k :| k in was && was[k] == s { assert k in sigs && sigs[k] == s; }
  }

  /** Both lists without the empty signatures, as one set. */
  method CollectSigs(sigs1: seq<Value>, sigs2: seq<Value>) returns (allsigs: set<Value>)
    ensures forall v :: v in allsigs <==> v != [] && (v in sigs1 || v in sigs2)
  {
    allsigs := {};
    var n := 0;
    while n < |sigs1|
      invariant 0 <= n <= |sigs1| && forall v :: v in allsigs <==> v != [] && v in sigs1[..n]
    {
      if sigs1[n] != [] { allsigs := allsigs + {sigs1[n]}; }
      n := n + 1;
    }
    n := 0;
    while n < |sigs2|
      invariant 0 <= n <= |sigs2| && forall v :: v in allsigs <==> v != [] && (v in sigs1 || v in sigs2[..n])
    {
      if sigs2[n] != [] { allsigs := allsigs + {sigs2[n]}; }
      n := n + 1;
    }
    assert sigs2[..n] == sigs2;
  }

  /** The signatures found, in the order of the keys. */
  function Found(keys: seq<Value>, sigs: map<Value, Value>): seq<Value> {
    if keys == [] then []
    else
      var m := |keys| - 1;
      Found(keys[..m], sigs) + if keys[m] in sigs then [sigs[keys[m]]] else []
  }

  lemma {:induction false} FoundPrefix(keys: seq<Value>, sigs: map<Value, Value>, i: nat)
    requires i <= |keys|
    ensures Found(keys[..i], sigs) <= Found(keys, sigs)
    decreases |keys|
  {
    if i < |keys| {
      assert keys[..|keys| - 1][..i] == keys[..i];
      FoundPrefix(keys[..|keys| - 1], sigs, i);
    } else {
      assert keys[..i] == keys;
    }
  }

  /** At most n of them. */
  function FirstFound(keys: seq<Value>, sigs: map<Value, Value>, n: nat): seq<Value> {
    var found := Found(keys, sigs);
    if |found| <= n then found else found[..n]
  }

  lemma FoundEnough(keys: seq<Value>, sigs: map<Value, Value>, n: nat, i: nat)
    requires i <= |keys| && |Found(keys[..i], sigs)| <= n && (i == |keys| || |Found(keys[..i], sigs)| == n)
    ensures Found(keys[..i], sigs) == FirstFound(keys, sigs, n)
  {
    hide Found;
    FoundPrefix(keys, sigs, i);
    if i == |keys| { assert keys[..i] == keys; }
  }

  lemma FoundNext(keys: seq<Value>, sigs: map<Value, Value>, i: nat)
    requires i < |keys|
    ensures Found(keys[..i + 1], sigs) == Found(keys[..i], sigs) + if keys[i] in sigs then [sigs[keys[i]]] else []
  {
    assert keys[..i + 1][..i] == keys[..i];
  }

  /** Pushes the signatures found in the order of the keys, at most as many as are required. */
  method PushFound(check: Check, keys: seq<Value>, nSigsRequired: nat, sigs: map<Value, Value>,
      ghost allsigs: set<Value>)
    returns (result: seq<byte>, nSigsHave: nat, ghost pushed: seq<Value>)
    requires Matched(check, keys, allsigs, sigs)
    ensures result == PushOp([]) + PushAll(FirstFound(keys, sigs, nSigsRequired))
    ensures nSigsHave == |pushed| <= nSigsRequired && pushed == FirstFound(keys, sigs, nSigsRequired)
    ensures (forall v :: v in pushed ==> v in allsigs) && Assignable(check, pushed, keys)
    ensures nSigsHave < nSigsRequired ==> forall j :: 0 <= j < |keys| && keys[j] in sigs ==> sigs[keys[j]] in pushed
  {
    hide PushOp, PushAll, Assigns, Found, FirstFound;
    result := PushOp([]);
    pushed := [];
    ghost var f: seq<int> := [];
    AssignNone(check, keys);
    var i := 0;
    nSigsHave := 0;
    PushNone();
    FoundNone(keys, sigs);
    while i < |keys| && nSigsHave < nSigsRequired
      invariant 0 <= i <= |keys| && nSigsHave == |pushed| <= nSigsRequired && result == PushOp([]) + PushAll(pushed)
      invariant pushed == Found(keys[..i], sigs) && forall v :: v in pushed ==> v in allsigs
      invariant Assigns(check, pushed, keys, f) && forall j :: 0 <= j < |f| ==> f[j] < i
      invariant forall j :: 0 <= j < i && keys[j] in sigs ==> sigs[keys[j]] in pushed
    {
      FoundNext(keys, sigs, i);
      if keys[i] in sigs {
        PushOne(pushed, sigs[keys[i]]);
        Append(PushOp([]), PushAll(pushed), PushOp(sigs[keys[i]]));
        result := result + PushOp(sigs[keys[i]]);
        AssignOne(check, pushed, keys, f, sigs[keys[i]], i);
        pushed := pushed + [sigs[keys[i]]];
        f := f + [i];
        nSigsHave := nSigsHave + 1;
      }
      i := i + 1;
    }
    FoundEnough(keys, sigs, nSigsRequired, i);
  }

  lemma FoundNone(keys: seq<Value>, sigs: map<Value, Value>)
    ensures Found(keys[..0], sigs) == []
  {
  }

  lemma PushNone()
    ensures PushOp([]) + PushAll([]) == PushOp([])
  {
  }

  lemma AssignNone(check: Check, keys: seq<Value>)
    ensures Assigns(check, [], keys, [])
  {
  }

  lemma AssignOne(check: Check, sigs: seq<Value>, keys: seq<Value>, f: seq<int>, sig: Value, i: nat)
    requires Assigns(check, sigs, keys, f) && (forall j :: 0 <= j < |f| ==> f[j] < i) && i < |keys|
    requires check(sig, keys[i])
    ensures Assigns(check, sigs + [sig], keys, f + [i])
  {
  }

  /** The script pushes these values after the dummy one, as many as are required: first those found, which
      are signatures of the two sets in the order of the keys, then empty ones. If some are missing, then
      every signature that is good for a key is among those found, or another that is good for the key is. */
  ghost predicate MergedAs(check: Check, keys: seq<Value>, nSigsRequired: nat, sigs1: seq<Value>, sigs2: seq<Value>,
      result: seq<byte>, pushed: seq<Value>, have: nat)
  {
    && have <= nSigsRequired == |pushed| && result == PushOp([]) + PushAll(pushed)
    && (forall v :: v in pushed[..have] ==> v != [] && (v in sigs1 || v in sigs2))
    && pushed[have..] == Empties(nSigsRequired - have)
    && Assignable(check, pushed[..have], keys)
    && (have < nSigsRequired ==>
          forall sig, k :: sig != [] && (sig in sigs1 || sig in sigs2) && k in keys && check(sig, k) ==>
          sig in pushed[..have] || exists other :: other in pushed[..have] && check(other, k))
  }

  ghost predicate Merged(check: Check, keys: seq<Value>, nSigsRequired: nat, sigs1: seq<Value>, sigs2: seq<Value>,
      result: seq<byte>)
  {
    exists pushed, have :: MergedAs(check, keys, nSigsRequired, sigs1, sigs2, result, pushed, have)
  }

  /** Merges two sets of signatures into one input script. */
  method CombineMultisig(check: Check, keys: seq<Value>, nSigsRequired: nat, sigs1: seq<Value>, sigs2: seq<Value>)
    returns (result: seq<byte>)
    ensures Merged(check, keys, nSigsRequired, sigs1, sigs2, result)
  {
    hide PushOp, PushAll, Placed, Assignable;
    var allsigs := CollectSigs(sigs1, sigs2);
    var sigs := MatchSigs(check, keys, allsigs);
    var nSigsHave;
    ghost var pushed: seq<Value>;
    result, nSigsHave, pushed := PushFound(check, keys, nSigsRequired, sigs, allsigs);
    ghost var have, found := nSigsHave, pushed;
    if have < nSigsRequired { AllPushed(check, keys, allsigs, sigs, found); }
    var i := nSigsHave;
    assert found + Empties(0) == found;
    while i < nSigsRequired
      invariant have <= i == |pushed| <= nSigsRequired && result == PushOp([]) + PushAll(pushed)
      invariant pushed == found + Empties(i - have)
    {
      PushOne(pushed, []);
      Append(PushOp([]), PushAll(pushed), PushOp([]));
      result := result + PushOp([]);
      assert Empties(i - have) + [[]] == Empties(i + 1 - have);
      pushed := pushed + [[]];
      i := i + 1;
    }
    assert pushed[..have] == found && pushed[have..] == Empties(nSigsRequired - have);
    assert MergedAs(check, keys, nSigsRequired, sigs1, sigs2, result, pushed, have);
  }

  /** No signature is missed for a key: one that is good for the key is among those pushed, or another that
      is good for it is. */
  lemma AllPushed(check: Check, keys: seq<Value>, allsigs: set<Value>, sigs: map<Value, Value>, pushed: seq<Value>)
    requires Matched(check, keys, allsigs, sigs) && forall sig :: sig in allsigs ==> Placed(check, keys, sigs, sig)
    requires forall j :: 0 <= j < |keys| && keys[j] in sigs ==> sigs[keys[j]] in pushed
    ensures forall sig, k :: sig in allsigs && k in keys && check(sig, k) ==>
      sig in pushed || exists other :: other in pushed && check(other, k)
  {
    forall sig, k | sig in allsigs && k in keys && check(sig, k)
      ensures sig in pushed || exists other :: other in pushed && check(other, k)
    {
      assert Placed(check, keys, sigs, sig);
      if k in sigs {
        assert sigs[k] in pushed && check(sigs[k], k);
      } else {
        var m :| m in sigs && sigs[m] == sig;
        assert m in keys;
      }
    }
  }

  /** A merged script that has all the signatures required passes the loop: the stack it leaves, and the keys
      pushed after it, are read from the top. */
  lemma CombinedPasses(check: Check, pushed: seq<Value>, keys: seq<Value>)
    requires Assignable(check, pushed, keys)
    ensures Greedy(check, Reversed(pushed), Reversed(keys))
  {
    AssignableReversed(check, pushed, keys);
    GreedyIff(check, Reversed(pushed), Reversed(keys));
  }

  /** So a merge that gathered all the signatures required passes under the relation it was made with. */
  lemma CompleteMergePasses(check: Check, keys: seq<Value>, n: nat, sigs1: seq<Value>, sigs2: seq<Value>,
      result: seq<byte>, pushed: seq<Value>)
    requires MergedAs(check, keys, n, sigs1, sigs2, result, pushed, n)
    ensures result == PushOp([]) + PushAll(pushed) && |pushed| == n && Greedy(check, Reversed(pushed), Reversed(keys))
  {
    hide PushOp, PushAll, Greedy, Reversed, Assignable;
    assert pushed[..n] == pushed;
    CombinedPasses(check, pushed, keys);
  }
}
