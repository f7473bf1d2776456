/** What a signature signs: the script after the last separator, without the signatures themselves, wherever they stand
    in it. */
module SignedScripts {
  import opened Basics
  import opened Bytes
  import opened Script
  import opened Multisig
  import opened ScriptEval
  import opened ScriptBlocks
  import opened MultisigScripts
  import opened StandardScripts

  /* ---- deleting pushed values ---- */

  /** The values that are none of the others. */
  function NotIn(values: seq<Value>, others: seq<Value>): seq<Value> {
    if values == [] then []
    else
      var n := |values| - 1;
      NotIn(values[..n], others) + if values[n] in others then [] else [values[n]]
  }

  lemma DeletedFirst(op: seq<byte>, rest: seq<byte>, b: seq<byte>)
    requires IsOp(op) && IsOp(b)
    ensures Deleted(op + rest, b).0 == (if op == b then [] else op) + Deleted(rest, b).0
  {
    hide FirstOp;
    var s := op + rest;
    FirstOpExtend(op, s);
    assert s[|op|..] == rest && s[..|op|] == op;
    if b <= s {
      FirstOpExtend(b, s);
      assert s[..|b|] == b && b == op;
      assert [] + Deleted(rest, b).0 == Deleted(rest, b).0;
    }
  }

  lemma {:induction false} DeletedPushes(values: seq<Value>, rest: seq<byte>, sig: Value)
    requires |sig| < UINT_LIMIT && forall v :: v in values ==> |v| < UINT_LIMIT
    ensures PushOp(sig) != []
    ensures Deleted(PushAll(values) + rest, PushOp(sig)).0 ==
      PushAll(NotIn(values, [sig])) + Deleted(rest, PushOp(sig)).0
    decreases |values|
  {
    hide PushOp, Deleted, IsOp, NotIn, PushAll;
    PushedSome(sig);
    NothingPushed();
    if values == [] {
      assert PushAll(values) + rest == rest;
      assert NotIn([], [sig]) == [] by { NothingIn(sig); }
      assert [] + Deleted(rest, PushOp(sig)).0 == Deleted(rest, PushOp(sig)).0;
    } else {
      var n := |values| - 1;
      var v := values[n];
      assert v in values && values == values[..n] + [v];
      PushAllMore(values[..n], v);
      Append(PushAll(values[..n]), PushOp(v), rest);
      DeletedPushes(values[..n], PushOp(v) + rest, sig);
      DeletedPush(NotIn(values[..n], [sig]), v, rest, sig);
      NotInLast(values, sig);
    }
  }

  lemma NothingIn(sig: Value)
    ensures NotIn([], [sig]) == []
  {
  }

  lemma NotInLast(values: seq<Value>, sig: Value)
    requires values != []
    ensures var n := |values| - 1;
      NotIn(values, [sig]) == NotIn(values[..n], [sig]) + if values[n] == sig then [] else [values[n]]
  {
  }

  lemma DeletedPush(kept: seq<Value>, v: Value, rest: seq<byte>, sig: Value)
    requires |sig| < UINT_LIMIT && |v| < UINT_LIMIT
    ensures PushOp(sig) != []
    ensures PushAll(kept) + Deleted(PushOp(v) + rest, PushOp(sig)).0 ==
      PushAll(kept + if v == sig then [] else [v]) + Deleted(rest, PushOp(sig)).0
  {
    hide PushOp, Deleted, IsOp, PushAll;
    PushedSome(sig);
    PushIsOp(v);
    PushIsOp(sig);
    DeletedFirst(PushOp(v), rest, PushOp(sig));
    PushAllMore(kept, v);
    var left := Deleted(rest, PushOp(sig)).0;
    if v == sig {
      assert [] + left == left;
    } else {
      PushDiffers(v, sig);
      Append(PushAll(kept), PushOp(v), left);
    }
  }

  lemma PushAllMore(values: seq<Value>, v: Value)
    ensures PushAll(values + [v]) == PushAll(values) + PushOp(v) && values + [] == values
  {
    assert (values + [v])[..|values|] == values;
  }

  lemma {:induction false} NotInMore(values: seq<Value>, others: seq<Value>, v: Value)
    ensures NotIn(NotIn(values, others), [v]) == NotIn(values, others + [v])
  {
    if values != [] {
      var n := |values| - 1;
      var kept := NotIn(values[..n], others);
      NotInMore(values[..n], others, v);
      if values[n] !in others {
        assert (kept + [values[n]])[..|kept|] == kept;
      } else {
        assert kept + [] == kept;
      }
    }
  }

  lemma {:induction false} NotInNothing(values: seq<Value>)
    ensures NotIn(values, []) == values
  {
    if values != [] { NotInNothing(values[..|values| - 1]); }
  }

  /** Of values pushed at the beginning of a script the signatures are deleted, and nothing else. */
  lemma {:induction false} StrippedPushes(values: seq<Value>, rest: seq<byte>, sigs: seq<Value>)
    requires forall v :: v in values ==> |v| < UINT_LIMIT
    requires forall s :: s in sigs ==> |s| < UINT_LIMIT && PushOp(s) !in List(rest).ops
    ensures Stripped(PushAll(values) + rest, sigs) == PushAll(NotIn(values, sigs)) + rest
  {
    hide PushOp, List, PushAll, Deleted;
    if sigs == [] {
      NotInNothing(values);
    } else {
      var n := |sigs| - 1;
      assert sigs[n] in sigs && sigs == sigs[..n] + [sigs[n]];
      StrippedPushes(values, rest, sigs[..n]);
      NotInMore(values, sigs[..n], sigs[n]);
      NotInBelow(values, sigs[..n]);
      DeletedPushes(NotIn(values, sigs[..n]), rest, sigs[n]);
      DeletedNothing(rest, sigs[n]);
    }
  }

  lemma {:induction false} NotInBelow(values: seq<Value>, others: seq<Value>)
    ensures forall v :: v in NotIn(values, others) ==> v in values
  {
    if values != [] { NotInBelow(values[..|values| - 1], others); }
  }

  lemma DeletedNothing(code: seq<byte>, sig: Value)
    requires |sig| < UINT_LIMIT && PushOp(sig) !in List(code).ops
    ensures PushOp(sig) != [] && Deleted(code, PushOp(sig)).0 == code
  {
    hide PushOp, List, Deleted;
    PushedSome(sig);
    StrippedNothing(code, [sig]);
    assert [sig][..0] == [];
    assert Stripped(code, []) == code;
  }

  /* ---- one signature ---- */

  /** A signature that stands in the script itself does not sign itself. */
  lemma KeySigned(env: Env, sig: Value, key: Value)
    requires env.script == PushOp(sig) + KeyScript(key) && |key| <= MAX_PUSH && |sig| <= MAX_PUSH && sig != key
    ensures Eval(env, []) == Some([Bool(env.check(sig, key, KeyScript(key)))])
  {
    hide EvalFrom, PushOp, CheckSig, Eval, Stripped;
    var m := Machine(Stacks([], []), 0, 0);
    PushLength(key);
    PushLength(sig);
    EvalBegins(env, []);
    var a, b := PushOp(sig), PushOp(key);
    assert env.script == [] + a + (b + [OP_CHECKSIG]);
    AtParts(env.script, [], a, b + [OP_CHECKSIG]);
    EvalPush(env, 0, m, sig);
    assert env.script == a + b + [OP_CHECKSIG];
    AtParts(env.script, a, b, [OP_CHECKSIG]);
    EvalPush(env, |a|, Pushed(m, [sig]), key);
    var p := Machine(Stacks([sig] + [key], []), 0, 0);
    assert Pushed(Pushed(m, [sig]), [key]) == p by { assert [] + [sig] == [sig]; }
    assert env.script == (a + b) + [OP_CHECKSIG] + [];
    AtParts(env.script, a + b, [OP_CHECKSIG], []);
    CheckedWithout(env, p.(nOpCount := 1), sig, key);
    var made := CheckSig(env, p.(nOpCount := 1));
    EvalOne(env, |a + b|, OP_CHECKSIG, p, made);
    EvalDone(env, |env.script|, made.value);
  }

  lemma CheckedWithout(env: Env, m: Machine, sig: Value, key: Value)
    requires env.script == PushOp(sig) + KeyScript(key) && |key| <= MAX_PUSH && |sig| <= MAX_PUSH && sig != key
    requires m.s.main == [sig] + [key] && m.begin == 0
    ensures CheckSig(env, m) == Some(m.(s := m.s.(main := [Bool(env.check(sig, key, KeyScript(key)))])))
  {
    hide Stripped, PushOp, List, KeyScript, PushAll;
    KeyScriptOps(key, sig);
    OnePush(sig);
    StrippedPushes([sig], KeyScript(key), [sig]);
    assert NotIn([sig], [sig]) == [] by { assert [sig][..0] == []; }
    NothingPushed();
    assert [] + KeyScript(key) == KeyScript(key) && env.script[0..] == env.script;
    assert Top(m.s.main, 2) == sig && Top(m.s.main, 1) == key && m.s.main[..0] == [];
    assert [] + [Bool(env.check(sig, key, KeyScript(key)))] == [Bool(env.check(sig, key, KeyScript(key)))];
  }

  lemma NothingPushed()
    ensures PushAll([]) == []
  {
  }

  /** The rest of a script that ends with the check of a key. */
  lemma KeyRest(env: Env, pc: nat, m: Machine, sig: Value, key: Value)
    requires pc <= |env.script| && env.script[pc..] == KeyScript(key) && Code(env, m.begin) == KeyScript(key)
    requires m.s == Stacks([sig], []) && m.nOpCount <= 1 && |key| <= MAX_PUSH && |sig| <= MAX_PUSH && sig != key
    ensures EvalFrom(env, pc, Flat([], m)) == Some([Bool(env.check(sig, key, KeyScript(key)))])
  {
    hide EvalFrom, PushOp, CheckSig, Code;
    var before, b := env.script[..pc], PushOp(key);
    assert env.script == before + b + [OP_CHECKSIG];
    AtParts(env.script, before, b, [OP_CHECKSIG]);
    EvalPush(env, pc, m, key);
    assert env.script == (before + b) + [OP_CHECKSIG] + [];
    AtParts(env.script, before + b, [OP_CHECKSIG], []);
    KeyScriptOps(key, sig);
    hide KeyScript;
    var p := Machine(Stacks([] + [sig] + [key], []), m.nOpCount + 1, m.begin);
    SigChecked(env, p, [], sig, key);
    var made := CheckSig(env, p);
    assert [] + [sig] + [key] == [sig] + [key];
    assert [] + [Bool(env.check(sig, key, KeyScript(key)))] == [Bool(env.check(sig, key, KeyScript(key)))];
    EvalOne(env, pc + |b|, OP_CHECKSIG, Pushed(m, [key]), made);
    EvalDone(env, |env.script|, made.value);
  }

  /** What stands before a separator is not signed. */
  lemma SeparatedKey(env: Env, sig: Value, key: Value)
    requires env.script == [OP_CODESEPARATOR] + KeyScript(key)
    requires |key| <= MAX_PUSH && |sig| <= MAX_PUSH && sig != key
    ensures Eval(env, [sig]) == Some([Bool(env.check(sig, key, KeyScript(key)))])
  {
    hide EvalFrom, PushOp, Eval;
    PushLength(key);
    EvalBegins(env, [sig]);
    var sep := [OP_CODESEPARATOR];
    assert env.script == [] + sep + KeyScript(key) && env.script[1..] == KeyScript(key);
    AtParts(env.script, [], sep, KeyScript(key));
    hide KeyScript;
    var m := Machine(Stacks([sig], []), 1, 1);
    EvalOne(env, 0, OP_CODESEPARATOR, Machine(Stacks([sig], []), 0, 0), Some(m));
    KeyRest(env, 1, m, sig, key);
  }

  /* ---- several signatures ---- */

  /** What CHECKMULTISIG answers, whatever the script. */
  lemma AnswerOn(env: Env, m: Machine, nRequired: nat, keys: seq<Value>, dummy: Value, sigs: seq<Value>)
    requires 0 < nRequired <= |keys| <= 16 && |sigs| == nRequired && m.nOpCount == 1
    requires m.s.main == [dummy] + sigs + [Number(nRequired)] + keys + [Number(|keys|)]
    ensures var check := CheckWith(env, Stripped(Code(env, m.begin), Reversed(sigs)));
      CheckMultisig(env, m).Some?
      && CheckMultisig(env, m).value.s == Stacks([Bool(Assignable(check, sigs, keys))], m.s.alt)
  {
    hide Assignable, Greedy, Stripped, CastToInt, Top, Down, Reversed;
    NumberRead(nRequired);
    NumberRead(|keys|);
    var check := CheckWith(env, Stripped(Code(env, m.begin), Reversed(sigs)));
    assert m.s.main == [] + [dummy] + sigs + [Number(nRequired)] + keys + [Number(|keys|)];
    StackParts(m.s.main, [], dummy, sigs, Number(nRequired), keys, Number(|keys|));
    GreedyIff(check, Reversed(sigs), Reversed(keys));
    AssignableEitherWay(check, sigs, keys);
  }

  /** Signatures that stand in the script itself sign none of each other. */
  lemma MultisigSigned(env: Env, nRequired: nat, keys: seq<Value>, sigs: seq<Value>)
    requires 0 < nRequired <= |keys| <= 16 && |sigs| == nRequired
    requires (forall k :: k in keys ==> |k| <= MAX_PUSH)
      && forall s :: s in sigs ==> |s| <= MAX_PUSH && s != [] && s !in keys
    requires env.script == PushAll([[]] + sigs) + MultisigScript(nRequired, keys) && |env.script| <= MAX_SCRIPT
    ensures var signed := PushOp([]) + MultisigScript(nRequired, keys);
      Eval(env, []) == Some([Bool(Assignable(CheckWith(env, signed), sigs, keys))])
  {
    hide EvalFrom, Assignable, MultisigScript, Greedy, Execute, PushAll, CheckMultisig, Stripped, PushOp;
    var stack := [[]] + sigs + [Number(nRequired)] + keys + [Number(|keys|)];
    var m := Machine(Stacks(stack, []), 0, 0);
    ToTheEnd(env, nRequired, keys, [[]] + sigs);
    AnswerOn(env, m.(nOpCount := 1), nRequired, keys, [], sigs);
    SignedPart(nRequired, keys, sigs);
    assert env.script[0..] == env.script;
    LastOp(env, m);
  }

  lemma SignedPart(nRequired: nat, keys: seq<Value>, sigs: seq<Value>)
    requires 0 < nRequired <= |keys| <= 16
    requires (forall k :: k in keys ==> |k| <= MAX_PUSH)
      && forall s :: s in sigs ==> |s| <= MAX_PUSH && s != [] && s !in keys
    ensures var rest := MultisigScript(nRequired, keys);
      Stripped(PushAll([[]] + sigs) + rest, Reversed(sigs)) == PushOp([]) + rest
  {
    hide MultisigScript, Reversed, Stripped, List, PushOp, PushAll;
    var rest := MultisigScript(nRequired, keys);
    forall s | s in Reversed(sigs) ensures |s| < UINT_LIMIT && s != [] && PushOp(s) !in List(rest).ops {
      ReversedMember(sigs, s);
      NoSigInScript(nRequired, keys, s);
    }
    StrippedPushes([[]] + sigs, rest, Reversed(sigs));
    forall s | s in sigs ensures s in Reversed(sigs) { ReversedHas(sigs, s); }
    OnlyFirstKept([], sigs, Reversed(sigs));
    OnePush([]);
  }

  lemma ReversedHas(s: seq<Value>, v: Value)
    requires v in s
    ensures v in Reversed(s)
  {
    var i :| 0 <= i < |s| && s[i] == v;
    assert Reversed(s)[|s| - 1 - i] == v;
  }

  lemma {:induction false} OnlyFirstKept(first: Value, more: seq<Value>, others: seq<Value>)
    requires first !in others && forall v :: v in more ==> v in others
    ensures NotIn([first] + more, others) == [first]
    decreases |more|
  {
    var n := |more|;
    if n == 0 {
      assert ([first] + more)[..0] == [] && [first] + more == [first];
    } else {
      assert ([first] + more)[..n] == [first] + more[..n - 1];
      OnlyFirstKept(first, more[..n - 1], others);
      assert more[n - 1] in more;
    }
  }

  lemma FourParts(script: seq<byte>, n: byte, p: seq<byte>, k: byte, c: byte)
    requires script == [n] + p + [k] + [c]
    ensures |script| == |p| + 3 && At(script, 0, [n]) && At(script, 1, p) && At(script, 1 + |p|, [k])
    ensures script[|script| - 1] == c
  {
    assert script[1..] == p + ([k] + [c]);
    assert script[1 + |p|..] == [k] + [c];
  }

  lemma AtRest(script: seq<byte>, pc: nat, rest: seq<byte>, i: nat, code: seq<byte>)
    requires pc <= |script| && script[pc..] == rest && At(rest, i, code)
    ensures At(script, pc + i, code)
  {
    assert script[pc + i..] == rest[i..];
  }

  lemma AllPushed(m: Machine, values: seq<Value>, n: Value, keys: seq<Value>, k: Value)
    ensures Pushed(Pushed(Pushed(Pushed(m, values), [n]), keys), [k]) ==
      m.(s := m.s.(main := m.s.main + values + [n] + keys + [k]))
  {
  }

  /** The pushes of a script for several keys, up to its last operation. */
  lemma KeysPushed(env: Env, pc: nat, m: Machine, nRequired: nat, keys: seq<Value>)
    requires nRequired <= 16 && |keys| <= 16 && |m.s.main| <= 20 && m.s.alt == []
    requires pc <= |env.script| && env.script[pc..] == MultisigScript(nRequired, keys)
    requires forall k :: k in keys ==> |k| <= MAX_PUSH
    ensures pc < |env.script| && env.script[|env.script| - 1] == OP_CHECKMULTISIG
    ensures EvalFrom(env, pc, Flat([], m)) == EvalFrom(env, |env.script| - 1,
      Flat([], Pushed(Pushed(Pushed(m, [Number(nRequired)]), keys), [Number(|keys|)])))
  {
    hide EvalFrom, PushAll, At, Number, EncodeOpN;
    var rest, p := env.script[pc..], PushAll(keys);
    FourParts(rest, EncodeOpN(nRequired), p, EncodeOpN(|keys|), OP_CHECKMULTISIG);
    hide MultisigScript;
    AtRest(env.script, pc, rest, 0, [EncodeOpN(nRequired)]);
    AtRest(env.script, pc, rest, 1, p);
    AtRest(env.script, pc, rest, 1 + |p|, [EncodeOpN(|keys|)]);
    EvalNumber(env, pc, m, nRequired);
    EvalPushes(env, pc + 1, Pushed(m, [Number(nRequired)]), keys);
    EvalNumber(env, pc + 1 + |p|, Pushed(Pushed(m, [Number(nRequired)]), keys), |keys|);
  }

  /** The pushes before them. */
  lemma ToTheEnd(env: Env, nRequired: nat, keys: seq<Value>, values: seq<Value>)
    requires nRequired <= 16 && |keys| <= 16 && |values| <= 17
    requires env.script == PushAll(values) + MultisigScript(nRequired, keys) && |env.script| <= MAX_SCRIPT
    requires (forall k :: k in keys ==> |k| <= MAX_PUSH) && forall v :: v in values ==> |v| <= MAX_PUSH
    ensures env.script != [] && env.script[|env.script| - 1] == OP_CHECKMULTISIG
    ensures var m := Machine(Stacks(values + [Number(nRequired)] + keys + [Number(|keys|)], []), 0, 0);
      Eval(env, []) == EvalFrom(env, |env.script| - 1, Flat([], m))
  {
    hide EvalFrom, PushAll, Number, Eval, MultisigScript;
    var a, m := PushAll(values), Machine(Stacks([], []), 0, 0);
    EvalBegins(env, []);
    assert env.script[0..] == env.script && env.script[|a|..] == MultisigScript(nRequired, keys);
    EvalPushes(env, 0, m, values);
    KeysPushed(env, |a|, Pushed(m, values), nRequired, keys);
    AllPushed(m, values, Number(nRequired), keys, Number(|keys|));
    assert [] + values == values;
  }
}
