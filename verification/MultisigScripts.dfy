/** From merged signatures to a verified input: the script that demands some of several keys' signatures, and the
    verification of an input script against it. */
module MultisigScripts {
  import opened Basics
  import opened Bytes
  import opened Script
  import opened Multisig
  import opened ScriptEval
  import opened ScriptBlocks

  /* ---- the script ---- */

  /** The operation that pushes a small number, and the value it pushes. */
  function EncodeOpN(n: nat): byte
    requires n <= 16
  {
    if n == 0 then OP_0 else OP_1 + (n as byte - 1)
  }

  function Number(n: nat): Value
    requires n <= 16
  {
    if n == 0 then [] else [n as byte]
  }

  function MultisigScript(nRequired: nat, keys: seq<Value>): seq<byte>
    requires nRequired <= 16 && |keys| <= 16
  {
    [EncodeOpN(nRequired)] + PushAll(keys) + [EncodeOpN(|keys|)] + [OP_CHECKMULTISIG]
  }

  method SetMultisig(nRequired: nat, keys: seq<Value>) returns (script: seq<byte>)
    requires nRequired <= 16 && |keys| <= 16
    ensures script == MultisigScript(nRequired, keys)
  {
    hide PushOp;
    script := [EncodeOpN(nRequired)];
    var i := 0;
    while i < |keys|
      invariant 0 <= i <= |keys| && script == [EncodeOpN(nRequired)] + PushAll(keys[..i])
    {
      PushOne(keys[..i], keys[i]);
      assert keys[..i + 1] == keys[..i] + [keys[i]];
      Append([EncodeOpN(nRequired)], PushAll(keys[..i]), PushOp(keys[i]));
      script := script + PushOp(keys[i]);
      i := i + 1;
    }
    assert keys[..i] == keys;
    script := script + [EncodeOpN(|keys|)];
    script := script + [OP_CHECKMULTISIG];
  }

  /* ---- running pushes ---- */

  lemma PushCode(b: seq<byte>, rest: seq<byte>)
    requires |b| < UINT_LIMIT
    ensures FirstOp(PushOp(b) + rest).Got? && FirstOp(PushOp(b) + rest).code <= OP_PUSHDATA4
  {
    hide UintBytes, Little;
    PushRead(b, rest);
    assert (PushOp(b) + rest)[0] == PushHead(b)[0];
  }

  /** The machine with more values on its stack. */
  function Pushed(m: Machine, values: seq<Value>): Machine { m.(s := m.s.(main := m.s.main + values)) }

  /** At the position stands the code. */
  predicate At(script: seq<byte>, pc: nat, code: seq<byte>) { pc <= |script| && code <= script[pc..] }

  lemma EvalPush(env: Env, pc: nat, m: Machine, v: Value)
    requires At(env.script, pc, PushOp(v)) && |v| <= MAX_PUSH && |m.s.main| + |m.s.alt| < MAX_STACK
    ensures pc + |PushOp(v)| <= |env.script|
    ensures EvalFrom(env, pc, Flat([], m)) == EvalFrom(env, pc + |PushOp(v)|, Flat([], Pushed(m, [v])))
  {
    hide FirstOp, PushHead, EvalFrom;
    PushedSome(v);
    var rest := env.script[pc..][|PushOp(v)|..];
    assert env.script[pc..] == PushOp(v) + rest;
    PushRead(v, rest);
    PushCode(v, rest);
    EvalStep(env, pc, Flat([], m));
    PushStep(env, Op(FirstOp(env.script[pc..]).code, v, pc + |PushOp(v)|), m, v);
  }

  lemma PushStep(env: Env, op: Op, m: Machine, v: Value)
    requires op.code <= OP_PUSHDATA4 && op.data == v && |v| <= MAX_PUSH && |m.s.main| + |m.s.alt| < MAX_STACK
    ensures Step(env, op, Flat([], m)) == Some(Flat([], Pushed(m, [v])))
  {
  }

  lemma {:induction false} EvalPushes(env: Env, pc: nat, m: Machine, values: seq<Value>)
    requires At(env.script, pc, PushAll(values)) && |m.s.main| + |m.s.alt| + |values| <= MAX_STACK
    requires forall v :: v in values ==> |v| <= MAX_PUSH
    ensures pc + |PushAll(values)| <= |env.script|
    ensures EvalFrom(env, pc, Flat([], m)) == EvalFrom(env, pc + |PushAll(values)|, Flat([], Pushed(m, values)))
  {
    hide EvalFrom, PushOp;
    if values == [] {
      assert m.s.main + [] == m.s.main;
    } else {
      var n := |values| - 1;
      var a, b := PushAll(values[..n]), PushOp(values[n]);
      assert values[n] in values;
      assert env.script[pc..][..|a| + |b|] == a + b;
      assert a <= env.script[pc..];
      EvalPushes(env, pc, m, values[..n]);
      assert env.script[pc + |a|..] == env.script[pc..][|a|..];
      assert b <= env.script[pc + |a|..];
      EvalPush(env, pc + |a|, Pushed(m, values[..n]), values[n]);
      assert m.s.main + values[..n] + [values[n]] == m.s.main + values;
    }
  }

  lemma EvalNumber(env: Env, pc: nat, m: Machine, n: nat)
    requires n <= 16 && At(env.script, pc, [EncodeOpN(n)]) && |m.s.main| + |m.s.alt| < MAX_STACK
    ensures pc < |env.script|
    ensures EvalFrom(env, pc, Flat([], m)) == EvalFrom(env, pc + 1, Flat([], Pushed(m, [Number(n)])))
  {
    hide EvalFrom;
    assert pc < |env.script| && env.script[pc..][0] == EncodeOpN(n);
    EvalStep(env, pc, Flat([], m));
  }

  /* ---- nothing to strip ---- */

  lemma {:induction false} FilterNothing(ops: seq<seq<byte>>, b: seq<byte>)
    requires b !in ops
    ensures Filter(ops, b) == ops
  {
    if ops != [] { FilterNothing(ops[1..], b); }
  }

  lemma {:induction false} StrippedNothing(code: seq<byte>, sigs: seq<Value>)
    requires forall s :: s in sigs ==> |s| < UINT_LIMIT && PushOp(s) !in List(code).ops
    ensures Stripped(code, sigs) == code
  {
    hide PushOp, List, Joined, Deleted, IsOp;
    if sigs != [] {
      var n := |sigs| - 1;
      StrippedNothing(code, sigs[..n]);
      assert sigs[n] in sigs;
      PushIsOp(sigs[n]);
      PushedSome(sigs[n]);
      DeletedIsFilter(code, PushOp(sigs[n]));
      FilterNothing(List(code).ops, PushOp(sigs[n]));
      ListBytes(code);
    }
  }

  lemma ListFirst(op: seq<byte>, rest: seq<byte>)
    requires IsOp(op)
    ensures List(op + rest).ops == [op] + List(rest).ops
  {
    hide FirstOp;
    FirstOpExtend(op, op + rest);
    assert (op + rest)[..|op|] == op && (op + rest)[|op|..] == rest;
  }

  function PushOps(values: seq<Value>): (ops: seq<seq<byte>>)
    ensures |ops| == |values| && forall i :: 0 <= i < |values| ==> ops[i] == PushOp(values[i])
  {
    seq(|values|, i requires 0 <= i < |values| => PushOp(values[i]))
  }

  lemma {:induction false} ListPushes(values: seq<Value>, rest: seq<byte>)
    requires forall v :: v in values ==> |v| < UINT_LIMIT
    ensures List(PushAll(values) + rest).ops == PushOps(values) + List(rest).ops
    decreases |values|
  {
    hide PushOp, List;
    if values == [] {
      assert PushAll(values) + rest == rest;
    } else {
      var n := |values| - 1;
      var v := values[n];
      assert v in values;
      assert PushAll(values) + rest == PushAll(values[..n]) + (PushOp(v) + rest);
      ListPushes(values[..n], PushOp(v) + rest);
      PushIsOp(v);
      ListFirst(PushOp(v), rest);
      assert PushOps(values) == PushOps(values[..n]) + [PushOp(v)];
    }
  }

  /** The operations of the script. */
  lemma ScriptOps(nRequired: nat, keys: seq<Value>)
    requires nRequired <= 16 && |keys| <= 16 && forall k :: k in keys ==> |k| < UINT_LIMIT
    ensures List(MultisigScript(nRequired, keys)).ops ==
      [[EncodeOpN(nRequired)]] + (PushOps(keys) + ([[EncodeOpN(|keys|)]] + [[OP_CHECKMULTISIG]]))
  {
    hide List, PushOps, PushAll;
    var a, b, c := [EncodeOpN(nRequired)], [EncodeOpN(|keys|)], [OP_CHECKMULTISIG];
    OneByteOps(nRequired, |keys|);
    assert MultisigScript(nRequired, keys) == a + (PushAll(keys) + (b + c));
    ListFirst(a, PushAll(keys) + (b + c));
    ListPushes(keys, b + c);
    ListFirst(b, c);
    assert c + [] == c;
    ListFirst(c, []);
    NothingListed();
  }

  lemma NothingListed()
    ensures List([]).ops == []
  {
  }

  lemma OneByteOps(n: nat, k: nat)
    requires n <= 16 && k <= 16
    ensures IsOp([EncodeOpN(n)]) && IsOp([EncodeOpN(k)]) && IsOp([OP_CHECKMULTISIG])
  {
  }

  /** A push is none of them unless it pushes a key, or the number 0 stands there. */
  lemma NoSigInScript(nRequired: nat, keys: seq<Value>, sig: Value)
    requires 0 < nRequired <= 16 && 0 < |keys| <= 16 && forall k :: k in keys ==> |k| < UINT_LIMIT
    requires |sig| < UINT_LIMIT && sig !in keys
    ensures PushOp(sig) !in List(MultisigScript(nRequired, keys)).ops
  {
    ScriptOps(nRequired, keys);
    hide List, MultisigScript;
    PushFirst(sig);
    forall i | 0 <= i < |keys| ensures PushOps(keys)[i] != PushOp(sig) {
      assert keys[i] in keys;
      PushDiffers(keys[i], sig);
    }
  }

  lemma PushFirst(b: seq<byte>)
    ensures PushOp(b)[0] <= OP_PUSHDATA4
  {
    hide UintBytes;
  }

  lemma PushDiffers(a: Value, b: Value)
    requires |a| < UINT_LIMIT && |b| < UINT_LIMIT && a != b
    ensures PushOp(a) != PushOp(b)
  {
    hide FirstOp, PushOp;
    PushRead(a, []);
    PushRead(b, []);
  }

  /* ---- the verdict ---- */

  /** What the script leaves on a dummy value and as many signatures as it demands: whether each can be given a key of
      its own that it is good for, in the order of the keys. */
  lemma MultisigVerdict(env: Env, nRequired: nat, keys: seq<Value>, dummy: Value, sigs: seq<Value>)
    requires 0 < nRequired <= |keys| <= 16 && |sigs| == nRequired
    requires env.script == MultisigScript(nRequired, keys) && |env.script| <= MAX_SCRIPT
    requires (forall k :: k in keys ==> |k| <= MAX_PUSH) && forall s :: s in sigs ==> |s| < UINT_LIMIT && s !in keys
    ensures Eval(env, [dummy] + sigs) == Some([Bool(Assignable(CheckWith(env, env.script), sigs, keys))])
  {
    hide EvalFrom, Assignable, MultisigScript, Greedy, Execute, PushAll, CheckMultisig;
    var stack := [dummy] + sigs + [Number(nRequired)] + keys + [Number(|keys|)];
    var m := Machine(Stacks(stack, []), 0, 0);
    ToTheCheck(env, nRequired, keys, [dummy] + sigs);
    Answer(env, m.(nOpCount := 1), nRequired, keys, dummy, sigs);
    LastOp(env, m);
  }

  /** The pushes of the script. */
  lemma ToTheCheck(env: Env, nRequired: nat, keys: seq<Value>, stack: seq<Value>)
    requires nRequired <= 16 && |keys| <= 16 && |stack| <= 17
    requires env.script == MultisigScript(nRequired, keys) && |env.script| <= MAX_SCRIPT
    requires forall k :: k in keys ==> |k| <= MAX_PUSH
    ensures env.script != [] && env.script[|env.script| - 1] == OP_CHECKMULTISIG
    ensures var m := Machine(Stacks(stack + [Number(nRequired)] + keys + [Number(|keys|)], []), 0, 0);
      Eval(env, stack) == EvalFrom(env, |env.script| - 1, Flat([], m))
  {
    hide EvalFrom, PushAll;
    var m := Machine(Stacks(stack, []), 0, 0);
    var p := PushAll(keys);
    assert env.script == [EncodeOpN(nRequired)] + (p + ([EncodeOpN(|keys|)] + [OP_CHECKMULTISIG]));
    assert env.script[0..] == env.script;
    EvalNumber(env, 0, m, nRequired);
    assert env.script[1..] == p + ([EncodeOpN(|keys|)] + [OP_CHECKMULTISIG]);
    EvalPushes(env, 1, Pushed(m, [Number(nRequired)]), keys);
    assert env.script[1 + |p|..] == [EncodeOpN(|keys|)] + [OP_CHECKMULTISIG];
    EvalNumber(env, 1 + |p|, Pushed(Pushed(m, [Number(nRequired)]), keys), |keys|);
  }

  lemma Answer(env: Env, m: Machine, nRequired: nat, keys: seq<Value>, dummy: Value, sigs: seq<Value>)
    requires 0 < nRequired <= |keys| <= 16 && |sigs| == nRequired && m.begin == 0 && m.nOpCount == 1
    requires m.s.main == [dummy] + sigs + [Number(nRequired)] + keys + [Number(|keys|)]
    requires env.script == MultisigScript(nRequired, keys)
    requires (forall k :: k in keys ==> |k| <= MAX_PUSH) && forall s :: s in sigs ==> |s| < UINT_LIMIT && s !in keys
    ensures CheckMultisig(env, m).Some? && CheckMultisig(env, m).value.s ==
      Stacks([Bool(Assignable(CheckWith(env, env.script), sigs, keys))], m.s.alt)
  {
    hide Assignable, MultisigScript, Greedy, Stripped, CastToInt, Top, Down, Reversed;
    NumberRead(nRequired);
    NumberRead(|keys|);
    assert env.script[0..] == env.script;
    NoneStripped(nRequired, keys, sigs);
    assert m.s.main == [] + [dummy] + sigs + [Number(nRequired)] + keys + [Number(|keys|)];
    StackParts(m.s.main, [], dummy, sigs, Number(nRequired), keys, Number(|keys|));
    GreedyIff(CheckWith(env, env.script), Reversed(sigs), Reversed(keys));
    AssignableEitherWay(CheckWith(env, env.script), sigs, keys);
  }

  lemma NoneStripped(nRequired: nat, keys: seq<Value>, sigs: seq<Value>)
    requires 0 < nRequired <= 16 && 0 < |keys| <= 16
    requires (forall k :: k in keys ==> |k| <= MAX_PUSH) && forall s :: s in sigs ==> |s| < UINT_LIMIT && s !in keys
    ensures var script := MultisigScript(nRequired, keys); Stripped(script, Reversed(sigs)) == script
  {
    hide MultisigScript, Reversed, Stripped, List, PushOp;
    var script := MultisigScript(nRequired, keys);
    forall s | s in Reversed(sigs) ensures |s| < UINT_LIMIT && PushOp(s) !in List(script).ops {
      ReversedMember(sigs, s);
      NoSigInScript(nRequired, keys, s);
    }
    StrippedNothing(script, Reversed(sigs));
  }

  lemma ReversedMember(s: seq<Value>, v: Value)
    requires v in Reversed(s)
    ensures v in s
  {
  }

  lemma NumberRead(n: nat)
    requires n <= 16
    ensures CastToInt(Number(n)) == Some(n)
  {
    if n > 0 {
      assert Number(n)[..0] + [Number(n)[0] % 0x80] == [n as byte];
      LittleOne(n as byte);
    }
  }

  lemma AssignableEitherWay(check: Check, sigs: seq<Value>, keys: seq<Value>)
    ensures Assignable(check, Reversed(sigs), Reversed(keys)) == Assignable(check, sigs, keys)
  {
    hide Assignable;
    if Assignable(check, sigs, keys) { AssignableReversed(check, sigs, keys); }
    if Assignable(check, Reversed(sigs), Reversed(keys)) {
      AssignableReversed(check, Reversed(sigs), Reversed(keys));
      assert Reversed(Reversed(sigs)) == sigs && Reversed(Reversed(keys)) == keys;
    }
  }

  /** The last operation and the end of the script. */
  lemma LastOp(env: Env, m: Machine)
    requires env.script != [] && env.script[|env.script| - 1] == OP_CHECKMULTISIG && m.nOpCount == 0
    requires var r := CheckMultisig(env, m.(nOpCount := 1)); r.Some? && |r.value.s.main| == 1 && r.value.s.alt == []
    ensures EvalFrom(env, |env.script| - 1, Flat([], m)) == Some(CheckMultisig(env, m.(nOpCount := 1)).value.s.main)
  {
    hide EvalFrom, CheckMultisig;
    var pc := |env.script| - 1;
    assert env.script[pc..] == [OP_CHECKMULTISIG];
    EvalStep(env, pc, Flat([], m));
    var made := CheckMultisig(env, m.(nOpCount := 1)).value;
    assert Step(env, Op(OP_CHECKMULTISIG, [], pc + 1), Flat([], m)) == Some(Flat([], made));
    EvalEnd(env, Flat([], made));
  }

  /** A script of pushes leaves what it pushes. */
  lemma PushesLeave(env: Env, values: seq<Value>)
    requires env.script == PushAll(values) && |env.script| <= MAX_SCRIPT && |values| <= MAX_STACK
    requires forall v :: v in values ==> |v| <= MAX_PUSH
    ensures Eval(env, []) == Some(values)
  {
    hide EvalFrom, PushAll;
    var m := Machine(Stacks([], []), 0, 0);
    assert env.script[0..] == env.script;
    EvalPushes(env, 0, m, values);
    assert [] + values == values;
    EvalEnd(env, Flat([], Pushed(m, values)));
  }

  /* ---- verifying an input ---- */

  const OP_HASH160: byte := 0xa9
  const OP_EQUAL: byte := 0x87

  predicate IsPayToScriptHash(script: seq<byte>) {
    |script| == 23 && script[0] == OP_HASH160 && script[1] == 0x14 && script[22] == OP_EQUAL
  }

  /** From the position on the script can be read and only pushes. */
  predicate OnlyPushes(script: seq<byte>, pc: nat)
    requires pc <= |script|
    decreases |script| - pc
  {
    pc == |script| ||
    (var p := FirstOp(script[pc..]); p.Got? && p.code <= OP_16 && OnlyPushes(script, pc + p.len))
  }

  method IsPushOnly(script: seq<byte>) returns (ok: bool)
    ensures ok == OnlyPushes(script, 0)
  {
    hide FirstOp;
    var pc := 0;
    while pc < |script|
      invariant 0 <= pc <= |script| && OnlyPushes(script, 0) == OnlyPushes(script, pc)
      decreases |script| - pc
    {
      var got, next, opcode, data := GetOp(script, pc);
      if !got { return false; }
      if opcode > OP_16 { return false; }
      pc := next;
    }
    ok := true;
  }

  predicate Accepts(r: Option<seq<Value>>) { r.Some? && r.value != [] && CastToBool(Top(r.value, 1)) }

  /** The two scripts, one after the other, leave a true value; and if the second demands a script by its hash, that
      script, which the first must have pushed and nothing but pushes besides, leaves one on what is below it. */
  predicate Verifies(env: Env, scriptSig: seq<byte>, scriptPubKey: seq<byte>, fP2SH: bool) {
    match Eval(env.(script := scriptSig), [])
    case None => false
    case Some(stack) =>
      && Accepts(Eval(env.(script := scriptPubKey), stack))
      && (fP2SH && IsPayToScriptHash(scriptPubKey) ==>
            && OnlyPushes(scriptSig, 0) && stack != []
            && Accepts(Eval(env.(script := Top(stack, 1)), stack[..|stack| - 1])))
  }

  method Accepted(env: Env, stack0: seq<Value>) returns (ok: bool)
    ensures ok == Accepts(Eval(env, stack0))
  {
    hide Eval;
    var done, stack := EvalScript(env, stack0);
    if !done || |stack| == 0 { return false; }
    ok := TestBool(Top(stack, 1));
  }

  method VerifyScript(env: Env, scriptSig: seq<byte>, scriptPubKey: seq<byte>, fValidatePayToScriptHash: bool)
    returns (ok: bool)
    ensures ok == Verifies(env, scriptSig, scriptPubKey, fValidatePayToScriptHash)
  {
    hide Eval, CastToBool, Accepts;
    var done, stack := EvalScript(env.(script := scriptSig), []);
    if !done { return false; }
    var stackCopy := stack;
    ok := Accepted(env.(script := scriptPubKey), stack);
    if !ok { return; }
    if fValidatePayToScriptHash && IsPayToScriptHash(scriptPubKey) {
      ok := IsPushOnly(scriptSig);
      if !ok || |stackCopy| == 0 { return false; }
      ok := Accepted(env.(script := Top(stackCopy, 1)), stackCopy[..|stackCopy| - 1]);
    }
  }

  lemma {:induction false} PushAllLength(values: seq<Value>)
    requires forall v :: v in values ==> |v| <= MAX_PUSH
    ensures |PushAll(values)| <= 525 * |values|
  {
    hide UintBytes;
    if values != [] {
      var n := |values| - 1;
      assert values[n] in values;
      PushAllLength(values[..n]);
    }
  }

  lemma {:induction false} PushAllFirst(v: Value, values: seq<Value>)
    ensures PushAll([v] + values) == PushOp(v) + PushAll(values)
  {
    hide PushOp;
    if values == [] {
      assert [v] + values == [v] && [v][..0] == [];
    } else {
      var n := |values| - 1;
      PushAllFirst(v, values[..n]);
      assert ([v] + values)[..|values|] == [v] + values[..n];
      Append(PushOp(v), PushAll(values[..n]), PushOp(values[n]));
    }
  }

  /** An input that pushes a dummy value and the signatures demanded verifies exactly if they can be assigned. */
  lemma MultisigVerifies(env: Env, scriptSig: seq<byte>, nRequired: nat, keys: seq<Value>, sigs: seq<Value>,
      fP2SH: bool)
    requires 0 < nRequired <= |keys| <= 16 && |sigs| == nRequired && scriptSig == PushOp([]) + PushAll(sigs)
    requires (forall k :: k in keys ==> |k| <= MAX_PUSH) && forall s :: s in sigs ==> |s| <= MAX_PUSH && s !in keys
    ensures var script := MultisigScript(nRequired, keys);
      Verifies(env, scriptSig, script, fP2SH) == Assignable(CheckWith(env, script), sigs, keys)
  {
    hide Eval, PushAll, PushOp, Assignable, UintBytes;
    var script := MultisigScript(nRequired, keys);
    PushAllLength(keys);
    PushAllFirst([], sigs);
    PushAllLength([[]] + sigs);
    PushesLeave(env.(script := scriptSig), [[]] + sigs);
    SameCheck(env, script);
    MultisigVerdict(env.(script := script), nRequired, keys, [], sigs);
    assert !IsPayToScriptHash(script);
    TruthOf(Assignable(CheckWith(env, script), sigs, keys));
  }

  lemma SameCheck(env: Env, script: seq<byte>)
    ensures CheckWith(env.(script := script), script) == CheckWith(env, script)
  {
  }

  lemma TruthOf(b: bool)
    ensures CastToBool(Bool(b)) == b
  {
    if b { assert TRUE[0] == 1; }
  }

  /** What verifying a merge that has gathered so many signatures comes to: it verifies if they are as many as required,
      and, where an empty signature is good for no key, only then. */
  ghost predicate Outcome(check: Check, keys: seq<Value>, nRequired: nat, pushed: seq<Value>, have: nat, ok: bool) {
    && ok == Assignable(check, pushed, keys) && (have == nRequired ==> ok)
    && ((forall k :: k in keys ==> !check([], k)) ==> (ok <==> have == nRequired))
  }

  /** Two sets of signatures are merged and the result is verified. */
  method MergeAndVerify(env: Env, nRequired: nat, keys: seq<Value>, sigs1: seq<Value>, sigs2: seq<Value>, fP2SH: bool)
    returns (scriptSig: seq<byte>, ok: bool)
    requires 0 < nRequired <= |keys| <= 16 && forall k :: k in keys ==> 0 < |k| <= MAX_PUSH
    requires forall s :: s in sigs1 || s in sigs2 ==> |s| <= MAX_PUSH && s !in keys
    ensures var check := CheckWith(env, MultisigScript(nRequired, keys));
      exists pushed, have :: MergedAs(check, keys, nRequired, sigs1, sigs2, scriptSig, pushed, have)
                             && Outcome(check, keys, nRequired, pushed, have, ok)
  {
    hide Assignable, PushOp, PushAll, Verifies, MultisigScript;
    var script := SetMultisig(nRequired, keys);
    scriptSig := CombineMultisig(CheckWith(env, script), keys, nRequired, sigs1, sigs2);
    ghost var pushed, have: nat :|
      MergedAs(CheckWith(env, script), keys, nRequired, sigs1, sigs2, scriptSig, pushed, have);
    forall s | s in pushed ensures |s| <= MAX_PUSH && s !in keys {
      MergedMember(CheckWith(env, script), keys, nRequired, sigs1, sigs2, scriptSig, pushed, have, s);
    }
    MultisigVerifies(env, scriptSig, nRequired, keys, pushed, fP2SH);
    ok := VerifyScript(env, scriptSig, script, fP2SH);
    if have == nRequired { assert pushed[..have] == pushed; }
    if have < nRequired { EmptyUnassigned(CheckWith(env, script), pushed, keys, have); }
    assert Outcome(CheckWith(env, script), keys, nRequired, pushed, have, ok);
  }

  lemma MergedMember(check: Check, keys: seq<Value>, n: nat, sigs1: seq<Value>, sigs2: seq<Value>, result: seq<byte>,
      pushed: seq<Value>, have: nat, s: Value)
    requires MergedAs(check, keys, n, sigs1, sigs2, result, pushed, have) && s in pushed
    ensures s == [] || s in sigs1 || s in sigs2
  {
    hide PushOp, PushAll, Assignable;
    assert pushed == pushed[..have] + pushed[have..];
  }

  /** With an empty signature among them that is good for no key, they cannot be assigned. */
  lemma EmptyUnassigned(check: Check, sigs: seq<Value>, keys: seq<Value>, i: nat)
    requires i < |sigs| && sigs[i] == []
    ensures (forall k :: k in keys ==> !check([], k)) ==> !Assignable(check, sigs, keys)
  {
    if Assignable(check, sigs, keys) {
      var f :| Assigns(check, sigs, keys, f);
      assert check(sigs[i], keys[f[i]]) && keys[f[i]] in keys;
    }
  }
}
