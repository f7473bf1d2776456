/** The scripts in common use, and when an input verifies against them: a payment to a key, to the hash of a key, and
    to the hash of a script. */
module StandardScripts {
  import opened Basics
  import opened Bytes
  import opened Script
  import opened Multisig
  import opened ScriptEval
  import opened MultisigScripts

  const OP_DUP: byte := 0x76
  const OP_EQUALVERIFY: byte := 0x88

  /* ---- one operation at a time ---- */

  /** At the position stands an operation that counts, and this is what it does. */
  ghost predicate Does(env: Env, pc: nat, code: byte, m: Machine, next: Option<Machine>) {
    && At(env.script, pc, [code]) && code > OP_16 && !Conditional(code) && code !in DISABLED && m.nOpCount < MAX_OPS
    && Execute(env, Op(code, [], pc + 1), m.(nOpCount := m.nOpCount + 1)) == next
    && (next.Some? ==> |next.value.s.main| + |next.value.s.alt| <= MAX_STACK)
  }

  lemma EvalOne(env: Env, pc: nat, code: byte, m: Machine, next: Option<Machine>)
    requires Does(env, pc, code, m, next)
    ensures pc < |env.script|
    ensures EvalFrom(env, pc, Flat([], m)) ==
      match next case None => None case Some(m') => EvalFrom(env, pc + 1, Flat([], m'))
  {
    hide EvalFrom, Execute;
    assert env.script[pc..][0] == code;
    EvalStep(env, pc, Flat([], m));
  }

  /** The script ends. */
  lemma EvalDone(env: Env, pc: nat, m: Machine)
    requires pc == |env.script|
    ensures EvalFrom(env, pc, Flat([], m)) == Some(m.s.main)
  {
    hide EvalFrom;
    EvalEnd(env, Flat([], m));
  }

  lemma AtParts(script: seq<byte>, a: seq<byte>, b: seq<byte>, c: seq<byte>)
    requires script == a + b + c
    ensures At(script, |a|, b) && |a| + |b| <= |script|
  {
    assert script[|a|..] == b + c;
  }

  lemma EvalBegins(env: Env, stack: seq<Value>)
    requires |env.script| <= MAX_SCRIPT
    ensures Eval(env, stack) == EvalFrom(env, 0, Flat([], Machine(Stacks(stack, []), 0, 0)))
  {
    hide EvalFrom;
  }

  /** A script of two pushes' length and a few operations is short. */
  lemma PushLength(v: Value)
    requires |v| <= MAX_PUSH
    ensures 1 <= |PushOp(v)| <= |v| + 5
  {
    hide UintBytes;
  }

  /* ---- a payment to a key ---- */

  function KeyScript(key: Value): seq<byte> { PushOp(key) + [OP_CHECKSIG] }

  /** The signature is read below the key, and is not part of what it signs. */
  lemma SigChecked(env: Env, m: Machine, base: seq<Value>, sig: Value, key: Value)
    requires m.s.main == base + [sig] + [key] && |sig| < UINT_LIMIT
    requires PushOp(sig) !in List(Code(env, m.begin)).ops
    ensures CheckSig(env, m) == Some(m.(s := m.s.(main := base + [Bool(env.check(sig, key, Code(env, m.begin)))])))
  {
    hide Stripped, List, PushOp;
    StrippedNothing(Code(env, m.begin), [sig]);
    assert Top(m.s.main, 2) == sig && Top(m.s.main, 1) == key && m.s.main[..|m.s.main| - 2] == base;
  }

  lemma KeyScriptOps(key: Value, sig: Value)
    requires |key| < UINT_LIMIT && |sig| < UINT_LIMIT && sig != key
    ensures PushOp(sig) !in List(KeyScript(key)).ops
  {
    hide List, PushOp, FirstOp;
    PushIsOp(key);
    ListFirst(PushOp(key), [OP_CHECKSIG]);
    LastListed(OP_CHECKSIG);
    PushDiffers(key, sig);
    PushFirst(sig);
  }

  /** A single operation at the end of a script. */
  lemma LastListed(code: byte)
    requires code > OP_PUSHDATA4
    ensures List([code]).ops == [[code]]
  {
    hide List;
    assert IsOp([code]);
    ListFirst([code], []);
    NothingListed();
    assert [code] + [] == [code];
  }

  lemma KeyEval(env: Env, key: Value, sig: Value)
    requires env.script == KeyScript(key) && |key| <= MAX_PUSH && |sig| <= MAX_PUSH && sig != key
    ensures Eval(env, [sig]) == Some([Bool(env.check(sig, key, env.script))])
  {
    hide EvalFrom, PushOp, CheckSig, Eval;
    var m := Machine(Stacks([sig], []), 0, 0);
    PushLength(key);
    EvalBegins(env, [sig]);
    AtParts(env.script, [], PushOp(key), [OP_CHECKSIG]);
    assert env.script == [] + PushOp(key) + [OP_CHECKSIG];
    EvalPush(env, 0, m, key);
    var p := Pushed(m, [key]).(nOpCount := 1);
    assert env.script[0..] == env.script;
    KeyScriptOps(key, sig);
    SigChecked(env, p, [], sig, key);
    AtParts(env.script, PushOp(key), [OP_CHECKSIG], []);
    assert env.script == PushOp(key) + [OP_CHECKSIG] + [];
    EvalOne(env, |PushOp(key)|, OP_CHECKSIG, Pushed(m, [key]), CheckSig(env, p));
    EvalDone(env, |env.script|, CheckSig(env, p).value);
    assert [] + [Bool(env.check(sig, key, env.script))] == [Bool(env.check(sig, key, env.script))];
  }

  /** An input of one signature verifies against a key exactly if the signature is good for the key and the script. */
  lemma KeyVerifies(env: Env, sig: Value, key: Value, fP2SH: bool)
    requires |key| <= MAX_PUSH && |sig| <= MAX_PUSH && sig != key
    ensures Verifies(env, PushOp(sig), KeyScript(key), fP2SH) == env.check(sig, key, KeyScript(key))
  {
    hide Eval, PushOp, CastToBool;
    PushesEval(env, [sig]);
    assert PushAll([sig]) == PushOp(sig) by { OnePush(sig); }
    KeyEval(env.(script := KeyScript(key)), key, sig);
    TruthOf(env.check(sig, key, KeyScript(key)));
    NoP2SH(key);
  }

  lemma OnePush(v: Value)
    ensures PushAll([v]) == PushOp(v)
  {
    assert [v][..0] == [];
    assert PushAll([]) == [];
  }

  lemma NoP2SH(key: Value)
    ensures !IsPayToScriptHash(KeyScript(key))
  {
    PushFirst(key);
    PushedSome(key);
  }

  /** A short script of pushes leaves what it pushes. */
  lemma PushesEval(env: Env, values: seq<Value>)
    requires |values| <= 18 && forall v :: v in values ==> |v| <= MAX_PUSH
    ensures Eval(env.(script := PushAll(values)), []) == Some(values)
  {
    hide Eval, PushAll;
    PushAllLength(values);
    PushesLeave(env.(script := PushAll(values)), values);
  }

  /* ---- hashes ---- */

  /** The operations these scripts use that are not spelled out elsewhere do what their names say. */
  ghost predicate Named(env: Env, hash160: Value -> Value) {
    && (forall st, alt :: st != [] ==> env.prim(OP_DUP, Stacks(st, alt)) == Some(Stacks(st + [Top(st, 1)], alt)))
    && (forall st, alt :: st != [] ==>
          env.prim(OP_HASH160, Stacks(st, alt)) == Some(Stacks(st[..|st| - 1] + [hash160(Top(st, 1))], alt)))
    && (forall st, alt :: |st| >= 2 ==>
          env.prim(OP_EQUAL, Stacks(st, alt)) == Some(Stacks(st[..|st| - 2] + [Bool(Top(st, 2) == Top(st, 1))], alt)))
    && (forall st, alt :: |st| >= 2 ==>
          env.prim(OP_EQUALVERIFY, Stacks(st, alt)) ==
          if Top(st, 2) == Top(st, 1) then Some(Stacks(st[..|st| - 2], alt)) else None)
  }

  /** One of these operations. */
  lemma EvalPrim(env: Env, pc: nat, code: byte, m: Machine, s: Option<Stacks>)
    requires At(env.script, pc, [code]) && code in {OP_DUP, OP_HASH160, OP_EQUAL, OP_EQUALVERIFY}
    requires m.nOpCount < MAX_OPS && env.prim(code, m.s) == s
    requires s.Some? ==> |s.value.main| + |s.value.alt| <= MAX_STACK
    ensures pc < |env.script|
    ensures EvalFrom(env, pc, Flat([], m)) ==
      match s
      case None => None
      case Some(s') => EvalFrom(env, pc + 1, Flat([], Machine(s', m.nOpCount + 1, m.begin)))
  {
    hide EvalFrom;
    var next := if s.None? then None else Some(Machine(s.value, m.nOpCount + 1, m.begin));
    EvalOne(env, pc, code, m, next);
  }

  function ScriptHashScript(h: Value): seq<byte> { [OP_HASH160] + PushOp(h) + [OP_EQUAL] }

  lemma ScriptHashIs(h: Value)
    requires |h| == 20
    ensures IsPayToScriptHash(ScriptHashScript(h)) && |ScriptHashScript(h)| == 23
  {
  }

  /** Whether the value on top has the hash. */
  lemma ScriptHashEval(env: Env, hash160: Value -> Value, stack: seq<Value>, v: Value, h: Value)
    requires Named(env, hash160) && env.script == ScriptHashScript(h) && |h| == 20 && |stack| <= 20
    ensures Eval(env, stack + [v]) == Some(stack + [Bool(hash160(v) == h)])
  {
    ScriptHashIs(h);
    hide EvalFrom, PushOp, Eval, ScriptHashScript, IsPayToScriptHash;
    var p := PushOp(h);
    assert env.script == [OP_HASH160] + p + [OP_EQUAL] by { ScriptParts(h); }
    var m0 := Machine(Stacks(stack + [v], []), 0, 0);
    var m1 := Machine(Stacks(stack + [hash160(v)], []), 1, 0);
    EvalBegins(env, stack + [v]);
    assert env.script == [] + [OP_HASH160] + (p + [OP_EQUAL]);
    AtParts(env.script, [], [OP_HASH160], p + [OP_EQUAL]);
    assert (stack + [v])[..|stack|] == stack;
    EvalPrim(env, 0, OP_HASH160, m0, Some(m1.s));
    AtParts(env.script, [OP_HASH160], p, [OP_EQUAL]);
    EvalPush(env, 1, m1, h);
    var st := stack + [hash160(v)] + [h];
    assert Pushed(m1, [h]).s.main == st && st[..|st| - 2] == stack && Top(st, 2) == hash160(v) && Top(st, 1) == h;
    assert env.script == ([OP_HASH160] + p) + [OP_EQUAL] + [];
    AtParts(env.script, [OP_HASH160] + p, [OP_EQUAL], []);
    EvalPrim(env, 1 + |p|, OP_EQUAL, Pushed(m1, [h]), Some(Stacks(stack + [Bool(hash160(v) == h)], [])));
    EvalDone(env, 2 + |p|, Machine(Stacks(stack + [Bool(hash160(v) == h)], []), 2, 0));
  }

  lemma ScriptParts(h: Value)
    ensures ScriptHashScript(h) == [OP_HASH160] + PushOp(h) + [OP_EQUAL]
  {
  }

  /** Pushes are only pushes. */
  lemma {:induction false} PushesOnly(script: seq<byte>, values: seq<Value>, rest: seq<byte>)
    requires script == PushAll(values) + rest && forall v :: v in values ==> |v| < UINT_LIMIT
    ensures OnlyPushes(script, 0) == OnlyPushes(script, |PushAll(values)|)
    decreases |values|
  {
    hide PushOp, FirstOp;
    if values != [] {
      var n := |values| - 1;
      var a, b := PushAll(values[..n]), PushOp(values[n]);
      assert values[n] in values;
      assert script == a + (b + rest);
      PushesOnly(script, values[..n], b + rest);
      assert script[|a|..] == b + rest;
      PushRead(values[n], rest);
      PushCode(values[n], rest);
      PushedSome(values[n]);
    }
  }

  /** An input of pushes verifies against the hash of a script exactly if the last value pushed has that hash and, where
      such scripts are looked into, is a script that accepts the values below it. */
  lemma ScriptHashVerifies(env: Env, hash160: Value -> Value, values: seq<Value>, redeem: seq<byte>, h: Value,
      fP2SH: bool)
    requires Named(env, hash160) && |h| == 20 && |values| <= 17 && |redeem| <= MAX_PUSH
    requires forall v :: v in values ==> |v| <= MAX_PUSH
    ensures Verifies(env, PushAll(values + [redeem]), ScriptHashScript(h), fP2SH) <==>
      hash160(redeem) == h && (fP2SH ==> Accepts(Eval(env.(script := redeem), values)))
  {
    hide Eval, PushAll, CastToBool, ScriptHashScript, OnlyPushes, IsPayToScriptHash;
    var all := values + [redeem];
    PushesEval(env, all);
    ScriptHashIs(h);
    SameNames(env, hash160, ScriptHashScript(h));
    ScriptHashEval(env.(script := ScriptHashScript(h)), hash160, values, redeem, h);
    assert Top(all, 1) == redeem && all[..|all| - 1] == values;
    TruthOf(hash160(redeem) == h);
    assert PushAll(all) == PushAll(all) + [];
    PushesOnly(PushAll(all), all, []);
    EndOnly(PushAll(all));
  }

  lemma EndOnly(script: seq<byte>)
    ensures OnlyPushes(script, |script|)
  {
  }

  lemma SameNames(env: Env, hash160: Value -> Value, script: seq<byte>)
    requires Named(env, hash160)
    ensures Named(env.(script := script), hash160)
  {
  }

  /** Several keys behind a hash: the signatures demanded, and the script itself, verify exactly if the script has the
      hash and the signatures can be assigned to its keys. */
  lemma MultisigBehindHash(env: Env, hash160: Value -> Value, nRequired: nat, keys: seq<Value>, sigs: seq<Value>,
      h: Value)
    requires Named(env, hash160) && |h| == 20 && 0 < nRequired <= |keys| <= 16 && |sigs| == nRequired
    requires |MultisigScript(nRequired, keys)| <= MAX_PUSH
    requires (forall k :: k in keys ==> |k| <= MAX_PUSH) && forall s :: s in sigs ==> |s| <= MAX_PUSH && s !in keys
    ensures var redeem := MultisigScript(nRequired, keys);
      Verifies(env, PushAll([[]] + sigs + [redeem]), ScriptHashScript(h), true) <==>
        hash160(redeem) == h && Assignable(CheckWith(env, redeem), sigs, keys)
  {
    hide Eval, PushAll, Assignable, Verifies, MultisigScript, CastToBool;
    var redeem := MultisigScript(nRequired, keys);
    ScriptHashVerifies(env, hash160, [[]] + sigs, redeem, h, true);
    SameCheck(env, redeem);
    MultisigVerdict(env.(script := redeem), nRequired, keys, [], sigs);
    TruthOf(Assignable(CheckWith(env, redeem), sigs, keys));
  }

  /* ---- a payment to the hash of a key ---- */

  function KeyHashScript(h: Value): seq<byte> {
    [OP_DUP] + [OP_HASH160] + PushOp(h) + [OP_EQUALVERIFY] + [OP_CHECKSIG]
  }

  lemma KeyHashOps(h: Value, sig: Value)
    requires |h| < UINT_LIMIT && |sig| < UINT_LIMIT && sig != h
    ensures PushOp(sig) !in List(KeyHashScript(h)).ops
  {
    hide List, PushOp, FirstOp;
    PushIsOp(h);
    PushDiffers(h, sig);
    PushFirst(sig);
    OneByte(OP_DUP);
    OneByte(OP_HASH160);
    OneByte(OP_EQUALVERIFY);
    var tail := [OP_EQUALVERIFY] + [OP_CHECKSIG];
    assert KeyHashScript(h) == [OP_DUP] + ([OP_HASH160] + (PushOp(h) + tail));
    ListFirst([OP_DUP], [OP_HASH160] + (PushOp(h) + tail));
    ListFirst([OP_HASH160], PushOp(h) + tail);
    ListFirst(PushOp(h), tail);
    ListFirst([OP_EQUALVERIFY], [OP_CHECKSIG]);
    LastListed(OP_CHECKSIG);
  }

  lemma OneByte(code: byte)
    requires code > OP_PUSHDATA4
    ensures IsOp([code])
  {
  }

  /** What the script leaves on a signature and a key. */
  lemma KeyHashEval(env: Env, hash160: Value -> Value, sig: Value, key: Value, h: Value)
    requires Named(env, hash160) && env.script == KeyHashScript(h) && |h| == 20 && |sig| < UINT_LIMIT && sig != h
    ensures Eval(env, [sig] + [key]) ==
      if hash160(key) == h then Some([Bool(env.check(sig, key, env.script))]) else None
  {
    hide EvalFrom, PushOp, Eval, CheckSig;
    var p := PushOp(h);
    PushLength(h);
    assert env.script == [OP_DUP] + [OP_HASH160] + p + [OP_EQUALVERIFY] + [OP_CHECKSIG];
    KeyHashOps(h, sig);
    hide KeyHashScript;
    var m0 := Machine(Stacks([sig] + [key], []), 0, 0);
    var m1 := Machine(Stacks([sig] + [key] + [key], []), 1, 0);
    var m2 := Machine(Stacks([sig] + [key] + [hash160(key)], []), 2, 0);
    var m3 := Pushed(m2, [h]);
    EvalBegins(env, [sig] + [key]);
    ToTheHash(env, hash160, m0, m1, m2, p);
    assert env.script == ([OP_DUP] + [OP_HASH160]) + p + ([OP_EQUALVERIFY] + [OP_CHECKSIG]);
    AtParts(env.script, [OP_DUP] + [OP_HASH160], p, [OP_EQUALVERIFY] + [OP_CHECKSIG]);
    EvalPush(env, 2, m2, h);
    var st := m3.s.main;
    assert Top(st, 2) == hash160(key) && Top(st, 1) == h && st[..|st| - 2] == [sig] + [key];
    assert env.script == ([OP_DUP] + [OP_HASH160] + p) + [OP_EQUALVERIFY] + [OP_CHECKSIG];
    AtParts(env.script, [OP_DUP] + [OP_HASH160] + p, [OP_EQUALVERIFY], [OP_CHECKSIG]);
    var equal := hash160(key) == h;
    EvalPrim(env, 2 + |p|, OP_EQUALVERIFY, m3, if equal then Some(Stacks([sig] + [key], [])) else None);
    if equal { LastCheck(env, sig, key, 3 + |p|); }
  }

  lemma ToTheHash(env: Env, hash160: Value -> Value, m0: Machine, m1: Machine, m2: Machine, p: seq<byte>)
    requires Named(env, hash160) && env.script == [OP_DUP] + [OP_HASH160] + p + [OP_EQUALVERIFY] + [OP_CHECKSIG]
    requires |m0.s.main| == 2 && m0.s.alt == [] && m0.nOpCount == 0 && m0.begin == 0
    requires m1 == Machine(Stacks(m0.s.main + [m0.s.main[1]], []), 1, 0)
    requires m2 == Machine(Stacks(m0.s.main + [hash160(m0.s.main[1])], []), 2, 0)
    ensures EvalFrom(env, 0, Flat([], m0)) == EvalFrom(env, 2, Flat([], m2))
  {
    hide EvalFrom;
    var tail := p + [OP_EQUALVERIFY] + [OP_CHECKSIG];
    assert env.script == [] + [OP_DUP] + ([OP_HASH160] + tail);
    AtParts(env.script, [], [OP_DUP], [OP_HASH160] + tail);
    EvalPrim(env, 0, OP_DUP, m0, Some(m1.s));
    assert env.script == [OP_DUP] + [OP_HASH160] + tail;
    AtParts(env.script, [OP_DUP], [OP_HASH160], tail);
    assert m1.s.main[..2] == m0.s.main;
    EvalPrim(env, 1, OP_HASH160, m1, Some(m2.s));
  }

  lemma LastCheck(env: Env, sig: Value, key: Value, pc: nat)
    requires At(env.script, pc, [OP_CHECKSIG]) && pc + 1 == |env.script| && |sig| < UINT_LIMIT
    requires PushOp(sig) !in List(env.script).ops
    ensures EvalFrom(env, pc, Flat([], Machine(Stacks([sig] + [key], []), 3, 0))) ==
      Some([Bool(env.check(sig, key, env.script))])
  {
    hide EvalFrom, PushOp, List, CheckSig;
    var m, p := Machine(Stacks([sig] + [key], []), 3, 0), Machine(Stacks([sig] + [key], []), 4, 0);
    assert env.script[0..] == env.script;
    assert [] + [sig] + [key] == [sig] + [key];
    SigChecked(env, p, [], sig, key);
    EvalOne(env, pc, OP_CHECKSIG, m, CheckSig(env, p));
    EvalDone(env, pc + 1, CheckSig(env, p).value);
    assert [] + [Bool(env.check(sig, key, env.script))] == [Bool(env.check(sig, key, env.script))];
  }

  /** An input of a signature and a key verifies against the hash of a key exactly if the key has it and the signature
      is good for the key and the script. */
  lemma KeyHashVerifies(env: Env, hash160: Value -> Value, sig: Value, key: Value, h: Value, fP2SH: bool)
    requires Named(env, hash160) && |h| == 20 && |key| <= MAX_PUSH && |sig| <= MAX_PUSH && sig != h
    ensures Verifies(env, PushAll([sig] + [key]), KeyHashScript(h), fP2SH) <==>
      hash160(key) == h && env.check(sig, key, KeyHashScript(h))
  {
    hide Eval, PushAll, CastToBool, KeyHashScript, IsPayToScriptHash, OnlyPushes;
    PushesEval(env, [sig] + [key]);
    SameNames(env, hash160, KeyHashScript(h));
    KeyHashEval(env.(script := KeyHashScript(h)), hash160, sig, key, h);
    TruthOf(env.check(sig, key, KeyHashScript(h)));
    NotOfScript(h);
  }

  lemma NotOfScript(h: Value)
    ensures !IsPayToScriptHash(KeyHashScript(h))
  {
    assert KeyHashScript(h)[0] == OP_DUP;
  }
}
