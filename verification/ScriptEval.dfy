/** The script machine: one pass over the operations, with a stack of flags that says which of them count. */
module ScriptEval {
  import opened Basics
  import opened Bytes
  import opened Multisig
  import opened Script

  const OP_1NEGATE: byte := 0x4f
  const OP_NOP: byte := 0x61
  const OP_IF: byte := 0x63
  const OP_NOTIF: byte := 0x64
  const OP_ELSE: byte := 0x67
  const OP_ENDIF: byte := 0x68
  const OP_VERIFY: byte := 0x69
  const OP_RETURN: byte := 0x6a
  const OP_TOALTSTACK: byte := 0x6b
  const OP_FROMALTSTACK: byte := 0x6c
  const OP_CODESEPARATOR: byte := 0xab
  const OP_CHECKSIG: byte := 0xac
  const OP_CHECKSIGVERIFY: byte := 0xad
  const OP_CHECKMULTISIG: byte := 0xae
  const OP_CHECKMULTISIGVERIFY: byte := 0xaf
  const OP_NOP1: byte := 0xb0
  const OP_NOP10: byte := 0xb9

  const DISABLED: set<byte> :=
    {0x7e, 0x7f, 0x80, 0x81, 0x83, 0x84, 0x85, 0x86, 0x8d, 0x8e, 0x95, 0x96, 0x97, 0x98, 0x99}

  const MAX_SCRIPT: nat := 10000
  const MAX_PUSH: nat := 520
  const MAX_OPS: nat := 201
  const MAX_STACK: nat := 1000
  const MAX_KEYS: nat := 20

  /** An operation of the script and the position after it. */
  datatype Op = Op(code: byte, data: Value, next: nat)

  datatype Stacks = Stacks(main: seq<Value>, alt: seq<Value>)

  /** begin is where the hashed part of the script begins. */
  datatype Machine = Machine(s: Stacks, nOpCount: nat, begin: nat)

  /** The script, the signature check for a signature, a key and a part of the script, and the operations on
      the two stacks that are not spelled out here. */
  datatype Env = Env(script: seq<byte>, check: (Value, Value, seq<byte>) -> bool,
    prim: (byte, Stacks) -> Option<Stacks>)

  const TRUE: Value := [1]
  const FALSE: Value := []

  function Bool(b: bool): Value { if b then TRUE else FALSE }

  /* ---- values ---- */

  /** Not zero, and not negative zero. */
  predicate CastToBool(v: Value) {
    exists i :: 0 <= i < |v| && v[i] != 0 && !(i == |v| - 1 && v[i] == 0x80)
  }

  method TestBool(v: Value) returns (b: bool)
    ensures b == CastToBool(v)
  {
    var i := 0;
    while i < |v|
      invariant 0 <= i <= |v| && forall j :: 0 <= j < i ==> v[j] == 0
    {
      if v[i] != 0 {
        return !(i == |v| - 1 && v[i] == 0x80);
      }
      i := i + 1;
    }
    return false;
  }

  /** A number of at most four bytes, least significant first, the sign in the topmost bit. */
  function CastToInt(v: Value): Option<int> {
    if |v| > 4 then None
    else if v == [] then Some(0)
    else
      var last := v[|v| - 1];
      var magnitude: int := Little(v[..|v| - 1] + [last % 0x80]);
      Some(if last >= 0x80 then -magnitude else magnitude)
  }

  /* ---- signatures ---- */

  /** The hashed part of the script with the signatures deleted. */
  function Stripped(code: seq<byte>, sigs: seq<Value>): seq<byte> {
    if sigs == [] then code else Deleted(Stripped(code, sigs[..|sigs| - 1]), PushOp(sigs[|sigs| - 1])).0
  }

  function Code(env: Env, begin: nat): seq<byte> { if begin <= |env.script| then env.script[begin..] else [] }

  function CheckWith(env: Env, code: seq<byte>): Check { (sig, key) => env.check(sig, key, code) }

  function CheckSig(env: Env, m: Machine): Option<Machine> {
    var st := m.s.main;
    if |st| < 2 then None
    else
      var ok := env.check(Top(st, 2), Top(st, 1), Stripped(Code(env, m.begin), [Top(st, 2)]));
      Some(m.(s := m.s.(main := st[..|st| - 2] + [Bool(ok)])))
  }

  function CheckMultisig(env: Env, m: Machine): Option<Machine> {
    var st := m.s.main;
    if |st| < 1 then None else
    var nKeys := CastToInt(Top(st, 1));
    if nKeys.None? || nKeys.value < 0 || nKeys.value > MAX_KEYS then None else
    var k: nat := nKeys.value;
    if m.nOpCount + k > MAX_OPS || |st| < 2 + k then None else
    var nSigs := CastToInt(Top(st, 2 + k));
    if nSigs.None? || nSigs.value < 0 || nSigs.value > k then None else
    var n: nat := nSigs.value;
    if |st| < 3 + k + n then None else
    var sigs, keys := Down(st, 3 + k, n), Down(st, 2, k);
    var ok := Greedy(CheckWith(env, Stripped(Code(env, m.begin), sigs)), sigs, keys);
    Some(m.(s := m.s.(main := st[..|st| - (3 + k + n)] + [Bool(ok)]), nOpCount := m.nOpCount + k))
  }

  /** The VERIFY forms: the result must be true, and is taken off. */
  function Verified(r: Option<Machine>): Option<Machine> {
    if r.None? || r.value.s.main == [] || Top(r.value.s.main, 1) != TRUE then None
    else Some(r.value.(s := r.value.s.(main := r.value.s.main[..|r.value.s.main| - 1])))
  }

  /* ---- operations ---- */

  function Push(m: Machine, v: Value): Machine { m.(s := m.s.(main := m.s.main + [v])) }

  /** What an operation that counts does, but for the conditionals. */
  function Execute(env: Env, op: Op, m: Machine): Option<Machine> {
    var st := m.s.main;
    if op.code <= OP_PUSHDATA4 then Some(Push(m, op.data))
    else if op.code == OP_1NEGATE then Some(Push(m, [0x81]))
    else if OP_1 <= op.code <= OP_16 then Some(Push(m, [op.code - (OP_1 - 1)]))
    else if op.code == OP_NOP || OP_NOP1 <= op.code <= OP_NOP10 then Some(m)
    else if op.code == OP_VERIFY then
      if st == [] || !CastToBool(Top(st, 1)) then None else Some(m.(s := m.s.(main := st[..|st| - 1])))
    else if op.code == OP_RETURN then None
    else if op.code == OP_TOALTSTACK then
      if st == [] then None else Some(m.(s := Stacks(st[..|st| - 1], m.s.alt + [Top(st, 1)])))
    else if op.code == OP_FROMALTSTACK then
      if m.s.alt == [] then None else Some(m.(s := Stacks(st + [Top(m.s.alt, 1)], m.s.alt[..|m.s.alt| - 1])))
    else if op.code == OP_CODESEPARATOR then Some(m.(begin := op.next))
    else if op.code == OP_CHECKSIG then CheckSig(env, m)
    else if op.code == OP_CHECKSIGVERIFY then Verified(CheckSig(env, m))
    else if op.code == OP_CHECKMULTISIG then CheckMultisig(env, m)
    else if op.code == OP_CHECKMULTISIGVERIFY then Verified(CheckMultisig(env, m))
    else
      match env.prim(op.code, m.s)
      case None => None
      case Some(s) => Some(m.(s := s))
  }

  /** The limits every operation meets when it is read, whether it counts or not. */
  function Charge(op: Op, m: Machine): Option<Machine> {
    if |op.data| > MAX_PUSH then None
    else
      var n := m.nOpCount + if op.code > OP_16 then 1 else 0;
      if op.code > OP_16 && n > MAX_OPS then None
      else if op.code in DISABLED then None
      else Some(m.(nOpCount := n))
  }

  function Limit(m: Machine): Option<Machine> { if |m.s.main| + |m.s.alt| > MAX_STACK then None else Some(m) }

  predicate Conditional(code: byte) { OP_IF <= code <= OP_ENDIF }

  predicate Opens(code: byte) { code == OP_IF || code == OP_NOTIF }

  /* ---- the flat machine ---- */

  datatype Flat = Flat(vfExec: seq<bool>, m: Machine)

  predicate All(vfExec: seq<bool>) { forall i :: 0 <= i < |vfExec| ==> vfExec[i] }

  /** Takes the value a conditional tests off the stack. */
  function Test(op: Op, m: Machine): Option<(bool, Machine)> {
    if m.s.main == [] then None
    else Some((CastToBool(Top(m.s.main, 1)) == (op.code == OP_IF), m.(s := m.s.(main := m.s.main[..|m.s.main| - 1]))))
  }

  function Control(op: Op, vfExec: seq<bool>, m: Machine): Option<Flat> {
    if Opens(op.code) then
      if !All(vfExec) then Some(Flat(vfExec + [false], m))
      else
        match Test(op, m)
        case None => None
        case Some(r) => Some(Flat(vfExec + [r.0], r.1))
    else if op.code == OP_ELSE then
      if vfExec == [] then None else Some(Flat(vfExec[..|vfExec| - 1] + [!vfExec[|vfExec| - 1]], m))
    else if op.code == OP_ENDIF then
      if vfExec == [] then None else Some(Flat(vfExec[..|vfExec| - 1], m))
    else None
  }

  function Act(env: Env, op: Op, vfExec: seq<bool>, m: Machine): Option<Flat> {
    if Conditional(op.code) then Control(op, vfExec, m)
    else if All(vfExec) then
      match Execute(env, op, m)
      case None => None
      case Some(m') => Some(Flat(vfExec, m'))
    else Some(Flat(vfExec, m))
  }

  function Step(env: Env, op: Op, c: Flat): Option<Flat> {
    match Charge(op, c.m)
    case None => None
    case Some(m) =>
      match Act(env, op, c.vfExec, m)
      case None => None
      case Some(c') => if Limit(c'.m).None? then None else Some(c')
  }

  function Run(env: Env, ops: seq<Op>, c: Flat): Option<Flat>
    decreases |ops|
  {
    if ops == [] then Some(c)
    else
      match Step(env, ops[0], c)
      case None => None
      case Some(c') => Run(env, ops[1..], c')
  }

  /** The operations of a script from a position on, if all of it can be read. */
  function Ops(script: seq<byte>, pc: nat): Option<seq<Op>>
    requires pc <= |script|
    decreases |script| - pc
  {
    if pc == |script| then Some([])
    else
      var p := FirstOp(script[pc..]);
      if p.Bad? then None
      else
        match Ops(script, pc + p.len)
        case None => None
        case Some(rest) => Some([Op(p.code, p.data, pc + p.len)] + rest)
  }

  function Finish(r: Option<Flat>): Option<seq<Value>> {
    if r.Some? && r.value.vfExec == [] then Some(r.value.m.s.main) else None
  }

  function EvalFrom(env: Env, pc: nat, c: Flat): Option<seq<Value>>
    requires pc <= |env.script|
  {
    match Ops(env.script, pc)
    case None => None
    case Some(ops) => Finish(Run(env, ops, c))
  }

  function Start(stack: seq<Value>): Flat { Flat([], Machine(Stacks(stack, []), 0, 0)) }

  /** The stack a script leaves, if it is accepted. */
  function Eval(env: Env, stack: seq<Value>): Option<seq<Value>> {
    if |env.script| > MAX_SCRIPT then None else EvalFrom(env, 0, Start(stack))
  }

  lemma EvalStep(env: Env, pc: nat, c: Flat)
    requires pc < |env.script|
    ensures var p := FirstOp(env.script[pc..]);
      EvalFrom(env, pc, c) ==
        if p.Bad? then None
        else
          match Step(env, Op(p.code, p.data, pc + p.len), c)
          case None => None
          case Some(c') => EvalFrom(env, pc + p.len, c')
  {
    hide Step, FirstOp;
    var p := FirstOp(env.script[pc..]);
    if p.Got? && Ops(env.script, pc + p.len).Some? {
      var rest := Ops(env.script, pc + p.len).value;
      assert ([Op(p.code, p.data, pc + p.len)] + rest)[1..] == rest;
    }
  }

  /* ---- the interpreter ---- */

  /** Deletes each signature from the hashed part of the script, in place. */
  method Strip(code: seq<byte>, sigs: seq<Value>) returns (r: seq<byte>)
    ensures r == Stripped(code, sigs)
  {
    hide Deleted, PushOp;
    var scriptCode := new Script(code);
    var k := 0;
    while k < |sigs|
      invariant 0 <= k <= |sigs| && scriptCode.bytes == Stripped(code, sigs[..k])
    {
      var needle := new Script([]);
      needle.Push(sigs[k]);
      assert [] + PushOp(sigs[k]) == PushOp(sigs[k]);
      PushedSome(sigs[k]);
      var _ := scriptCode.FindAndDelete(needle.bytes);
      assert sigs[..k + 1][..k] == sigs[..k];
      k := k + 1;
    }
    assert sigs[..k] == sigs;
    r := scriptCode.bytes;
  }

  lemma PushedSome(b: Value)
    ensures PushOp(b) != []
  {
  }

  /** Checks several signatures, reading their number, the signatures and the keys from the stack. */
  method MultisigOp(env: Env, m: Machine) returns (r: Option<Machine>)
    requires m.begin <= |env.script|
    ensures r == CheckMultisig(env, m)
  {
    hide Greedy, Stripped, CastToInt;
    var stack := m.s.main;
    var i := 1;
    if |stack| < i { return None; }
    var keysCount := CastToInt(Top(stack, i));
    if keysCount.None? { return None; }
    var nKeysCount := keysCount.value;
    if nKeysCount < 0 || nKeysCount > MAX_KEYS { return None; }
    var nOpCount := m.nOpCount + nKeysCount;
    if nOpCount > MAX_OPS { return None; }
    i := i + 1;
    var ikey := i;
    i := i + nKeysCount;
    if |stack| < i { return None; }
    var sigsCount := CastToInt(Top(stack, i));
    if sigsCount.None? { return None; }
    var nSigsCount := sigsCount.value;
    if nSigsCount < 0 || nSigsCount > nKeysCount { return None; }
    i := i + 1;
    var isig := i;
    i := i + nSigsCount;
    if |stack| < i { return None; }
    var code := Strip(env.script[m.begin..], Down(stack, isig, nSigsCount));
    var fSuccess := CheckLoop(CheckWith(env, code), stack, isig, ikey, nSigsCount, nKeysCount);
    GreedyIff(CheckWith(env, code), Down(stack, isig, nSigsCount), Down(stack, ikey, nKeysCount));
    var left := stack;
    ghost var all := i;
    while i > 0
      invariant 0 <= i <= |left| && left == stack[..|stack| - (all - i)]
    {
      left := left[..|left| - 1];
      i := i - 1;
    }
    left := left + [Bool(fSuccess)];
    r := Some(m.(s := m.s.(main := left), nOpCount := nOpCount));
  }

  method ExecuteOp(env: Env, op: Op, m: Machine) returns (r: Option<Machine>)
    requires m.begin <= |env.script|
    ensures r == Execute(env, op, m)
  {
    hide CheckMultisig;
    if op.code == OP_CHECKMULTISIG {
      r := MultisigOp(env, m);
    } else if op.code == OP_CHECKMULTISIGVERIFY {
      r := MultisigOp(env, m);
      r := Verified(r);
    } else {
      r := Execute(env, op, m);
    }
  }

  /** A conditional: opens, turns around or closes a level of the flag stack. */
  method ControlOp(op: Op, vfExec0: seq<bool>, fExec: bool, m0: Machine) returns (r: Option<Flat>)
    requires fExec == All(vfExec0)
    ensures r == Control(op, vfExec0, m0)
  {
    var vfExec, m := vfExec0, m0;
    if Opens(op.code) {
      var fValue := false;
      if fExec {
        if m.s.main == [] { return None; }
        fValue := TestBool(Top(m.s.main, 1));
        if op.code == OP_NOTIF { fValue := !fValue; }
        m := m.(s := m.s.(main := m.s.main[..|m.s.main| - 1]));
      }
      vfExec := vfExec + [fValue];
    } else if op.code == OP_ELSE {
      if vfExec == [] { return None; }
      vfExec := vfExec[|vfExec| - 1 := !vfExec[|vfExec| - 1]];
      assert vfExec == vfExec0[..|vfExec0| - 1] + [!vfExec0[|vfExec0| - 1]];
    } else if op.code == OP_ENDIF {
      if vfExec == [] { return None; }
      vfExec := vfExec[..|vfExec| - 1];
    } else {
      return None;
    }
    r := Some(Flat(vfExec, m));
  }

  /** Where the hashed part begins stays within the script. */
  lemma BeginWithin(env: Env, op: Op, c: Flat)
    requires c.m.begin <= |env.script| && op.next <= |env.script| && Step(env, op, c).Some?
    ensures Step(env, op, c).value.m.begin <= |env.script|
  {
    hide CheckMultisig, CheckSig;
    if Act(env, op, c.vfExec, Charge(op, c.m).value).Some? { KeepBegin(env, Charge(op, c.m).value); }
  }

  lemma KeepBegin(env: Env, m: Machine)
    ensures CheckSig(env, m).Some? ==> CheckSig(env, m).value.begin == m.begin
    ensures CheckMultisig(env, m).Some? ==> CheckMultisig(env, m).value.begin == m.begin
  {
  }

  /** Evaluates a script on a stack. */
  method EvalScript(env: Env, stack0: seq<Value>) returns (ok: bool, stack: seq<Value>)
    ensures ok == Eval(env, stack0).Some? && (ok ==> stack == Eval(env, stack0).value)
  {
    hide Execute, Run, Ops, FirstOp, CastToBool, Control;
    ok, stack := false, stack0;
    if |env.script| > MAX_SCRIPT { return; }
    var pc := 0;
    var vfExec: seq<bool> := [];
    var m := Machine(Stacks(stack0, []), 0, 0);
    while pc < |env.script|
      invariant 0 <= pc <= |env.script| && m.begin <= |env.script|
      invariant Eval(env, stack0) == EvalFrom(env, pc, Flat(vfExec, m))
      decreases |env.script| - pc
    {
      ghost var c := Flat(vfExec, m);
      EvalStep(env, pc, c);
      hide EvalFrom;
      var got, next, opcode, data := GetOp(env.script, pc);
      if !got { return; }
      var op := Op(opcode, data, next);
      if Step(env, op, c).Some? { BeginWithin(env, op, c); }
      if |data| > MAX_PUSH { return; }
      if opcode > OP_16 {
        m := m.(nOpCount := m.nOpCount + 1);
        if m.nOpCount > MAX_OPS { return; }
      }
      if opcode in DISABLED { return; }
      var fExec := forall i :: 0 <= i < |vfExec| ==> vfExec[i];
      if Conditional(opcode) {
        var r := ControlOp(op, vfExec, fExec, m);
        if r.None? { return; }
        vfExec, m := r.value.vfExec, r.value.m;
      } else if fExec {
        var r := ExecuteOp(env, op, m);
        if r.None? { return; }
        m := r.value;
      }
      if |m.s.main| + |m.s.alt| > MAX_STACK { return; }
      assert Step(env, op, c) == Some(Flat(vfExec, m));
      pc := next;
    }
    EvalEnd(env, Flat(vfExec, m));
    if vfExec != [] { return; }
    return true, m.s.main;
  }

  lemma EvalEnd(env: Env, c: Flat)
    ensures EvalFrom(env, |env.script|, c) == if c.vfExec == [] then Some(c.m.s.main) else None
  {
  }
}
