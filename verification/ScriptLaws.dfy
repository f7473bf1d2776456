/** Laws of single operations: how values are read as truths and numbers, what a conditional chooses, and how the
    operations hang together. */
module ScriptLaws {
  import opened Basics
  import opened Bytes
  import opened Script
  import opened Multisig
  import opened ScriptEval
  import opened ScriptBlocks

  /* ---- values ---- */

  lemma {:induction false} LittleZero(b: seq<byte>)
    ensures Little(b) == 0 <==> forall i :: 0 <= i < |b| ==> b[i] == 0
  {
    if b != [] {
      LittleZero(b[1..]);
      assert forall i :: 1 <= i < |b| ==> b[i] == b[1..][i - 1];
    }
  }

  /** A value that can be read as a number is true exactly if the number is not zero. */
  lemma TrueIffNotZero(v: Value)
    requires |v| <= 4
    ensures CastToInt(v).Some? && (CastToBool(v) <==> CastToInt(v).value != 0)
  {
    hide Little;
    if v != [] {
      var n := |v| - 1;
      var w := v[..n] + [v[n] % 0x80];
      LittleZero(w);
      assert forall i :: 0 <= i < n ==> w[i] == v[i];
      assert w[n] == v[n] % 0x80;
      if CastToBool(v) {
        var i :| 0 <= i < |v| && v[i] != 0 && !(i == |v| - 1 && v[i] == 0x80);
        assert w[i] != 0;
      } else {
        forall i | 0 <= i < |w| ensures w[i] == 0 { assert i < n ==> v[i] == 0; }
      }
    }
  }

  /** The digits of a number, least significant first, without zeros at the end. */
  function Digits(n: nat): seq<byte> { if n == 0 then [] else [n % 0x100] + Digits(n / 0x100) }

  /** The shortest value that stands for the number: the sign is the topmost bit, which gets a byte of its own if the
      digits need it. */
  function Encode(x: int): Value {
    var d := Digits(if x < 0 then -x else x);
    if d == [] then []
    else if d[|d| - 1] >= 0x80 then d + [if x < 0 then 0x80 else 0]
    else d[..|d| - 1] + [d[|d| - 1] + if x < 0 then 0x80 else 0]
  }

  lemma {:induction false} LittleDigits(n: nat)
    ensures Little(Digits(n)) == n && (n > 0 ==> Digits(n) != [])
  {
    if n > 0 {
      LittleDigits(n / 0x100);
      assert Digits(n)[1..] == Digits(n / 0x100);
    }
  }

  lemma {:induction false} LittleEnd(b: seq<byte>)
    ensures Little(b + [0]) == Little(b)
  {
    if b == [] {
      assert [] + [0] == [0];
      LittleOne(0);
    } else {
      assert (b + [0])[1..] == b[1..] + [0];
      LittleEnd(b[1..]);
    }
  }

  /** Every number of up to 31 bits is read back from the value that stands for it. */
  lemma NumberReadBack(x: int)
    requires |Encode(x)| <= 4
    ensures CastToInt(Encode(x)) == Some(x)
  {
    hide Little, Digits;
    var n := if x < 0 then -x else x;
    var d, v := Digits(n), Encode(x);
    LittleDigits(n);
    if d == [] {
      LittleNone();
    } else if d[|d| - 1] >= 0x80 {
      LittleEnd(d);
      assert v[..|v| - 1] + [v[|v| - 1] % 0x80] == d + [0];
    } else {
      assert v[..|v| - 1] + [v[|v| - 1] % 0x80] == d;
    }
  }

  lemma LittleNone()
    ensures Little([]) == 0
  {
  }

  /* ---- conditionals ---- */

  /** A part that is not live leaves the stacks, and the hashed part of the script, as they are. */
  lemma {:induction false} DeadKeeps(env: Env, b: Block, m: Machine)
    ensures var r := RunBlock(env, b, false, m); r.Some? ==> r.value.s == m.s && r.value.begin == m.begin
    decreases b
  {
    match b
    case Empty =>
    case Plain(op, rest) =>
      var r := Single(env, op, false, m);
      if r.Some? { DeadKeeps(env, rest, r.value); }
    case Cond(open, branches, rest) =>
      var r := Choose(open, false, m);
      if r.Some? {
        DeadBranches(env, branches, r.value.0, r.value.1);
        var s := RunBranches(env, branches, false, r.value.0, r.value.1);
        if s.Some? { DeadKeeps(env, rest, s.value); }
      }
  }

  lemma {:induction false} DeadBranches(env: Env, br: Branches, x: bool, m: Machine)
    ensures var r := RunBranches(env, br, false, x, m); r.Some? ==> r.value.s == m.s && r.value.begin == m.begin
    decreases br
  {
    DeadKeeps(env, br.body, m);
    var r := RunBlock(env, br.body, false, m);
    if r.Some? {
      var s := Mark(br.close, r.value);
      if s.Some? && br.Else? { DeadBranches(env, br.more, !x, s.value); }
    }
  }

  /** What running a part of a script with a count of operations does to the stacks. */
  ghost predicate Leaves(env: Env, b: Block, s: Stacks, begin: nat, s': Stacks) {
    exists n :: LeavesFrom(env, b, Machine(s, n, begin), s')
  }

  predicate LeavesFrom(env: Env, b: Block, m: Machine, s': Stacks) {
    var r := RunBlock(env, b, true, m);
    r.Some? && r.value.s == s'
  }

  lemma Chosen(open: Op, m: Machine, base: seq<Value>, v: Value)
    requires open.code == OP_IF || open.code == OP_NOTIF
    requires m.s.main == base + [v]
    ensures var c := Choose(open, true, m);
      var x := if open.code == OP_IF then CastToBool(v) else !CastToBool(v);
      c.Some? ==> c.value.0 == x && c.value.1 == Machine(Stacks(base, m.s.alt), c.value.1.nOpCount, m.begin)
  {
    hide CastToBool;
    assert (base + [v])[..|base|] == base;
  }

  lemma MarkKeeps(op: Op, m: Machine)
    ensures var r := Mark(op, m); r.Some? ==> r.value.s == m.s && r.value.begin == m.begin
  {
  }

  lemma CondAlone(env: Env, open: Op, br: Branches, m: Machine)
    ensures var c := Choose(open, true, m);
      RunBlock(env, Cond(open, br, Empty), true, m) ==
        if c.None? then None else RunBranches(env, br, true, c.value.0, c.value.1)
  {
    hide Choose, Single, Mark;
    var c := Choose(open, true, m);
    if c.Some? {
      var r := RunBranches(env, br, true, c.value.0, c.value.1);
      if r.Some? { assert RunBlock(env, Empty, true, r.value) == r; }
    }
  }

  lemma BranchUnfold(env: Env, br: Branches, x: bool, m: Machine)
    ensures var r := RunBlock(env, br.body, x, m);
      RunBranches(env, br, true, x, m) ==
        if r.None? then None
        else
          var r' := Mark(br.close, r.value);
          if r'.None? || br.Last? then r' else RunBranches(env, br.more, true, !x, r'.value)
  {
    hide Choose, Single, Mark;
  }

  /** IF takes a value off the stack and runs the first part if it is true, the second if it is not; NOTIF the other way
      round. What the other part would do does not matter. */
  lemma IfElseChooses(env: Env, open: Op, first: Block, else_: Op, second: Block, endif: Op, m: Machine,
      base: seq<Value>, v: Value)
    requires open.code == OP_IF || open.code == OP_NOTIF
    requires m.s.main == base + [v]
    ensures var r := RunBlock(env, Cond(open, Else(first, else_, Last(second, endif)), Empty), true, m);
      var x := if open.code == OP_IF then CastToBool(v) else !CastToBool(v);
      r.Some? ==> Leaves(env, if x then first else second, Stacks(base, m.s.alt), m.begin, r.value.s)
  {
    hide Choose, Single, Mark, RunBlock, RunBranches, CastToBool;
    var last := Last(second, endif);
    var br := Else(first, else_, last);
    var r := RunBlock(env, Cond(open, br, Empty), true, m);
    CondAlone(env, open, br, m);
    if r.Some? {
      Chosen(open, m, base, v);
      var c := Choose(open, true, m).value;
      BranchUnfold(env, br, c.0, c.1);
      var one := RunBlock(env, first, c.0, c.1).value;
      MarkKeeps(else_, one);
      var two := Mark(else_, one).value;
      BranchUnfold(env, last, !c.0, two);
      var three := RunBlock(env, second, !c.0, two).value;
      MarkKeeps(endif, three);
      if c.0 {
        DeadKeeps(env, second, two);
        assert LeavesFrom(env, first, c.1, r.value.s);
      } else {
        DeadKeeps(env, first, c.1);
        assert two == Machine(Stacks(base, m.s.alt), two.nOpCount, m.begin);
        assert LeavesFrom(env, second, two, r.value.s);
      }
    }
  }

  /** With no second part, nothing happens when the first is not chosen. */
  lemma IfChooses(env: Env, open: Op, body: Block, endif: Op, m: Machine, base: seq<Value>, v: Value)
    requires open.code == OP_IF || open.code == OP_NOTIF
    requires m.s.main == base + [v]
    ensures var r := RunBlock(env, Cond(open, Last(body, endif), Empty), true, m);
      var x := if open.code == OP_IF then CastToBool(v) else !CastToBool(v);
      r.Some? ==> if x then Leaves(env, body, Stacks(base, m.s.alt), m.begin, r.value.s)
                  else r.value.s == Stacks(base, m.s.alt)
  {
    hide Choose, Single, Mark, RunBlock, RunBranches, CastToBool;
    var last := Last(body, endif);
    var r := RunBlock(env, Cond(open, last, Empty), true, m);
    CondAlone(env, open, last, m);
    if r.Some? {
      Chosen(open, m, base, v);
      var c := Choose(open, true, m).value;
      BranchUnfold(env, last, c.0, c.1);
      MarkKeeps(endif, RunBlock(env, body, c.0, c.1).value);
      if c.0 { assert LeavesFrom(env, body, c.1, r.value.s); } else { DeadKeeps(env, body, c.1); }
    }
  }

  /* ---- operations that hang together ---- */

  function Do(env: Env, code: byte, m: Machine): Option<Machine> { Execute(env, Op(code, [], 0), m) }

  function Both(env: Env, code: byte, more: byte, m: Machine): Option<Machine> {
    match Do(env, code, m) case None => None case Some(m') => Do(env, more, m')
  }

  /** The VERIFY forms of the two checks are the checks followed by VERIFY. */
  lemma VerifyForms(env: Env, m: Machine)
    ensures Do(env, OP_CHECKSIGVERIFY, m) == Both(env, OP_CHECKSIG, OP_VERIFY, m)
    ensures Do(env, OP_CHECKMULTISIGVERIFY, m) == Both(env, OP_CHECKMULTISIG, OP_VERIFY, m)
  {
    hide Greedy, Stripped, CastToInt, CastToBool;
    TruthOfBool(true);
    TruthOfBool(false);
  }

  lemma TruthOfBool(b: bool)
    ensures CastToBool(Bool(b)) == b
  {
    if b { assert TRUE[0] == 1; }
  }

  /** VERIFY goes on exactly with a true value, and takes it off; after RETURN nothing goes on. */
  lemma VerifyGoesOn(env: Env, m: Machine, base: seq<Value>, v: Value)
    requires m.s.main == base + [v]
    ensures Do(env, OP_VERIFY, m) == if CastToBool(v) then Some(m.(s := m.s.(main := base))) else None
    ensures Do(env, OP_RETURN, m) == None
  {
    hide CastToBool;
    assert m.s.main[..|m.s.main| - 1] == base;
  }

  /** What is put on the other stack comes back. */
  lemma AltStackReturns(env: Env, m: Machine)
    requires m.s.main != []
    ensures Both(env, OP_TOALTSTACK, OP_FROMALTSTACK, m) == Some(m)
    ensures Do(env, OP_TOALTSTACK, m).value.s.main == m.s.main[..|m.s.main| - 1]
  {
    var n := |m.s.main| - 1;
    assert m.s.main[..n] + [m.s.main[n]] == m.s.main;
    assert (m.s.alt + [m.s.main[n]])[..|m.s.alt|] == m.s.alt;
  }

  /** Signatures are for the part of the script after the last separator. */
  lemma SeparatorCuts(env: Env, op: Op, m: Machine)
    requires op.code == OP_CODESEPARATOR && op.next <= |env.script|
    ensures Execute(env, op, m).Some? && Execute(env, op, m).value.s == m.s
    ensures Code(env, Execute(env, op, m).value.begin) == env.script[op.next..]
  {
  }

  /** The small numbers and -1 are pushed as what they are. */
  lemma SmallNumbers(env: Env, m: Machine, n: nat)
    requires 1 <= n <= 16
    ensures var r := Do(env, OP_1 + (n as byte - 1), m);
      r.Some? && r.value.s.main != [] && CastToInt(Top(r.value.s.main, 1)) == Some(n)
    ensures var r := Do(env, OP_1NEGATE, m);
      r.Some? && r.value.s.main != [] && CastToInt(Top(r.value.s.main, 1)) == Some(-1)
  {
    assert [n as byte][..0] + [[n as byte][0] % 0x80] == [n as byte];
    LittleOne(n as byte);
    assert [0x81 as byte][..0] + [[0x81 as byte][0] % 0x80] == [1];
    LittleOne(1);
  }
}
