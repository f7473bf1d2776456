/** Scripts as nested conditionals, and why the flat machine runs them as they should be run. */
module ScriptBlocks {
  import opened Basics
  import opened Multisig
  import opened Script
  import opened ScriptEval

  /** A piece of script: operations and conditionals in a row. A conditional has an opening operation and any
      number of alternating branches, each closed by an ELSE but the last, which is closed by the ENDIF. */
  datatype Block = Empty | Plain(op: Op, rest: Block) | Cond(open: Op, branches: Branches, rest: Block)
  datatype Branches = Last(body: Block, close: Op) | Else(body: Block, close: Op, more: Branches)

  predicate WellFormed(b: Block) {
    match b
    case Empty => true
    case Plain(op, rest) => !Conditional(op.code) && WellFormed(rest)
    case Cond(open, branches, rest) => Opens(open.code) && BranchesWellFormed(branches) && WellFormed(rest)
  }

  predicate BranchesWellFormed(br: Branches) {
    match br
    case Last(body, close) => WellFormed(body) && close.code == OP_ENDIF
    case Else(body, close, more) => WellFormed(body) && close.code == OP_ELSE && BranchesWellFormed(more)
  }

  function Flatten(b: Block): seq<Op> {
    match b
    case Empty => []
    case Plain(op, rest) => [op] + Flatten(rest)
    case Cond(open, branches, rest) => [open] + FlattenBranches(branches) + Flatten(rest)
  }

  function FlattenBranches(br: Branches): seq<Op> {
    match br
    case Last(body, close) => Flatten(body) + [close]
    case Else(body, close, more) => Flatten(body) + [close] + FlattenBranches(more)
  }

  /* ---- running the chosen parts ---- */

  /** Runs a block if it is live. Of a block that is not, the operations only meet the limits that all
      operations meet when they are read. */
  function RunBlock(env: Env, b: Block, live: bool, m: Machine): Option<Machine> {
    match b
    case Empty => Some(m)
    case Plain(op, rest) =>
      (match Single(env, op, live, m)
       case None => None
       case Some(m') => RunBlock(env, rest, live, m'))
    case Cond(open, branches, rest) =>
      (match Choose(open, live, m)
       case None => None
       case Some(r) =>
         match RunBranches(env, branches, live, r.0, r.1)
         case None => None
         case Some(m') => RunBlock(env, rest, live, m'))
  }

  /** Runs every second branch: the first if x, the second if not. */
  function RunBranches(env: Env, br: Branches, live: bool, x: bool, m: Machine): Option<Machine> {
    match RunBlock(env, br.body, live && x, m)
    case None => None
    case Some(m') =>
      match Mark(br.close, m')
      case None => None
      case Some(m'') => if br.Last? then Some(m'') else RunBranches(env, br.more, live, !x, m'')
  }

  function Limited(r: Option<Machine>): Option<Machine> { if r.None? then None else Limit(r.value) }

  function Single(env: Env, op: Op, live: bool, m: Machine): Option<Machine> {
    match Charge(op, m)
    case None => None
    case Some(m') => Limited(if live then Execute(env, op, m') else Some(m'))
  }

  /** An ELSE or ENDIF by itself changes nothing but the count of operations. */
  function Mark(op: Op, m: Machine): Option<Machine> { Limited(Charge(op, m)) }

  /** The value a conditional goes by; one that is not live goes by none. */
  function Choose(open: Op, live: bool, m: Machine): Option<(bool, Machine)> {
    match Charge(open, m)
    case None => None
    case Some(m') =>
      match if live then Test(open, m') else Some((false, m'))
      case None => None
      case Some(r) => if Limit(r.1).None? then None else Some(r)
  }

  /* ---- the flat machine agrees ---- */

  function AndThen(env: Env, r: Option<Machine>, vfExec: seq<bool>, rest: seq<Op>): Option<Flat> {
    match r
    case None => None
    case Some(m) => Run(env, rest, Flat(vfExec, m))
  }

  lemma RunFirst(env: Env, op: Op, rest: seq<Op>, c: Flat)
    ensures Run(env, [op] + rest, c) == match Step(env, op, c) case None => None case Some(c') => Run(env, rest, c')
  {
    assert ([op] + rest)[1..] == rest;
    hide Step;
  }

  lemma AllSnoc(vfExec: seq<bool>, x: bool)
    ensures All(vfExec + [x]) <==> All(vfExec) && x
  {
    if All(vfExec + [x]) {
      forall i | 0 <= i < |vfExec| ensures vfExec[i] { assert (vfExec + [x])[i]; }
      assert (vfExec + [x])[|vfExec|];
    }
  }

  lemma StepPlain(env: Env, op: Op, vfExec: seq<bool>, m: Machine)
    requires !Conditional(op.code)
    ensures Step(env, op, Flat(vfExec, m)) ==
      match Single(env, op, All(vfExec), m) case None => None case Some(m') => Some(Flat(vfExec, m'))
  {
    hide Execute;
  }

  lemma StepOpen(env: Env, op: Op, vfExec: seq<bool>, m: Machine)
    requires Opens(op.code)
    ensures Step(env, op, Flat(vfExec, m)) ==
      match Choose(op, All(vfExec), m) case None => None case Some(r) => Some(Flat(vfExec + [r.0], r.1))
  {
    hide Execute, CastToBool;
  }

  lemma StepClose(env: Env, op: Op, vfExec: seq<bool>, x: bool, m: Machine)
    requires op.code == OP_ELSE || op.code == OP_ENDIF
    ensures Step(env, op, Flat(vfExec + [x], m)) ==
      match Mark(op, m)
      case None => None
      case Some(m') => Some(Flat(if op.code == OP_ELSE then vfExec + [!x] else vfExec, m'))
  {
    hide Execute;
    assert (vfExec + [x])[..|vfExec|] == vfExec;
  }

  /** Running the flattened block, whatever follows it, is running the chosen parts of the block. */
  lemma {:induction false} FlatIsStructured(env: Env, b: Block, vfExec: seq<bool>, m: Machine, rest: seq<Op>)
    requires WellFormed(b)
    ensures Run(env, Flatten(b) + rest, Flat(vfExec, m)) == AndThen(env, RunBlock(env, b, All(vfExec), m), vfExec, rest)
    decreases b
  {
    hide Step, Run, Single, Choose;
    match b
    case Empty =>
      assert [] + rest == rest;
    case Plain(op, more) =>
      assert [op] + Flatten(more) + rest == [op] + (Flatten(more) + rest);
      RunFirst(env, op, Flatten(more) + rest, Flat(vfExec, m));
      StepPlain(env, op, vfExec, m);
      var r := Single(env, op, All(vfExec), m);
      if r.Some? { FlatIsStructured(env, more, vfExec, r.value, rest); }
    case Cond(open, branches, more) =>
      var tail := Flatten(more) + rest;
      assert [open] + FlattenBranches(branches) + Flatten(more) + rest == [open] + (FlattenBranches(branches) + tail);
      RunFirst(env, open, FlattenBranches(branches) + tail, Flat(vfExec, m));
      StepOpen(env, open, vfExec, m);
      var r := Choose(open, All(vfExec), m);
      if r.Some? {
        FlatBranches(env, branches, vfExec, r.value.0, r.value.1, tail);
        var r' := RunBranches(env, branches, All(vfExec), r.value.0, r.value.1);
        if r'.Some? { FlatIsStructured(env, more, vfExec, r'.value, rest); }
      }
  }

  lemma {:induction false} FlatBranches(env: Env, br: Branches, vfExec: seq<bool>, x: bool, m: Machine, rest: seq<Op>)
    requires BranchesWellFormed(br)
    ensures Run(env, FlattenBranches(br) + rest, Flat(vfExec + [x], m)) ==
      AndThen(env, RunBranches(env, br, All(vfExec), x, m), vfExec, rest)
    decreases br
  {
    hide Step, Run, Mark;
    var body, close := br.body, br.close;
    var after := if br.Last? then rest else FlattenBranches(br.more) + rest;
    assert FlattenBranches(br) + rest == Flatten(body) + ([close] + after);
    AllSnoc(vfExec, x);
    FlatIsStructured(env, body, vfExec + [x], m, [close] + after);
    var r := RunBlock(env, body, All(vfExec) && x, m);
    if r.Some? {
      RunFirst(env, close, after, Flat(vfExec + [x], r.value));
      StepClose(env, close, vfExec, x, r.value);
      var r' := Mark(close, r.value);
      if r'.Some? && br.Else? { FlatBranches(env, br.more, vfExec, !x, r'.value, rest); }
    }
  }

  /* ---- every accepted script is a flattened block ---- */

  datatype Reading<T> = Read(t: T, rest: seq<Op>) | Fail

  /** Reads operations up to a closing one that is not its own, or the end. */
  function ParseBlock(ops: seq<Op>): (g: Reading<Block>)
    ensures g.Read? ==> |g.rest| <= |ops|
    decreases |ops|, 1
  {
    if ops == [] || ops[0].code == OP_ELSE || ops[0].code == OP_ENDIF then Read(Empty, ops)
    else if Opens(ops[0].code) then
      match ParseBranches(ops[1..])
      case Fail => Fail
      case Read(br, after) =>
        match ParseBlock(after)
        case Fail => Fail
        case Read(b, rest) => Read(Cond(ops[0], br, b), rest)
    else if Conditional(ops[0].code) then Fail
    else
      match ParseBlock(ops[1..])
      case Fail => Fail
      case Read(b, rest) => Read(Plain(ops[0], b), rest)
  }

  function ParseBranches(ops: seq<Op>): (g: Reading<Branches>)
    ensures g.Read? ==> |g.rest| < |ops|
    decreases |ops|, 2
  {
    match ParseBlock(ops)
    case Fail => Fail
    case Read(body, rest) =>
      if rest == [] then Fail
      else if rest[0].code == OP_ENDIF then Read(Last(body, rest[0]), rest[1..])
      else if rest[0].code == OP_ELSE then
        match ParseBranches(rest[1..])
        case Fail => Fail
        case Read(more, after) => Read(Else(body, rest[0], more), after)
      else Fail
  }

  lemma {:induction false} ParseFlattens(ops: seq<Op>)
    ensures var g := ParseBlock(ops);
      g.Read? ==>
        && WellFormed(g.t) && ops == Flatten(g.t) + g.rest
        && (g.rest == [] || g.rest[0].code == OP_ELSE || g.rest[0].code == OP_ENDIF)
    decreases |ops|, 1
  {
    if ops == [] || ops[0].code == OP_ELSE || ops[0].code == OP_ENDIF {
      assert [] + ops == ops;
    } else if Opens(ops[0].code) {
      BranchesFlatten(ops[1..]);
      var br := ParseBranches(ops[1..]);
      if br.Read? {
        ParseFlattens(br.rest);
        var g := ParseBlock(br.rest);
        if g.Read? { CondFlattens(ops, br.t, br.rest, g.t, g.rest); }
      }
    } else if !Conditional(ops[0].code) {
      ParseFlattens(ops[1..]);
      var g := ParseBlock(ops[1..]);
      if g.Read? { assert [ops[0]] + Flatten(g.t) + g.rest == [ops[0]] + ops[1..]; }
    }
  }

  lemma CondFlattens(ops: seq<Op>, br: Branches, after: seq<Op>, b: Block, rest: seq<Op>)
    requires ops != [] && ops[1..] == FlattenBranches(br) + after && after == Flatten(b) + rest
    ensures ops == Flatten(Cond(ops[0], br, b)) + rest
  {
    hide FlattenBranches;
    assert [ops[0]] + FlattenBranches(br) + Flatten(b) + rest == [ops[0]] + (FlattenBranches(br) + (Flatten(b) + rest));
  }

  lemma {:induction false} BranchesFlatten(ops: seq<Op>)
    ensures var g := ParseBranches(ops); g.Read? ==> BranchesWellFormed(g.t) && ops == FlattenBranches(g.t) + g.rest
    decreases |ops|, 2
  {
    hide Flatten, FlattenBranches, ParseBlock;
    ParseFlattens(ops);
    var g := ParseBlock(ops);
    if g.Read? && g.rest != [] {
      if g.rest[0].code == OP_ELSE {
        BranchesFlatten(g.rest[1..]);
        var more := ParseBranches(g.rest[1..]);
        if more.Read? { ElseFlattens(ops, g.t, g.rest, more.t, more.rest); }
      } else {
        LastFlattens(ops, g.t, g.rest);
      }
    }
  }

  lemma LastFlattens(ops: seq<Op>, body: Block, rest: seq<Op>)
    requires ops == Flatten(body) + rest && rest != []
    ensures ops == FlattenBranches(Last(body, rest[0])) + rest[1..]
  {
    hide Flatten;
    assert Flatten(body) + [rest[0]] + rest[1..] == Flatten(body) + rest;
  }

  lemma ElseFlattens(ops: seq<Op>, body: Block, rest: seq<Op>, more: Branches, after: seq<Op>)
    requires ops == Flatten(body) + rest && rest != [] && rest[1..] == FlattenBranches(more) + after
    ensures ops == FlattenBranches(Else(body, rest[0], more)) + after
  {
    hide Flatten;
    assert Flatten(body) + [rest[0]] + FlattenBranches(more) + after ==
      Flatten(body) + ([rest[0]] + (FlattenBranches(more) + after));
    assert rest == [rest[0]] + rest[1..];
  }

  /** The machine gets through these operations and ends outside every conditional. */
  predicate Accepted(env: Env, ops: seq<Op>, c: Flat) { Run(env, ops, c).Some? && Run(env, ops, c).value.vfExec == [] }

  /** Operations the machine accepts can be read as a block; what remains is accepted where the block ends,
      and something remains exactly if a conditional is still open. */
  lemma {:induction false} AcceptedParses(env: Env, ops: seq<Op>, vfExec: seq<bool>, m: Machine) returns (m': Machine)
    requires Accepted(env, ops, Flat(vfExec, m))
    ensures ParseBlock(ops).Read? && Accepted(env, ParseBlock(ops).rest, Flat(vfExec, m'))
    ensures ParseBlock(ops).rest == [] <==> vfExec == []
    decreases |ops|, 1
  {
    hide Execute, CastToBool;
    m' := m;
    if ops == [] || ops[0].code == OP_ELSE || ops[0].code == OP_ENDIF {
    } else if Opens(ops[0].code) {
      StepOpen(env, ops[0], vfExec, m);
      var c := Step(env, ops[0], Flat(vfExec, m)).value;
      var x := c.vfExec[|vfExec|];
      var m1 := AcceptedBranches(env, ops[1..], vfExec, x, c.m);
      m' := AcceptedParses(env, ParseBranches(ops[1..]).rest, vfExec, m1);
    } else {
      var c := Step(env, ops[0], Flat(vfExec, m)).value;
      m' := AcceptedParses(env, ops[1..], vfExec, c.m);
    }
  }

  lemma {:induction false} AcceptedBranches(env: Env, ops: seq<Op>, vfExec: seq<bool>, x: bool, m: Machine)
    returns (m': Machine)
    requires Accepted(env, ops, Flat(vfExec + [x], m))
    ensures ParseBranches(ops).Read? && Accepted(env, ParseBranches(ops).rest, Flat(vfExec, m'))
    decreases |ops|, 2
  {
    hide Step;
    var m1 := AcceptedParses(env, ops, vfExec + [x], m);
    ParseFlattens(ops);
    var rest := ParseBlock(ops).rest;
    StepClose(env, rest[0], vfExec, x, m1);
    var c := Step(env, rest[0], Flat(vfExec + [x], m1)).value;
    if rest[0].code == OP_ENDIF {
      m' := c.m;
    } else {
      m' := AcceptedBranches(env, rest[1..], vfExec, !x, c.m);
    }
  }

  /** A script is accepted exactly if it is short enough, can be read as nested conditionals, and running
      the chosen parts of these succeeds; and that is then what it computes. */
  lemma EvalIsStructured(env: Env, stack: seq<Value>)
    ensures Eval(env, stack) ==
      if |env.script| > MAX_SCRIPT || Ops(env.script, 0).None? then None
      else
        var g := ParseBlock(Ops(env.script, 0).value);
        if g.Fail? || g.rest != [] then None
        else
          match RunBlock(env, g.t, true, Start(stack).m)
          case None => None
          case Some(m) => Some(m.s.main)
  {
    hide RunBlock, Run, Ops;
    if |env.script| <= MAX_SCRIPT && Ops(env.script, 0).Some? {
      var ops := Ops(env.script, 0).value;
      var g := ParseBlock(ops);
      if Accepted(env, ops, Start(stack)) {
        var _ := AcceptedParses(env, ops, [], Start(stack).m);
      }
      if g.Read? && g.rest == [] {
        ParseFlattens(ops);
        FlatIsStructured(env, g.t, [], Start(stack).m, []);
        RunNothing(env, []);
      }
    }
  }

  lemma RunNothing(env: Env, vfExec: seq<bool>)
    ensures forall m :: Run(env, [], Flat(vfExec, m)) == Some(Flat(vfExec, m))
  {
  }

  /** Any block, not only the one the parser finds, stands for its flattening. */
  lemma FlattenedEval(env: Env, b: Block, stack: seq<Value>)
    requires WellFormed(b) && |env.script| <= MAX_SCRIPT && Ops(env.script, 0) == Some(Flatten(b))
    ensures Eval(env, stack) ==
      match RunBlock(env, b, true, Start(stack).m) case None => None case Some(m) => Some(m.s.main)
  {
    hide RunBlock, Run, Ops;
    FlatIsStructured(env, b, [], Start(stack).m, []);
    assert Flatten(b) + [] == Flatten(b);
    RunNothing(env, []);
  }

  /* ---- limits ---- */

  /** The operations counted against the limit. */
  function Counted(ops: seq<Op>): nat {
    if ops == [] then 0 else (if ops[0].code > OP_16 then 1 else 0) + Counted(ops[1..])
  }

  /** After every operation the two stacks hold at most 1000 values, no value pushed is longer than 520 bytes,
      and at most 201 operations have been counted, those in branches not taken included. */
  lemma {:induction false} LimitsKept(env: Env, ops: seq<Op>, c: Flat, n: nat)
    requires Run(env, ops, c).Some? && n <= |ops| && c.m.nOpCount <= MAX_OPS
    ensures var r := Run(env, ops[..n], c);
      && r.Some? && (n > 0 ==> |r.value.m.s.main| + |r.value.m.s.alt| <= MAX_STACK)
      && c.m.nOpCount + Counted(ops[..n]) <= r.value.m.nOpCount <= MAX_OPS
    ensures forall i :: 0 <= i < n ==> |ops[i].data| <= MAX_PUSH && ops[i].code !in DISABLED
    decreases |ops|
  {
    hide Step;
    if n > 0 {
      StepLimits(env, ops[0], c);
      var c' := Step(env, ops[0], c).value;
      LimitsKept(env, ops[1..], c', n - 1);
      assert ops[..n][1..] == ops[1..][..n - 1];
      forall i | 0 <= i < n ensures |ops[i].data| <= MAX_PUSH && ops[i].code !in DISABLED {
        if i > 0 { assert ops[i] == ops[1..][i - 1]; }
      }
    }
  }

  lemma StepLimits(env: Env, op: Op, c: Flat)
    requires Step(env, op, c).Some? && c.m.nOpCount <= MAX_OPS
    ensures var c' := Step(env, op, c).value;
      && |c'.m.s.main| + |c'.m.s.alt| <= MAX_STACK
      && c.m.nOpCount + (if op.code > OP_16 then 1 else 0) <= c'.m.nOpCount <= MAX_OPS
    ensures |op.data| <= MAX_PUSH && op.code !in DISABLED
  {
    hide CheckMultisig, CheckSig, CastToBool;
    CountGrows(env, Charge(op, c.m).value);
  }

  lemma CountGrows(env: Env, m: Machine)
    requires m.nOpCount <= MAX_OPS
    ensures CheckSig(env, m).Some? ==> CheckSig(env, m).value.nOpCount == m.nOpCount
    ensures CheckMultisig(env, m).Some? ==> m.nOpCount <= CheckMultisig(env, m).value.nOpCount <= MAX_OPS
  {
  }

  /* ---- merged signatures ---- */

  /** On the stack a merged script leaves, with the keys and the two numbers pushed after it, CHECKMULTISIG
      answers true, provided the merge found all the signatures required and the same relation decides. */
  lemma MergedAccepted(env: Env, m: Machine, base: seq<Value>, dummy: Value, sigs: seq<Value>, required: Value,
      keys: seq<Value>, total: Value)
    requires m.s.main == base + [dummy] + sigs + [required] + keys + [total]
    requires CastToInt(required) == Some(|sigs|) && CastToInt(total) == Some(|keys|)
    requires |keys| <= MAX_KEYS && m.nOpCount + |keys| <= MAX_OPS && |sigs| <= |keys|
    requires Assignable(CheckWith(env, Stripped(Code(env, m.begin), Reversed(sigs))), sigs, keys)
    ensures CheckMultisig(env, m).Some? && CheckMultisig(env, m).value.s.main == base + [TRUE]
  {
    hide Stripped, CastToInt, Greedy, Code, Assignable, Top, Down, Reversed;
    StackParts(m.s.main, base, dummy, sigs, required, keys, total);
    CombinedPasses(CheckWith(env, Stripped(Code(env, m.begin), Reversed(sigs))), sigs, keys);
  }

  lemma StackParts(st: seq<Value>, base: seq<Value>, dummy: Value, sigs: seq<Value>, required: Value, keys: seq<Value>,
      total: Value)
    requires st == base + [dummy] + sigs + [required] + keys + [total]
    ensures var k, n := |keys|, |sigs|;
      && |st| == |base| + 3 + k + n && Top(st, 1) == total && Top(st, 2 + k) == required
      && Down(st, 2, k) == Reversed(keys) && Down(st, 3 + k, n) == Reversed(sigs) && st[..|st| - (3 + k + n)] == base
  {
  }
}
