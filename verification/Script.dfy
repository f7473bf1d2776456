/** Scripts: how operations are laid out in bytes, pushed, read, and deleted. */
module Script {
  import opened Bytes

  const OP_0: byte := 0x00
  const OP_PUSHDATA1: byte := 0x4c
  const OP_PUSHDATA2: byte := 0x4d
  const OP_PUSHDATA4: byte := 0x4e
  const OP_1: byte := 0x51
  const OP_16: byte := 0x60

  /* ---- reading one operation ---- */

  /** An operation read from the front of a script: its code, the data it pushes and its whole length. */
  datatype Parsed = Got(code: byte, data: seq<byte>, len: nat) | Bad

  /** The bytes of the length field that follows a code. */
  function LengthField(code: byte): nat {
    if code == OP_PUSHDATA1 then 1 else if code == OP_PUSHDATA2 then 2 else if code == OP_PUSHDATA4 then 4 else 0
  }

  function Little(b: seq<byte>): nat {
    if b == [] then 0 else var b0: int := b[0]; b0 + 0x100 * Little(b[1..])
  }

  function FirstOp(s: seq<byte>): (p: Parsed)
    ensures p.Got? ==> 1 <= p.len <= |s| && p.code == s[0] && |p.data| < p.len
  {
    if s == [] then Bad
    else if s[0] > OP_PUSHDATA4 then Got(s[0], [], 1)
    else
      var k := 1 + LengthField(s[0]);
      if |s| < k then Bad
      else
        var n: int := if s[0] < OP_PUSHDATA1 then s[0] else Little(s[1..k]);
        if |s| - k < n then Bad else Got(s[0], s[k..k + n], k + n)
  }

  lemma Middle<T>(s: seq<T>, i: nat, k: nat, n: nat)
    requires i + k + n <= |s|
    ensures s[i..][k..k + n] == s[i + k..i + k + n]
  {
  }

  /** Reads the operation at pc, advancing it field by field. */
  method GetOp(script: seq<byte>, pc: nat) returns (ok: bool, pc': nat, opcode: byte, data: seq<byte>)
    requires pc <= |script|
    ensures ok == FirstOp(script[pc..]).Got? && pc <= pc' <= |script|
    ensures ok ==> Got(opcode, data, pc' - pc) == FirstOp(script[pc..])
  {
    hide Little;
    ok, pc', opcode, data := false, pc, 0xff, [];
    if pc' >= |script| { return; }
    assert script[pc..][0] == script[pc];
    var code := script[pc'];
    pc' := pc' + 1;
    if code <= OP_PUSHDATA4 {
      var nSize: nat := 0;
      if code < OP_PUSHDATA1 {
        nSize := code;
      } else if code == OP_PUSHDATA1 {
        if |script| - pc' < 1 { return; }
        nSize := script[pc'];
        pc' := pc' + 1;
        Middle(script, pc, 1, 1);
        assert script[pc + 1..pc + 2] == [script[pc + 1]];
        LittleOne(script[pc + 1]);
      } else if code == OP_PUSHDATA2 {
        if |script| - pc' < 2 { return; }
        nSize := Little(script[pc'..pc' + 2]);
        pc' := pc' + 2;
        Middle(script, pc, 1, 2);
      } else {
        if |script| - pc' < 4 { return; }
        nSize := Little(script[pc'..pc' + 4]);
        pc' := pc' + 4;
        Middle(script, pc, 1, 4);
      }
      if |script| - pc' < nSize { return; }
      data := script[pc'..pc' + nSize];
      Middle(script, pc, pc' - pc, nSize);
      pc' := pc' + nSize;
    }
    opcode := code;
    ok := true;
  }

  /* ---- pushing data ---- */

  /** The code and the length field of the shortest operation that pushes the data. */
  function PushHead(b: seq<byte>): seq<byte> {
    if |b| < OP_PUSHDATA1 then [|b|]
    else if |b| <= 0xff then [OP_PUSHDATA1] + [|b|]
    else if |b| <= 0xffff then [OP_PUSHDATA2] + [|b| % 0x100, |b| / 0x100]
    else [OP_PUSHDATA4] + UintBytes(|b| % UINT_LIMIT)
  }

  function PushOp(b: seq<byte>): seq<byte> { PushHead(b) + b }

  lemma LittleUint(b: seq<byte>)
    requires |b| == 4
    ensures Little(b) == Uint(b)
  {
    hide Little;
    LittleFirst(b);
    LittleFirst(b[1..]);
    LittleFirst(b[2..]);
    LittleOne(b[3]);
    assert b[1..][1..] == b[2..] && b[2..][1..] == [b[3]];
  }

  lemma LittleFirst(b: seq<byte>)
    requires b != []
    ensures Little(b) == (b[0] as int) + 0x100 * Little(b[1..])
  {
  }

  /** What was pushed is read back, whatever follows it. */
  lemma PushRead(b: seq<byte>, rest: seq<byte>)
    requires |b| < UINT_LIMIT
    ensures FirstOp(PushOp(b) + rest).Got? && FirstOp(PushOp(b) + rest).data == b
    ensures FirstOp(PushOp(b) + rest).len == |PushOp(b)|
  {
    hide UintBytes, Little, FirstOp;
    var s := PushOp(b) + rest;
    if |b| < OP_PUSHDATA1 {
      OpIs(s, [|b|], b, rest);
    } else if |b| <= 0xff {
      LittleOne(|b|);
      OpIs(s, [OP_PUSHDATA1] + [|b|], b, rest);
    } else if |b| <= 0xffff {
      LittleTwo(|b| % 0x100, |b| / 0x100);
      OpIs(s, [OP_PUSHDATA2] + [|b| % 0x100, |b| / 0x100], b, rest);
    } else {
      LittleUint(UintBytes(|b|));
      OpIs(s, [OP_PUSHDATA4] + UintBytes(|b|), b, rest);
    }
  }

  lemma LittleOne(x: byte)
    ensures Little([x]) == x
  {
  }

  lemma LittleTwo(x: byte, y: byte)
    ensures Little([x, y]) == (x as int) + 0x100 * (y as int)
  {
    LittleOne(y);
    assert [x, y][1..] == [y];
  }

  /** A code, its length field, and as much data as they say. */
  lemma OpIs(s: seq<byte>, head: seq<byte>, b: seq<byte>, rest: seq<byte>)
    requires s == head + b + rest && head != [] && head[0] <= OP_PUSHDATA4 && |head| == 1 + LengthField(head[0])
    requires |b| == if head[0] < OP_PUSHDATA1 then head[0] else Little(head[1..])
    ensures FirstOp(s) == Got(head[0], b, |head| + |b|)
  {
    hide Little;
    assert s[1..|head|] == head[1..] && s[|head|..|head| + |b|] == b;
  }

  /* ---- a script as a list of operations ---- */

  /** The operations of a script, each as its bytes, and the rest, which cannot be read as an operation. */
  datatype Listing = Listing(ops: seq<seq<byte>>, tail: seq<byte>)

  function List(s: seq<byte>): Listing
    decreases |s|
  {
    var p := FirstOp(s);
    if p.Bad? then Listing([], s)
    else
      var rest := List(s[p.len..]);
      Listing([s[..p.len]] + rest.ops, rest.tail)
  }

  function Joined(l: Listing): seq<byte>
    decreases |l.ops|
  {
    if l.ops == [] then l.tail else l.ops[0] + Joined(Listing(l.ops[1..], l.tail))
  }

  lemma {:induction false} ListBytes(s: seq<byte>)
    ensures Joined(List(s)) == s
    decreases |s|
  {
    var p := FirstOp(s);
    if p.Got? {
      ListBytes(s[p.len..]);
      assert List(s).ops[1..] == List(s[p.len..]).ops;
      assert s[..p.len] + s[p.len..] == s;
    }
  }

  function Filter(ops: seq<seq<byte>>, b: seq<byte>): seq<seq<byte>> {
    if ops == [] then [] else (if ops[0] == b then [] else [ops[0]]) + Filter(ops[1..], b)
  }

  function CountOf(ops: seq<seq<byte>>, b: seq<byte>): nat {
    if ops == [] then 0 else (if ops[0] == b then 1 else 0) + CountOf(ops[1..], b)
  }

  /* ---- deleting ---- */

  /** What is left of a script when b is deleted wherever an operation might begin. */
  function Deleted(s: seq<byte>, b: seq<byte>): (r: (seq<byte>, nat))
    requires b != []
    ensures |r.0| == |s| - r.1 * |b|
    decreases |s|
  {
    if b <= s then
      assert |s[|b|..]| == |s| - |b|;
      var r := Deleted(s[|b|..], b);
      assert (r.1 + 1) * |b| == r.1 * |b| + |b|;
      (r.0, r.1 + 1)
    else
      var p := FirstOp(s);
      if p.Bad? then (s, 0)
      else
        var r := Deleted(s[p.len..], b);
        (s[..p.len] + r.0, r.1)
  }

  /** b is the encoding of one operation. */
  predicate IsOp(b: seq<byte>) { FirstOp(b).Got? && FirstOp(b).len == |b| }

  /** Reading an operation looks at no byte after it. */
  lemma FirstOpExtend(b: seq<byte>, s: seq<byte>)
    requires IsOp(b) && b <= s
    ensures FirstOp(s) == FirstOp(b)
  {
    var k := 1 + LengthField(b[0]);
    assert s[0] == b[0];
    if b[0] <= OP_PUSHDATA4 {
      assert s[1..k] == b[1..k];
      assert s[k..|b|] == b[k..|b|];
    }
  }

  /** Deleting an operation filters it out of the list of operations, keeps what cannot be read, and counts
      how often it was there. */
  lemma {:induction false} DeletedIsFilter(s: seq<byte>, b: seq<byte>)
    requires IsOp(b)
    ensures Deleted(s, b).0 == Joined(Listing(Filter(List(s).ops, b), List(s).tail))
    ensures Deleted(s, b).1 == CountOf(List(s).ops, b)
    decreases |s|
  {
    hide FirstOp;
    var l := List(s);
    var p := FirstOp(s);
    if p.Got? {
      assert l.ops[0] == s[..p.len] && l.ops[1..] == List(s[p.len..]).ops;
    }
    if b <= s {
      FirstOpExtend(b, s);
      assert s[..p.len] == b;
      DeletedIsFilter(s[|b|..], b);
      assert Filter(l.ops, b) == Filter(l.ops[1..], b);
    } else if p.Got? {
      assert s[..p.len] != b;
      DeletedIsFilter(s[p.len..], b);
      var f := Filter(l.ops[1..], b);
      assert ([s[..p.len]] + f)[1..] == f;
    }
  }

  /** A pushed value is one operation, so deleting it is always filtering. */
  lemma PushIsOp(b: seq<byte>)
    requires |b| < UINT_LIMIT
    ensures IsOp(PushOp(b))
  {
    PushRead(b, []);
    assert PushOp(b) + [] == PushOp(b);
  }

  /** What filtering b out of the operations leaves, and how often b was among them. */
  function Filtered(s: seq<byte>, b: seq<byte>): (seq<byte>, nat) {
    (Joined(Listing(Filter(List(s).ops, b), List(s).tail)), CountOf(List(s).ops, b))
  }

  /** Longer bytes than the script are none of its operations. */
  lemma {:induction false} TooLong(s: seq<byte>, b: seq<byte>)
    requires |b| > |s|
    ensures CountOf(List(s).ops, b) == 0
    decreases |s|
  {
    hide FirstOp;
    var p := FirstOp(s);
    if p.Got? {
      TooLong(s[p.len..], b);
      assert List(s).ops[0] == s[..p.len] && List(s).ops[1..] == List(s[p.len..]).ops;
    }
  }

  /** Bytes that are not one operation are deleted from themselves although no operation equals them. */
  lemma NoOpNotFiltered(b: seq<byte>)
    requires b != [] && !IsOp(b)
    ensures Deleted(b, b) != Filtered(b, b)
  {
    hide FirstOp;
    assert b[|b|..] == [] && Deleted([], b).1 == 0;
    assert Deleted(b, b).1 == 1;
    var p := FirstOp(b);
    if p.Got? {
      TooLong(b[p.len..], b);
      assert List(b).ops[0] == b[..p.len] && List(b).ops[1..] == List(b[p.len..]).ops;
      assert |b[..p.len]| < |b|;
    }
  }

  /** Deleting is filtering, on every script, exactly if what is deleted is one operation. */
  lemma DeletionFiltersIff(b: seq<byte>)
    requires b != []
    ensures (forall s :: Deleted(s, b) == Filtered(s, b)) <==> IsOp(b)
  {
    hide Deleted, Filtered, IsOp;
    if IsOp(b) {
      forall s ensures Deleted(s, b) == Filtered(s, b) { DeletedFiltered(s, b); }
    } else {
      NoOpNotFiltered(b);
    }
  }

  lemma DeletedFiltered(s: seq<byte>, b: seq<byte>)
    requires IsOp(b)
    ensures b != [] && Deleted(s, b) == Filtered(s, b)
  {
    DeletedIsFilter(s, b);
  }

  lemma Append<T>(s: seq<T>, a: seq<T>, b: seq<T>)
    ensures s + a + b == s + (a + b)
  {
  }

  lemma Cut<T>(s: seq<T>, i: nat, n: nat)
    requires i + n <= |s|
    ensures s[i..][n..] == s[i + n..] && s[..i] + s[i..][..n] == s[..i + n] && s[..i] + s[i..] == s
  {
  }

  /** A script, changed in place. */
  class Script {
    var bytes: seq<byte>

    constructor (bytes: seq<byte>)
      ensures this.bytes == bytes
    {
      this.bytes := bytes;
    }

    /** Appends an operation that pushes the data. */
    method Push(b: seq<byte>)
      modifies this
      ensures bytes == old(bytes) + PushOp(b)
    {
      hide UintBytes;
      ghost var s := bytes;
      if |b| < OP_PUSHDATA1 {
        bytes := bytes + [|b|];
      } else if |b| <= 0xff {
        bytes := bytes + [OP_PUSHDATA1];
        bytes := bytes + [|b|];
        Append(s, [OP_PUSHDATA1], [|b|]);
      } else if |b| <= 0xffff {
        bytes := bytes + [OP_PUSHDATA2];
        var nSize := |b|;
        bytes := bytes + [nSize % 0x100, nSize / 0x100];
        Append(s, [OP_PUSHDATA2], [nSize % 0x100, nSize / 0x100]);
      } else {
        bytes := bytes + [OP_PUSHDATA4];
        var nSize := |b| % UINT_LIMIT;
        bytes := bytes + UintBytes(nSize);
        Append(s, [OP_PUSHDATA4], UintBytes(nSize));
      }
      assert bytes == s + PushHead(b);
      hide PushHead;
      Append(s, PushHead(b), b);
      bytes := bytes + b;
    }

    /** Deletes b in place wherever an operation begins with it. */
    method FindAndDelete(b: seq<byte>) returns (nFound: nat)
      modifies this
      ensures b == [] ==> nFound == 0 && bytes == old(bytes)
      ensures b != [] ==> (bytes, nFound) == Deleted(old(bytes), b)
    {
      hide Deleted, FirstOp;
      nFound := 0;
      if b == [] { return; }
      var pc := 0;
      DeletingBegins(bytes, b);
      while true
        invariant 0 <= pc <= |bytes| && Deleting(bytes, pc, nFound, b) == Deleted(old(bytes), b)
        decreases |bytes| - pc
      {
        while |bytes| - pc >= |b| && bytes[pc..pc + |b|] == b
          invariant 0 <= pc <= |bytes| && Deleting(bytes, pc, nFound, b) == Deleted(old(bytes), b)
          decreases |bytes|
        {
          DeletedHere(bytes, pc, nFound, b);
          bytes := bytes[..pc] + bytes[pc + |b|..];
          nFound := nFound + 1;
        }
        var ok, next, opcode, data := GetOp(bytes, pc);
        DeletedNotHere(bytes, pc, nFound, b);
        if !ok {
          break;
        }
        pc := next;
      }
    }
  }

  /** The final result, seen from a script whose first pc bytes are done with. */
  function Deleting(s: seq<byte>, pc: nat, nFound: nat, b: seq<byte>): (seq<byte>, nat)
    requires b != [] && pc <= |s|
  {
    var r := Deleted(s[pc..], b);
    (s[..pc] + r.0, nFound + r.1)
  }

  lemma DeletingBegins(s: seq<byte>, b: seq<byte>)
    requires b != []
    ensures Deleting(s, 0, 0, b) == Deleted(s, b)
  {
    hide Deleted;
    assert s[0..] == s;
    assert s[..0] + Deleted(s, b).0 == Deleted(s, b).0;
  }

  lemma DeletedHere(s: seq<byte>, pc: nat, nFound: nat, b: seq<byte>)
    requires b != [] && pc + |b| <= |s| && s[pc..pc + |b|] == b
    ensures Deleting(s[..pc] + s[pc + |b|..], pc, nFound + 1, b) == Deleting(s, pc, nFound, b)
  {
    hide FirstOp;
    var t := s[..pc] + s[pc + |b|..];
    assert t[..pc] == s[..pc] && t[pc..] == s[pc + |b|..];
    assert s[pc..][..|b|] == b && s[pc..][|b|..] == s[pc + |b|..];
  }

  lemma DeletedNotHere(s: seq<byte>, pc: nat, nFound: nat, b: seq<byte>)
    requires b != [] && pc <= |s| && !(pc + |b| <= |s| && s[pc..pc + |b|] == b)
    ensures var p := FirstOp(s[pc..]);
      Deleting(s, pc, nFound, b) == if p.Bad? then (s, nFound) else Deleting(s, pc + p.len, nFound, b)
  {
    hide FirstOp;
    var u := s[pc..];
    assert pc + |b| <= |s| ==> u[..|b|] == s[pc..pc + |b|];
    NotHere(u, b);
    hide Deleted;
    var p := FirstOp(u);
    if p.Got? {
      Cut(s, pc, p.len);
      Append(s[..pc], u[..p.len], Deleted(u[p.len..], b).0);
    } else {
      Cut(s, pc, 0);
    }
  }

  lemma NotHere(s: seq<byte>, b: seq<byte>)
    requires b != [] && !(b <= s)
    ensures var p := FirstOp(s);
      Deleted(s, b) == if p.Bad? then (s, 0) else (s[..p.len] + Deleted(s[p.len..], b).0, Deleted(s[p.len..], b).1)
  {
    hide FirstOp;
  }
}
