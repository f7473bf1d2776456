/** The message format of the peer-to-peer protocol, and what a buffer of received bytes holds. */
module Wire {
  import opened Bytes

  const MESSAGE_START_SIZE: nat := 4
  const COMMAND_SIZE: nat := 12
  const MESSAGE_SIZE_OFFSET: nat := 16
  const CHECKSUM_OFFSET: nat := 20
  const HEADER_SIZE: nat := 24
  const MAX_SIZE: nat := 0x02000000

  type Start = s: seq<byte> | |s| == MESSAGE_START_SIZE witness [0xfc, 0xd9, 0xb7, 0xdd]

  /** The four bytes every message of this network begins with, and the hash behind checksums. */
  datatype Net = Net(start: Start, hash: seq<byte> -> nat) {
    function Checksum(payload: seq<byte>): (c: nat) ensures c < UINT_LIMIT { hash(payload) % UINT_LIMIT }
  }

  datatype Message = Message(command: seq<byte>, payload: seq<byte>)

  /* ---- headers ---- */

  datatype Header = Header(start: seq<byte>, command: seq<byte>, nMessageSize: nat, nChecksum: nat)

  /** Reads the header fields one after the other. */
  function ReadHeader(b: seq<byte>): (h: Header)
    requires |b| == HEADER_SIZE
    ensures |h.start| == MESSAGE_START_SIZE && |h.command| == COMMAND_SIZE && h.nMessageSize < UINT_LIMIT
    ensures h.nChecksum < UINT_LIMIT
  {
    Header(b[..MESSAGE_START_SIZE], b[MESSAGE_START_SIZE..MESSAGE_SIZE_OFFSET],
           Uint(b[MESSAGE_SIZE_OFFSET..CHECKSUM_OFFSET]), Uint(b[CHECKSUM_OFFSET..HEADER_SIZE]))
  }

  function HeaderBytes(h: Header): (b: seq<byte>)
    requires |h.start| == MESSAGE_START_SIZE && |h.command| == COMMAND_SIZE && h.nMessageSize < UINT_LIMIT
    requires h.nChecksum < UINT_LIMIT
    ensures |b| == HEADER_SIZE && ReadHeader(b) == h
  {
    var b := h.start + h.command + UintBytes(h.nMessageSize) + UintBytes(h.nChecksum);
    assert b[..MESSAGE_START_SIZE] == h.start && b[MESSAGE_START_SIZE..MESSAGE_SIZE_OFFSET] == h.command;
    assert b[MESSAGE_SIZE_OFFSET..CHECKSUM_OFFSET] == UintBytes(h.nMessageSize);
    assert b[CHECKSUM_OFFSET..HEADER_SIZE] == UintBytes(h.nChecksum);
    b
  }

  predicate Printable(c: byte) { 0x20 <= c <= 0x7E }

  /** Printable characters, filled up with zeros. */
  ghost predicate CommandOk(cmd: seq<byte>) {
    exists n :: CommandEnds(cmd, n)
  }

  predicate CommandEnds(cmd: seq<byte>, n: nat) {
    n <= |cmd| && (forall i :: 0 <= i < n ==> Printable(cmd[i])) && forall i :: n <= i < |cmd| ==> cmd[i] == 0
  }

  /** The command up to the first zero. */
  function Trimmed(cmd: seq<byte>): (s: seq<byte>)
    ensures |s| <= |cmd| && s == cmd[..|s|] && 0 !in s && (|s| < |cmd| ==> cmd[|s|] == 0)
  {
    if cmd == [] || cmd[0] == 0 then [] else [cmd[0]] + Trimmed(cmd[1..])
  }

  /** The command as text: cut at the first zero, but only if the last byte is zero. */
  function GetCommand(cmd: seq<byte>): seq<byte>
    requires |cmd| == COMMAND_SIZE
  {
    if cmd[COMMAND_SIZE - 1] == 0 then Trimmed(cmd) else cmd
  }

  /** For commands a valid header can hold the two are the same; for others a zero inside may remain. */
  lemma GetCommandTrims(cmd: seq<byte>)
    requires |cmd| == COMMAND_SIZE
    ensures GetCommand(cmd) == Trimmed(cmd) <==> cmd[COMMAND_SIZE - 1] == 0 || 0 !in cmd
    ensures CommandOk(cmd) ==> GetCommand(cmd) == Trimmed(cmd)
  {
    hide Trimmed;
    if |Trimmed(cmd)| == |cmd| {
      assert cmd[..|cmd|] == cmd;
    } else {
      assert cmd[|Trimmed(cmd)|] == 0;
    }
    if CommandOk(cmd) {
      var n :| CommandEnds(cmd, n);
      assert cmd[COMMAND_SIZE - 1] == 0 || n == |cmd|;
    }
  }

  function Padded(s: seq<byte>): (cmd: seq<byte>)
    ensures |cmd| == COMMAND_SIZE
  {
    if |s| >= COMMAND_SIZE then s[..COMMAND_SIZE] else s + seq(COMMAND_SIZE - |s|, _ => 0)
  }

  ghost predicate HeaderOk(net: Net, h: Header) {
    h.start == net.start && CommandOk(h.command) && h.nMessageSize <= MAX_SIZE
  }

  /* ---- one step of the parser ---- */

  predicate StartsAt(net: Net, b: seq<byte>, p: int) {
    0 <= p && p + MESSAGE_START_SIZE <= |b| && b[p..p + MESSAGE_START_SIZE] == net.start
  }

  /** Where the start bytes first occur; the end if they do not. */
  function Find(net: Net, b: seq<byte>): (p: nat)
    ensures p <= |b| && (p < |b| ==> StartsAt(net, b, p)) && forall q :: 0 <= q < p ==> !StartsAt(net, b, q)
  {
    if |b| < MESSAGE_START_SIZE then |b|
    else if StartsAt(net, b, 0) then 0
    else
      var p := Find(net, b[1..]);
      assert forall q :: 0 < q < |b| ==> (StartsAt(net, b, q) <==> StartsAt(net, b[1..], q - 1)) by {
        forall q | 0 < q < |b|
          ensures StartsAt(net, b, q) <==> StartsAt(net, b[1..], q - 1)
        {
          StartsAtShift(net, b, 1, q - 1);
        }
      }
      1 + p
  }

  /** What a step makes of the buffer: it waits for more bytes, drops a header that is no good, or takes
      a whole message out. */
  datatype Outcome = Wait(rest: seq<byte>) | Drop(rest: seq<byte>) | Deliver(msg: Message, rest: seq<byte>)

  /** A step on a buffer that begins with a header. */
  ghost function StepAt(net: Net, b: seq<byte>): (o: Outcome)
    requires |b| >= HEADER_SIZE
    ensures o.Wait? || |o.rest| < |b|
  {
    var h := ReadHeader(b[..HEADER_SIZE]);
    var data := b[HEADER_SIZE..];
    if !HeaderOk(net, h) then Drop(data)
    else if h.nMessageSize > |data| then Wait(b)
    else if net.Checksum(data[..h.nMessageSize]) != h.nChecksum then Drop(data)
    else Deliver(Message(GetCommand(h.command), data[..h.nMessageSize]), data[h.nMessageSize..])
  }

  function LastHeader(b: seq<byte>): seq<byte> { if |b| > HEADER_SIZE then b[|b| - HEADER_SIZE..] else b }

  ghost function Step(net: Net, b: seq<byte>): (o: Outcome)
    ensures o.Wait? || |o.rest| < |b|
  {
    var p := Find(net, b);
    if |b| - p < HEADER_SIZE then Wait(LastHeader(b)) else StepAt(net, b[p..])
  }

  /* ---- a whole pass ---- */

  datatype Pass = Pass(msgs: seq<Message>, rest: seq<byte>)

  /** Everything a buffer delivers, and what stays in it. */
  ghost function Run(net: Net, b: seq<byte>): Pass
    decreases |b|
  {
    match Step(net, b)
    case Wait(rest) => Pass([], rest)
    case Drop(rest) => Run(net, rest)
    case Deliver(msg, rest) => After([msg], Run(net, rest))
  }

  function After(msgs: seq<Message>, p: Pass): Pass { Pass(msgs + p.msgs, p.rest) }

  /* ---- bytes that arrive later ---- */

  lemma StartsAtShift(net: Net, a: seq<byte>, k: nat, p: int)
    requires k <= |a| && p >= 0
    ensures StartsAt(net, a[k..], p) <==> StartsAt(net, a, k + p)
  {
    if k + p + MESSAGE_START_SIZE <= |a| {
      assert a[k..][p..p + MESSAGE_START_SIZE] == a[k + p..k + p + MESSAGE_START_SIZE];
    }
  }

  lemma StartsAtExtend(net: Net, a: seq<byte>, b: seq<byte>, p: int)
    requires 0 <= p && p + MESSAGE_START_SIZE <= |a|
    ensures StartsAt(net, a + b, p) <==> StartsAt(net, a, p)
  {
    assert (a + b)[p..p + MESSAGE_START_SIZE] == a[p..p + MESSAGE_START_SIZE];
  }

  lemma FindIs(net: Net, b: seq<byte>, p: nat)
    requires p <= |b| && (p < |b| ==> StartsAt(net, b, p)) && forall q :: 0 <= q < p ==> !StartsAt(net, b, q)
    ensures Find(net, b) == p
  {
  }

  /** Dropping bytes before the first start changes nothing but where it is. */
  lemma FindDrop(net: Net, a: seq<byte>, k: nat)
    requires k <= Find(net, a)
    ensures Find(net, a[k..]) == Find(net, a) - k
  {
    var p := Find(net, a) - k;
    forall q | 0 <= q < p ensures !StartsAt(net, a[k..], q) { StartsAtShift(net, a, k, q); }
    StartsAtShift(net, a, k, p);
    FindIs(net, a[k..], p);
  }

  /** A header found stays found. */
  lemma FindExtend(net: Net, a: seq<byte>, b: seq<byte>)
    requires |a| - Find(net, a) >= HEADER_SIZE
    ensures Find(net, a + b) == Find(net, a)
  {
    var p := Find(net, a);
    forall q | 0 <= q <= p ensures StartsAt(net, a + b, q) <==> q == p { StartsAtExtend(net, a, b, q); }
    FindIs(net, a + b, p);
  }

  /** Without a header in a, the first start of a + b is within the last bytes of a, or after them. */
  lemma FindLate(net: Net, a: seq<byte>, b: seq<byte>)
    requires |a| - Find(net, a) < HEADER_SIZE
    ensures Find(net, a + b) > |a| - HEADER_SIZE
  {
    var p := Find(net, a + b);
    if p <= |a| - HEADER_SIZE { StartsAtExtend(net, a, b, p); }
  }

  lemma StepAtExtend(net: Net, a: seq<byte>, b: seq<byte>)
    requires |a| >= HEADER_SIZE
    ensures StepAt(net, a).Drop? ==> StepAt(net, a + b) == Drop(StepAt(net, a).rest + b)
    ensures StepAt(net, a).Deliver? ==> StepAt(net, a + b) == Deliver(StepAt(net, a).msg, StepAt(net, a).rest + b)
    ensures StepAt(net, a).Wait? ==> StepAt(net, a).rest == a
  {
    assert (a + b)[..HEADER_SIZE] == a[..HEADER_SIZE] && (a + b)[HEADER_SIZE..] == a[HEADER_SIZE..] + b;
    var n := ReadHeader(a[..HEADER_SIZE]).nMessageSize;
    if n <= |a| - HEADER_SIZE {
      assert (a[HEADER_SIZE..] + b)[..n] == a[HEADER_SIZE..][..n];
      assert (a[HEADER_SIZE..] + b)[n..] == a[HEADER_SIZE..][n..] + b;
    }
    hide CommandOk, GetCommand, ReadHeader;
  }

  /** Whatever a step does, later bytes would not have changed it, except that a step that waits may not
      have to; and then it is as if it had waited with the bytes it kept. */
  lemma StepExtend(net: Net, a: seq<byte>, b: seq<byte>)
    ensures Step(net, a).Drop? ==> Step(net, a + b) == Drop(Step(net, a).rest + b)
    ensures Step(net, a).Deliver? ==> Step(net, a + b) == Deliver(Step(net, a).msg, Step(net, a).rest + b)
    ensures Step(net, a).Wait? ==> Step(net, a + b) == Step(net, Step(net, a).rest + b)
  {
    hide StepAt, Find;
    var p := Find(net, a);
    if |a| - p >= HEADER_SIZE {
      FindExtend(net, a, b);
      assert (a + b)[p..] == a[p..] + b;
      StepAtExtend(net, a[p..], b);
      if StepAt(net, a[p..]).Wait? {
        FindDrop(net, a + b, p);
      }
    } else if |a| > HEADER_SIZE {
      FindLate(net, a, b);
      var k := |a| - HEADER_SIZE;
      assert (a + b)[k..] == LastHeader(a) + b;
      FindDrop(net, a + b, k);
      var q := Find(net, a + b);
      assert (a + b)[q..] == (LastHeader(a) + b)[q - k..];
      assert LastHeader(a + b) == LastHeader(LastHeader(a) + b);
    }
  }

  /** A buffer may be processed before the rest arrives: the messages and the bytes left are those of
      one pass over everything. */
  lemma {:induction false} RunExtend(net: Net, a: seq<byte>, b: seq<byte>)
    ensures Run(net, a + b) == After(Run(net, a).msgs, Run(net, Run(net, a).rest + b))
    decreases |a|
  {
    hide Step;
    StepExtend(net, a, b);
    match Step(net, a)
    case Wait(rest) =>
    case Drop(rest) => RunExtend(net, rest, b);
    case Deliver(msg, rest) =>
      RunExtend(net, rest, b);
      assert [msg] + (Run(net, rest).msgs + Run(net, Run(net, rest).rest + b).msgs)
          == ([msg] + Run(net, rest).msgs) + Run(net, Run(net, rest).rest + b).msgs;
  }

  /** What is left after a pass delivers nothing by itself. */
  lemma RunSettles(net: Net, a: seq<byte>)
    ensures Run(net, Run(net, a).rest) == Pass([], Run(net, a).rest)
  {
    RunExtend(net, a, []);
    assert a + [] == a && Run(net, a).rest + [] == Run(net, a).rest;
    var again := Run(net, Run(net, a).rest);
    assert Run(net, a).msgs + again.msgs == Run(net, a).msgs;
    assert |again.msgs| == 0;
  }

  /* ---- any split into pieces ---- */

  function Joined(pieces: seq<seq<byte>>): seq<byte> {
    if pieces == [] then [] else Joined(pieces[..|pieces| - 1]) + pieces[|pieces| - 1]
  }

  /** A pass after every piece. */
  ghost function RunPieces(net: Net, pieces: seq<seq<byte>>): Pass {
    if pieces == [] then Run(net, [])
    else
      var p := RunPieces(net, pieces[..|pieces| - 1]);
      After(p.msgs, Run(net, p.rest + pieces[|pieces| - 1]))
  }

  /** The way the bytes are cut up does not matter. */
  lemma {:induction false} ChunkingIndependence(net: Net, pieces: seq<seq<byte>>)
    ensures RunPieces(net, pieces) == Run(net, Joined(pieces))
  {
    hide Step;
    if pieces == [] {
    } else {
      ChunkingIndependence(net, pieces[..|pieces| - 1]);
      RunExtend(net, Joined(pieces[..|pieces| - 1]), pieces[|pieces| - 1]);
    }
  }

  /* ---- frames ---- */

  /** The bytes sent for a message. The size field holds 32 bits. */
  function Frame(net: Net, m: Message): (b: seq<byte>) {
    HeaderBytes(Header(net.start, Padded(m.command), |m.payload| % UINT_LIMIT, net.Checksum(m.payload))) + m.payload
  }

  /** The messages that survive the journey: the command fits the header and is printable, the payload is
      not too long. */
  predicate Sendable(m: Message) {
    && |m.command| <= COMMAND_SIZE && (forall i :: 0 <= i < |m.command| ==> Printable(m.command[i]))
    && |m.payload| <= MAX_SIZE
  }

  /** What becomes of a frame at the front of the buffer, whatever follows it: a command that is too long
      is cut off, and if it is not printable, or the payload is too long, the header alone is dropped. */
  lemma FrameFate(net: Net, m: Message, rest: seq<byte>)
    requires |m.payload| < UINT_LIMIT
    ensures Step(net, Frame(net, m) + rest) ==
      if CommandOk(Padded(m.command)) && |m.payload| <= MAX_SIZE
      then Deliver(Message(Trimmed(Padded(m.command)), m.payload), rest)
      else Drop(m.payload + rest)
  {
    hide HeaderBytes, ReadHeader, Trimmed, GetCommand, Padded, CommandOk, Find, Frame;
    GetCommandTrims(Padded(m.command));
    var b := Frame(net, m) + rest;
    FrameParts(net, m, rest);
    FindIs(net, b, 0);
    assert b[0..] == b;
  }

  lemma FrameParts(net: Net, m: Message, rest: seq<byte>)
    requires |m.payload| < UINT_LIMIT
    ensures var b := Frame(net, m) + rest;
      && |b| >= HEADER_SIZE
      && ReadHeader(b[..HEADER_SIZE]) == Header(net.start, Padded(m.command), |m.payload|, net.Checksum(m.payload))
      && StartsAt(net, b, 0) && b[HEADER_SIZE..] == m.payload + rest
      && b[HEADER_SIZE..][..|m.payload|] == m.payload && b[HEADER_SIZE..][|m.payload|..] == rest
  {
    hide Padded, HeaderBytes, ReadHeader;
    var h := Header(net.start, Padded(m.command), |m.payload|, net.Checksum(m.payload));
    var head := HeaderBytes(h);
    var b := Frame(net, m) + rest;
    assert b == head + (m.payload + rest);
    assert b[..HEADER_SIZE] == head && b[HEADER_SIZE..] == m.payload + rest;
    assert b[..MESSAGE_START_SIZE] == head[..MESSAGE_START_SIZE];
    assert head[..MESSAGE_START_SIZE] == net.start by { StartOf(head); }
  }

  lemma StartOf(b: seq<byte>)
    requires |b| == HEADER_SIZE
    ensures ReadHeader(b).start == b[..MESSAGE_START_SIZE]
  {
  }

  lemma {:induction false} TrimmedIs(cmd: seq<byte>, n: nat)
    requires CommandEnds(cmd, n)
    ensures |Trimmed(cmd)| == n
  {
    if n > 0 { TrimmedIs(cmd[1..], n - 1); }
  }

  lemma FrameDelivered(net: Net, m: Message, rest: seq<byte>)
    requires Sendable(m)
    ensures Step(net, Frame(net, m) + rest) == Deliver(m, rest)
  {
    hide Step, Frame, Trimmed;
    assert CommandEnds(Padded(m.command), |m.command|);
    TrimmedIs(Padded(m.command), |m.command|);
    FrameFate(net, m, rest);
  }

  function Frames(net: Net, ms: seq<Message>): seq<byte> {
    if ms == [] then [] else Frame(net, ms[0]) + Frames(net, ms[1..])
  }

  /** Any number of frames is delivered in order, and nothing is left over. */
  lemma {:induction false} FramesDelivered(net: Net, ms: seq<Message>)
    requires forall i :: 0 <= i < |ms| ==> Sendable(ms[i])
    ensures Run(net, Frames(net, ms)) == Pass(ms, [])
  {
    hide Step, Frame;
    if ms == [] {
      EmptyWaits(net);
    } else {
      FrameDelivered(net, ms[0], Frames(net, ms[1..]));
      FramesDelivered(net, ms[1..]);
      assert [ms[0]] + ms[1..] == ms;
    }
  }

  lemma EmptyWaits(net: Net)
    ensures Step(net, []) == Wait([])
  {
  }

  /* ---- what is delivered was in the bytes ---- */

  lemma TrimmedPadded(cmd: seq<byte>)
    requires |cmd| == COMMAND_SIZE && CommandOk(cmd)
    ensures Padded(Trimmed(cmd)) == cmd && forall i :: 0 <= i < |Trimmed(cmd)| ==> Printable(Trimmed(cmd)[i])
  {
    hide Trimmed;
    var n: nat :| CommandEnds(cmd, n);
    TrimmedIs(cmd, n);
    assert Trimmed(cmd) == cmd[..n];
  }

  /** A header is the bytes it was read from. */
  lemma ReadBack(b: seq<byte>)
    requires |b| == HEADER_SIZE
    ensures HeaderBytes(ReadHeader(b)) == b
  {
    hide Uint, UintBytes;
    UintRead(b[MESSAGE_SIZE_OFFSET..CHECKSUM_OFFSET]);
    UintRead(b[CHECKSUM_OFFSET..HEADER_SIZE]);
  }

  lemma UintRead(b: seq<byte>)
    requires |b| == 4
    ensures UintBytes(Uint(b)) == b
  {
    var (b0: int, b1: int, b2: int, b3: int) := (b[0], b[1], b[2], b[3]);
    var n1 := b1 + 0x100 * (b2 + 0x100 * b3);
    assert Uint(b) == b0 + 0x100 * n1;
    LowByte(b0, n1);
    LowByte(b1, b2 + 0x100 * b3);
    LowByte(b2, b3);
  }

  lemma LowByte(low: int, n: int)
    requires 0 <= low < 0x100 && n >= 0
    ensures (low + 0x100 * n) / 0x100 == n && (low + 0x100 * n) % 0x100 == low
  {
  }

  /** A step on a buffer that begins with a header delivers a message only if the buffer begins with its frame, and the
      message can be sent. */
  lemma DeliverAt(net: Net, b: seq<byte>)
    requires |b| >= HEADER_SIZE && StepAt(net, b).Deliver?
    ensures var o := StepAt(net, b); Sendable(o.msg) && b == Frame(net, o.msg) + o.rest
  {
    hide Trimmed, Padded, HeaderBytes, ReadHeader;
    var head, data, h := b[..HEADER_SIZE], b[HEADER_SIZE..], ReadHeader(b[..HEADER_SIZE]);
    GetCommandTrims(h.command);
    TrimmedPadded(h.command);
    ReadBack(head);
    assert b == head + data[..h.nMessageSize] + data[h.nMessageSize..];
  }

  /** The frame of the message stands at the place. */
  predicate FrameAt(net: Net, m: Message, b: seq<byte>, p: nat) {
    p + |Frame(net, m)| <= |b| && b[p..p + |Frame(net, m)|] == Frame(net, m)
  }

  /** A step delivers a message only where its frame stands in the buffer, with its checksum right, where the start
      bytes first occur; the rest is what follows. */
  lemma DeliveredStands(net: Net, b: seq<byte>)
    requires Step(net, b).Deliver?
    ensures var o, p := Step(net, b), Find(net, b);
      Sendable(o.msg) && FrameAt(net, o.msg, b, p) && o.rest == b[p + |Frame(net, o.msg)|..]
  {
    hide StepAt, Frame, Find;
    var o, p := Step(net, b), Find(net, b);
    DeliverAt(net, b[p..]);
    assert b == b[..p] + (Frame(net, o.msg) + o.rest);
  }

  /** And so a step delivers exactly if the first start bytes begin the frame of a message that can be sent. */
  lemma DeliversIff(net: Net, b: seq<byte>)
    ensures Step(net, b).Deliver? <==> exists m :: Sendable(m) && FrameAt(net, m, b, Find(net, b))
  {
    hide Step, Frame, Find;
    if Step(net, b).Deliver? { DeliveredStands(net, b); }
    forall m | Sendable(m) && FrameAt(net, m, b, Find(net, b)) ensures Step(net, b).Deliver? {
      StandingDelivered(net, b, m);
    }
  }

  lemma StandingDelivered(net: Net, b: seq<byte>, m: Message)
    requires Sendable(m) && FrameAt(net, m, b, Find(net, b))
    ensures Step(net, b).Deliver?
  {
    hide Frame, StepAt, Find;
    var p := Find(net, b);
    var rest := b[p + |Frame(net, m)|..];
    assert b[p..] == Frame(net, m) + rest;
    FrameParts(net, m, rest);
    FindIs(net, b[p..], 0);
    FrameDelivered(net, m, rest);
    assert b[p..][0..] == b[p..];
  }

  /** The frames of the messages stand in the buffer one after the other, and each message can be sent. */
  ghost predicate HeldIn(net: Net, ms: seq<Message>, b: seq<byte>)
    decreases |ms|
  {
    ms == [] ||
    (Sendable(ms[0]) && exists p: nat :: FrameAt(net, ms[0], b, p)
                                         && HeldIn(net, ms[1..], b[p + |Frame(net, ms[0])|..]))
  }

  lemma HeldLater(net: Net, ms: seq<Message>, b: seq<byte>, k: nat)
    requires k <= |b| && HeldIn(net, ms, b[k..])
    ensures HeldIn(net, ms, b)
  {
    hide Frame;
    if ms != [] {
      var p: nat :| FrameAt(net, ms[0], b[k..], p) && HeldIn(net, ms[1..], b[k..][p + |Frame(net, ms[0])|..]);
      var n := |Frame(net, ms[0])|;
      assert b[k..][p..p + n] == b[k + p..k + p + n] && b[k..][p + n..] == b[k + p + n..];
      assert FrameAt(net, ms[0], b, k + p);
    }
  }

  /** Whatever a pass delivers was in the buffer. */
  lemma {:induction false} RunHeld(net: Net, b: seq<byte>)
    ensures HeldIn(net, Run(net, b).msgs, b)
    decreases |b|
  {
    hide Step, Frame, HeldIn;
    NoneHeld(net, b);
    match Step(net, b)
    case Wait(_) =>
    case Drop(rest) =>
      RunHeld(net, rest);
      DropsFront(net, b);
      HeldLater(net, Run(net, rest).msgs, b, |b| - |rest|);
    case Deliver(msg, rest) =>
      RunHeld(net, rest);
      DeliveredStands(net, b);
      OneMoreHeld(net, b, Find(net, b), msg, Run(net, rest).msgs);
  }

  lemma NoneHeld(net: Net, b: seq<byte>)
    ensures HeldIn(net, [], b)
  {
  }

  lemma DropsFront(net: Net, b: seq<byte>)
    requires Step(net, b).Drop?
    ensures var rest := Step(net, b).rest; |rest| <= |b| && rest == b[|b| - |rest|..]
  {
    hide Find;
  }

  lemma OneMoreHeld(net: Net, b: seq<byte>, p: nat, m: Message, ms: seq<Message>)
    requires Sendable(m) && FrameAt(net, m, b, p) && HeldIn(net, ms, b[p + |Frame(net, m)|..])
    ensures HeldIn(net, [m] + ms, b)
  {
    hide Frame;
    assert ([m] + ms)[1..] == ms;
  }

  /** And so was every first part of it. */
  lemma {:induction false} HeldPrefix(net: Net, ms: seq<Message>, b: seq<byte>, n: nat)
    requires n <= |ms| && HeldIn(net, ms, b)
    ensures HeldIn(net, ms[..n], b)
    decreases n
  {
    hide Frame;
    if n > 0 {
      var p: nat :| FrameAt(net, ms[0], b, p) && HeldIn(net, ms[1..], b[p + |Frame(net, ms[0])|..]);
      HeldPrefix(net, ms[1..], b[p + |Frame(net, ms[0])|..], n - 1);
      assert ms[..n][1..] == ms[1..][..n - 1];
    }
  }
}
