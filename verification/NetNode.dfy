/** One connection to a peer: the messages put into its send buffer, and the messages taken out of its
    receive buffer. */
module NetNode {
  import opened Bytes
  import opened DataStream
  import opened Wire

  /** Scans the command with a moving position: after the first zero there must be zeros only. */
  method IsValid(net: Net, h: Header) returns (ok: bool)
    requires |h.command| == COMMAND_SIZE
    ensures ok == HeaderOk(net, h)
  {
    if h.start != net.start { return false; }
    var p1 := 0;
    while p1 < COMMAND_SIZE
      invariant 0 <= p1 && (p1 <= COMMAND_SIZE ==> forall i :: 0 <= i < p1 ==> Printable(h.command[i]))
      invariant p1 > COMMAND_SIZE ==> CommandOk(h.command)
    {
      if h.command[p1] == 0 {
        ghost var n := p1;
        while p1 < COMMAND_SIZE
          invariant n <= p1 <= COMMAND_SIZE && forall i :: n <= i < p1 ==> h.command[i] == 0
        {
          if h.command[p1] != 0 {
            BadCommand(h.command, n, p1);
            return false;
          }
          p1 := p1 + 1;
        }
        assert CommandEnds(h.command, n);
      } else if h.command[p1] < 0x20 || h.command[p1] > 0x7E {
        BadCommand(h.command, p1, p1);
        return false;
      }
      p1 := p1 + 1;
    }
    if p1 == COMMAND_SIZE { assert CommandEnds(h.command, COMMAND_SIZE); }
    ok := h.nMessageSize <= MAX_SIZE;
  }

  lemma BadCommand(cmd: seq<byte>, n: nat, p: nat)
    requires n <= p < |cmd| && cmd[p] != 0 && (if n == p then !Printable(cmd[p]) else cmd[n] == 0)
    ensures !CommandOk(cmd)
  {
    forall k: nat ensures !CommandEnds(cmd, k) {
      if k <= n {
        assert k <= p < |cmd|;
      } else {
        assert n < k && (CommandEnds(cmd, k) ==> Printable(cmd[n]));
      }
    }
  }

  class Node {
    const net: Net

    /* the receiving side */
    const vRecv: DataStream
    ghost var arrived: seq<byte>
    var delivered: seq<Message>

    /* the sending side */
    const vSend: DataStream
    var nHeaderStart: int
    var nMessageStart: int
    ghost var draft: Message

    constructor (net: Net)
      ensures this.net == net && RecvValid() && SendValid() && fresh(vRecv) && fresh(vSend) && vRecv != vSend
      ensures arrived == [] && delivered == [] && vRecv.Contents() == [] && vSend.Contents() == [] && nHeaderStart == -1
    {
      this.net := net;
      arrived, delivered := [], [];
      nHeaderStart, nMessageStart := -1, -1;
      draft := Message([], []);
      var r := new DataStream();
      var s := new DataStream();
      vRecv, vSend := r, s;
      new;
      EmptyRun(net);
    }

    /** What all the bytes that ever arrived deliver in one pass is what has been delivered and what the
        buffer still delivers. */
    ghost predicate RecvValid()
      reads this, vRecv
    {
      vRecv.Valid() && Run(net, arrived) == After(delivered, Run(net, vRecv.Contents()))
    }

    /** Nothing in the buffer can be delivered yet. */
    ghost predicate Settled()
      requires vRecv.Valid()
      reads this, vRecv
    {
      Run(net, vRecv.Contents()) == Pass([], vRecv.Contents())
    }

    /** Bytes arrive. */
    method Receive(data: seq<byte>)
      requires RecvValid()
      modifies this`arrived, vRecv
      ensures RecvValid() && arrived == old(arrived) + data && vRecv.Contents() == old(vRecv.Contents()) + data
    {
      ArriveLater(net, arrived, delivered, vRecv.Contents(), data);
      arrived := arrived + data;
      vRecv.Write(data);
    }

    /** Takes messages out of the receive buffer, one after the other, until there is none, or the send
        buffer is full, or the program shuts down; both may depend on the messages taken out so far. What
        else the messages make the program do is left out. */
    method ProcessMessages(sendFull: seq<Message> -> bool, shutdown: seq<Message> -> bool) returns (stopped: bool)
      requires RecvValid()
      modifies this`delivered, vRecv
      ensures RecvValid() && old(delivered) <= delivered && HeldIn(net, delivered, arrived)
      ensures stopped ==> sendFull(delivered) || shutdown(delivered)
      ensures !stopped ==>
        Settled() && delivered == Run(net, arrived).msgs && vRecv.Contents() == Run(net, arrived).rest
    {
      hide Step, Run, HeldIn;
      stopped := false;
      var empty := vRecv.Empty();
      if empty {
        EmptyRun(net);
        assert delivered + [] == delivered;
        DeliveredHeld(net, arrived, delivered, vRecv.Contents());
        return;
      }
      while true
        invariant RecvValid() && !stopped && old(delivered) <= delivered && arrived == old(arrived)
        decreases |vRecv.Contents()|
      {
        if sendFull(delivered) {
          stopped := true;
          break;
        }
        ghost var buf := vRecv.Contents();
        var o := TakeStep();
        StepRun(net, buf);
        match o
        case Wait(_) =>
          assert delivered + [] == delivered;
          break;
        case Drop(_) =>
        case Deliver(msg, _) =>
          DeliverOne(delivered, msg, Run(net, vRecv.Contents()));
          delivered := delivered + [msg];
          if shutdown(delivered) {
            DeliveredHeld(net, arrived, delivered, vRecv.Contents());
            return true;
          }
      }
      vRecv.Compact();
      DeliveredHeld(net, arrived, delivered, vRecv.Contents());
    }

    /** One turn of the loop over the receive buffer. */
    method TakeStep() returns (o: Outcome)
      requires vRecv.Valid()
      modifies vRecv
      ensures vRecv.Valid() && o == Step(net, old(vRecv.Contents())) && vRecv.Contents() == o.rest
      ensures o.Deliver? ==>
        Sendable(o.msg) && FrameAt(net, o.msg, old(vRecv.Contents()), Find(net, old(vRecv.Contents())))
    {
      hide Frame;
      ghost var buf := vRecv.Contents();
      if Step(net, buf).Deliver? { DeliveredStands(net, buf); }
      var size := vRecv.Size();
      var pstart := Find(net, vRecv.Contents());
      if size - pstart < HEADER_SIZE {
        if size > HEADER_SIZE {
          vRecv.Erase(0, size - HEADER_SIZE);
        }
        return Wait(vRecv.Contents());
      }
      vRecv.Erase(0, pstart);
      assert vRecv.Contents() == buf[pstart..];
      var vHeaderSave := vRecv.Contents()[..HEADER_SIZE];
      var _, hdrBytes := vRecv.Read(HEADER_SIZE);
      var hdr := ReadHeader(hdrBytes);
      ghost var data := vRecv.Contents();
      assert data == buf[pstart..][HEADER_SIZE..];
      var valid := IsValid(net, hdr);
      if !valid { return Drop(vRecv.Contents()); }
      var strCommand := GetCommand(hdr.command);
      var nMessageSize := hdr.nMessageSize;
      var rest := vRecv.Size();
      if nMessageSize > rest {
        vRecv.Insert(0, vHeaderSave);
        assert vRecv.Contents() == buf[pstart..];
        return Wait(vRecv.Contents());
      }
      var nChecksum := net.Checksum(vRecv.Contents()[..nMessageSize]);
      if nChecksum != hdr.nChecksum { return Drop(vRecv.Contents()); }
      var vMsg := vRecv.Contents()[..nMessageSize];
      var _ := vRecv.Ignore(nMessageSize);
      return Deliver(Message(strCommand, vMsg), vRecv.Contents());
    }

    /* ---- sending ---- */

    /** The header of an unfinished message, its size and checksum still zero. */
    ghost function DraftHeader(): seq<byte>
      reads this
    {
      HeaderBytes(Header(net.start, Padded(draft.command), 0, 0))
    }

    /** Between BeginMessage and EndMessage the send buffer ends with the unfinished message. */
    ghost predicate SendValid()
      reads this, vSend
    {
      && vSend.Valid()
      && (nHeaderStart == -1 ==> nMessageStart == -1)
      && (nHeaderStart != -1 ==>
            && 0 <= nHeaderStart <= |vSend.Contents()| && nMessageStart == nHeaderStart + HEADER_SIZE
            && vSend.Contents()[nHeaderStart..] == DraftHeader() + draft.payload)
    }

    /** What has been sent for good. */
    ghost function Sent(): seq<byte>
      requires SendValid()
      reads this, vSend
    {
      if nHeaderStart == -1 then vSend.Contents() else vSend.Contents()[..nHeaderStart]
    }

    /** Begins a message; one that was begun before and not ended is given up. */
    method BeginMessage(command: seq<byte>)
      requires SendValid()
      modifies this`nHeaderStart, this`nMessageStart, this`draft, vSend
      ensures SendValid() && nHeaderStart != -1 && draft == Message(command, []) && Sent() == old(Sent())
    {
      if nHeaderStart != -1 { AbortMessage(); }
      nHeaderStart := vSend.Size();
      vSend.Write(HeaderBytes(Header(net.start, Padded(command), 0, 0)));
      nMessageStart := vSend.Size();
      draft := Message(command, []);
    }

    method AbortMessage()
      requires SendValid()
      modifies this`nHeaderStart, this`nMessageStart, vSend
      ensures SendValid() && nHeaderStart == -1 && vSend.Contents() == old(Sent())
    {
      if nHeaderStart < 0 { return; }
      vSend.Resize(nHeaderStart);
      nHeaderStart, nMessageStart := -1, -1;
    }

    /** Adds bytes to the message begun. */
    method Push(data: seq<byte>)
      requires SendValid() && nHeaderStart != -1
      modifies this`draft, vSend
      ensures SendValid() && draft == Message(old(draft.command), old(draft.payload) + data) && Sent() == old(Sent())
    {
      vSend.Write(data);
      draft := draft.(payload := draft.payload + data);
    }

    /** Fills in the size and the checksum of the message begun: the frame is complete. */
    method EndMessage()
      requires SendValid()
      modifies this`nHeaderStart, this`nMessageStart, vSend
      ensures SendValid() && nHeaderStart == -1
      ensures vSend.Contents() == if old(nHeaderStart) == -1 then old(Sent()) else old(Sent()) + Frame(net, old(draft))
    {
      if nHeaderStart < 0 { return; }
      ghost var pre, m := Sent(), draft;
      assert vSend.Contents() == pre + (DraftHeader() + m.payload);
      assert |DraftHeader()| == HEADER_SIZE;
      hide HeaderBytes, Padded, UintBytes;
      var size := vSend.Size();
      var payload := vSend.Contents()[nMessageStart..];
      assert payload == m.payload;
      var nSize := (size - nMessageStart) % UINT_LIMIT;
      vSend.Patch(nHeaderStart + MESSAGE_SIZE_OFFSET, UintBytes(nSize));
      var nChecksum := net.Checksum(payload);
      vSend.Patch(nHeaderStart + CHECKSUM_OFFSET, UintBytes(nChecksum));
      Completed(net, m, pre);
      nHeaderStart, nMessageStart := -1, -1;
    }
  }

  function Patched(s: seq<byte>, i: nat, data: seq<byte>): seq<byte>
    requires i + |data| <= |s|
  {
    s[..i] + data + s[i + |data|..]
  }

  /** Writing the size and the checksum over the zeros completes the frame. */
  lemma Completed(net: Net, m: Message, pre: seq<byte>)
    ensures var s := pre + (HeaderBytes(Header(net.start, Padded(m.command), 0, 0)) + m.payload);
      var t := Patched(s, |pre| + MESSAGE_SIZE_OFFSET, UintBytes(|m.payload| % UINT_LIMIT));
      Patched(t, |pre| + CHECKSUM_OFFSET, UintBytes(net.Checksum(m.payload))) == pre + Frame(net, m)
  {
    hide Patched, HeaderBytes, Padded, UintBytes;
    var head, z := net.start + Padded(m.command), UintBytes(0);
    var n, c := UintBytes(|m.payload| % UINT_LIMIT), UintBytes(net.Checksum(m.payload));
    HeaderIs(net, m.command, 0, 0);
    HeaderIs(net, m.command, |m.payload| % UINT_LIMIT, net.Checksum(m.payload));
    Overwrite(pre + head, z, n, z + m.payload);
    Overwrite(pre + head + n, z, c, m.payload);
    assert pre + ((head + z + z) + m.payload) == (pre + head) + z + (z + m.payload);
    assert (pre + head) + n + (z + m.payload) == (pre + head + n) + z + m.payload;
    assert (pre + head + n) + c + m.payload == pre + ((head + n + c) + m.payload);
  }

  lemma HeaderIs(net: Net, command: seq<byte>, nSize: nat, nChecksum: nat)
    requires nSize < UINT_LIMIT && nChecksum < UINT_LIMIT
    ensures HeaderBytes(Header(net.start, Padded(command), nSize, nChecksum)) ==
      net.start + Padded(command) + UintBytes(nSize) + UintBytes(nChecksum)
  {
  }

  lemma Overwrite(a: seq<byte>, old_: seq<byte>, new_: seq<byte>, b: seq<byte>)
    requires |old_| == |new_|
    ensures Patched(a + old_ + b, |a|, new_) == a + new_ + b
  {
  }

  lemma EmptyRun(net: Net)
    ensures Run(net, []) == Pass([], []) && After([], Run(net, [])) == Pass([], [])
  {
    EmptyWaits(net);
  }

  lemma ArriveLater(net: Net, arrived: seq<byte>, delivered: seq<Message>, buf: seq<byte>, data: seq<byte>)
    requires Run(net, arrived) == After(delivered, Run(net, buf))
    ensures Run(net, arrived + data) == After(delivered, Run(net, buf + data))
  {
    hide Run, Step;
    RunExtend(net, arrived, data);
    RunExtend(net, buf, data);
    var more := Run(net, Run(net, buf).rest + data);
    assert (delivered + Run(net, buf).msgs) + more.msgs == delivered + (Run(net, buf).msgs + more.msgs);
  }

  /** The messages delivered so far were among the bytes that arrived, whole and with their checksums right. */
  lemma DeliveredHeld(net: Net, arrived: seq<byte>, delivered: seq<Message>, buf: seq<byte>)
    requires Run(net, arrived) == After(delivered, Run(net, buf))
    ensures HeldIn(net, delivered, arrived)
  {
    hide Run, HeldIn;
    RunHeld(net, arrived);
    HeldPrefix(net, Run(net, arrived).msgs, arrived, |delivered|);
    assert Run(net, arrived).msgs[..|delivered|] == delivered;
  }

  /** A step leaves behind what the rest of the pass starts from. */
  lemma StepRun(net: Net, buf: seq<byte>)
    ensures match Step(net, buf)
      case Wait(rest) => Run(net, buf) == Pass([], rest) && Run(net, rest) == Pass([], rest)
      case Drop(rest) => Run(net, buf) == Run(net, rest)
      case Deliver(msg, rest) => Run(net, buf) == After([msg], Run(net, rest))
  {
    hide Step;
    if Step(net, buf).Wait? { RunSettles(net, buf); }
  }

  lemma DeliverOne(delivered: seq<Message>, msg: Message, p: Pass)
    ensures After(delivered, After([msg], p)) == After(delivered + [msg], p)
  {
    assert delivered + ([msg] + p.msgs) == (delivered + [msg]) + p.msgs;
  }

  /** Frames written into one node's send buffer and carried to another's receive buffer, in any pieces,
      are delivered there in order. */
  lemma FramesArrive(net: Net, ms: seq<Message>, pieces: seq<seq<byte>>)
    requires (forall i :: 0 <= i < |ms| ==> Sendable(ms[i])) && Joined(pieces) == Frames(net, ms)
    ensures RunPieces(net, pieces) == Pass(ms, [])
  {
    ChunkingIndependence(net, pieces);
    FramesDelivered(net, ms);
  }
}
