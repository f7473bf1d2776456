/** Two nodes and what lies between them: messages put into the send buffer of the one are taken out of the
    receive buffer of the other. */
module NetTransfer {
  import opened Wire
  import opened NetNode

  /** One turn: the sender writes its next message, the network carries up to a number of bytes, or the receiver
      processes what it has. */
  datatype Turn = Write | Carry(n: nat) | Process

  /** Both nodes are in order, between two messages, and share nothing. */
  ghost predicate Ready(from: Node, to: Node)
    reads from, to, from.vSend, to.vRecv
  {
    && from != to && from.vSend != to.vRecv && from.net == to.net
    && from.SendValid() && from.nHeaderStart == -1 && to.RecvValid()
  }

  /** The first n messages have been written; their frames have arrived or wait in the send buffer. */
  ghost predicate OnTheWay(from: Node, to: Node, ms: seq<Message>, n: int)
    reads from, to, from.vSend, to.vRecv
  {
    Ready(from, to) && 0 <= n <= |ms| && to.arrived + from.vSend.Contents() == Frames(from.net, ms[..n])
  }

  lemma NoFrames(net: Net, ms: seq<Message>)
    ensures Frames(net, ms[..0]) == []
  {
  }

  lemma {:induction false} FramesMore(net: Net, ms: seq<Message>, m: Message)
    ensures Frames(net, ms + [m]) == Frames(net, ms) + Frame(net, m)
  {
    hide Frame;
    if ms == [] {
      assert ms + [m] == [m] && [m][1..] == [];
      assert Frames(net, []) == [];
    } else {
      assert (ms + [m])[1..] == ms[1..] + [m];
      FramesMore(net, ms[1..], m);
    }
  }

  /** Writes a message: it is begun, its payload added in pieces of any size, and ended. */
  method WriteMessage(from: Node, m: Message)
    requires from.SendValid()
    modifies from, from.vSend
    ensures from.SendValid() && from.nHeaderStart == -1
    ensures from.vSend.Contents() == old(from.Sent()) + Frame(from.net, m)
    ensures from.arrived == old(from.arrived) && from.delivered == old(from.delivered)
  {
    hide Frame;
    from.BeginMessage(m.command);
    var done := 0;
    while done < |m.payload|
      invariant 0 <= done <= |m.payload| && from.SendValid() && from.nHeaderStart != -1
      invariant from.draft == Message(m.command, m.payload[..done]) && from.Sent() == old(from.Sent())
      invariant from.arrived == old(from.arrived) && from.delivered == old(from.delivered)
    {
      var more: nat :| done < more <= |m.payload|;
      from.Push(m.payload[done..more]);
      assert m.payload[..done] + m.payload[done..more] == m.payload[..more];
      done := more;
    }
    assert m.payload[..done] == m.payload;
    from.EndMessage();
  }

  method WriteNext(from: Node, to: Node, ms: seq<Message>, n: nat)
    requires OnTheWay(from, to, ms, n) && n < |ms|
    modifies from, from.vSend
    ensures OnTheWay(from, to, ms, n + 1)
  {
    hide Frame, Frames, Run;
    FramesMore(from.net, ms[..n], ms[n]);
    assert ms[..n + 1] == ms[..n] + [ms[n]];
    ghost var was := from.vSend.Contents();
    WriteMessage(from, ms[n]);
    assert to.arrived + (was + Frame(from.net, ms[n])) == (to.arrived + was) + Frame(from.net, ms[n]);
  }

  /** The socket takes bytes off the front of the send buffer, as many as it can, and they arrive. */
  method CarryBytes(from: Node, to: Node, n: nat, ghost ms: seq<Message>, ghost written: nat)
    requires OnTheWay(from, to, ms, written)
    modifies from.vSend, to`arrived, to.vRecv
    ensures OnTheWay(from, to, ms, written)
    ensures n >= old(|from.vSend.Contents()|) ==> from.vSend.Contents() == []
  {
    hide Frames, Run;
    ghost var all := from.vSend.Contents();
    var size := from.vSend.Size();
    var nBytes := if n < size then n else size;
    var data := from.vSend.Contents()[..nBytes];
    from.vSend.Erase(0, nBytes);
    assert all == data + from.vSend.Contents();
    ghost var before := to.arrived;
    to.Receive(data);
    assert before + (data + from.vSend.Contents()) == (before + data) + from.vSend.Contents();
  }

  method ProcessSome(from: Node, to: Node, sendFull: seq<Message> -> bool, shutdown: seq<Message> -> bool,
      ghost ms: seq<Message>, ghost written: nat)
    returns (stopped: bool)
    requires OnTheWay(from, to, ms, written)
    modifies to`delivered, to.vRecv
    ensures OnTheWay(from, to, ms, written) && to.arrived == old(to.arrived)
    ensures from.vSend.Contents() == old(from.vSend.Contents())
    ensures stopped ==> sendFull(to.delivered) || shutdown(to.delivered)
    ensures !stopped ==>
      to.delivered == Run(to.net, to.arrived).msgs && to.vRecv.Contents() == Run(to.net, to.arrived).rest
  {
    hide Frames, Run;
    stopped := to.ProcessMessages(sendFull, shutdown);
  }

  /** Messages written by one node are delivered by the other, all of them, in order and unchanged, and nothing is left
      over; however their payloads are put together, however the writing, the carrying and the processing take turns,
      and however the bytes are cut up. If the receiver stops, what it has delivered are the first of them. */
  method Transfer(net: Net, ms: seq<Message>, turns: seq<Turn>, sendFull: seq<Message> -> bool,
      shutdown: seq<Message> -> bool)
    returns (from: Node, to: Node, stopped: bool)
    requires forall i :: 0 <= i < |ms| ==> Sendable(ms[i])
    ensures Ready(from, to) && to.delivered <= ms && (stopped ==> sendFull(to.delivered) || shutdown(to.delivered))
    ensures !stopped ==> to.delivered == ms && to.vRecv.Contents() == [] && from.vSend.Contents() == []
  {
    hide Frames, Run;
    from := new Node(net);
    to := new Node(net);
    NoFrames(net, ms);
    var written, i := 0, 0;
    while i < |turns|
      invariant 0 <= i <= |turns| && OnTheWay(from, to, ms, written)
      invariant from.net == net && fresh(from) && fresh(to) && fresh(from.vSend) && fresh(to.vRecv)
    {
      match turns[i] {
        case Write =>
          if written < |ms| {
            WriteNext(from, to, ms, written);
            written := written + 1;
          }
        case Carry(n) => CarryBytes(from, to, n, ms, written);
        case Process => var _ := ProcessSome(from, to, sendFull, shutdown, ms, written);
      }
      i := i + 1;
    }
    while written < |ms|
      invariant OnTheWay(from, to, ms, written)
      invariant from.net == net && fresh(from) && fresh(to) && fresh(from.vSend) && fresh(to.vRecv)
    {
      WriteNext(from, to, ms, written);
      written := written + 1;
    }
    var size := from.vSend.Size();
    CarryBytes(from, to, size, ms, written);
    assert ms[..written] == ms;
    FramesDelivered(net, ms);
    stopped := ProcessSome(from, to, sendFull, shutdown, ms, written);
    assert to.arrived == Frames(net, ms);
  }
}
