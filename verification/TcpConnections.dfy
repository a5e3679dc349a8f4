/** The connection of src/state/connection/mod.rs over a network that moves
    bytes in any portions. `Pending` is the result of a future that was dropped
    while it waited for the network. */
module TcpConnections {
  import opened Mqtt
  import opened Seqs
  import opened PidPools
  import opened StackBuffers
  import opened Codecs
  import opened Networks

  datatype ConnectionStateValue = ConnectSent | Connected | Disconnected | Error

  /** A topic that is subscribed to after connecting. */
  datatype AutoSubscribe = AutoSubscribe(topic: string, qos: QoS)

  /** The most topics of one automatic SUBSCRIBE. */
  const CHUNK_SIZE := 5

  /** The topics in the groups that are subscribed to with one packet each. */
  function Chunks(topics: seq<AutoSubscribe>): seq<seq<AutoSubscribe>> {
    if topics == [] then [] else
    var n := Min(CHUNK_SIZE, |topics|);
    [topics[..n]] + Chunks(topics[n..])
  }

  function ChunkPacket(pid: Pid, chunk: seq<AutoSubscribe>): Packet {
    Subscribe(pid, seq(|chunk|, i requires 0 <= i < |chunk| => SubscribeTopic(chunk[i].topic, chunk[i].qos)))
  }

  function Identity(chunk: seq<AutoSubscribe>): seq<AutoSubscribe> { chunk }

  /** The groups joined are the topics, in order; each has one to five of them,
      and all but the last have five. */
  lemma {:induction false} ChunksCover(topics: seq<AutoSubscribe>)
    ensures FlatMap(Identity, Chunks(topics)) == topics
    ensures forall c :: c in Chunks(topics) ==> 1 <= |c| <= 5
    ensures forall i :: 0 <= i < |Chunks(topics)| - 1 ==> |Chunks(topics)[i]| == 5
    decreases |topics|
  {
    if topics != [] {
      var n := Min(CHUNK_SIZE, |topics|);
      ChunksCover(topics[n..]);
      assert topics == topics[..n] + topics[n..];
      assert Chunks(topics)[1..] == Chunks(topics[n..]);
    }
  }

  /** The SUBSCRIBE of a chunk asks for each of its topics with its own class. */
  lemma ChunkPacketAsks(pid: Pid, chunk: seq<AutoSubscribe>)
    ensures var p := ChunkPacket(pid, chunk);
      && p.Subscribe? && p.pid == pid && |p.subscriptions| == |chunk|
      && forall i :: 0 <= i < |chunk| ==> p.subscriptions[i].path == chunk[i].topic && p.subscriptions[i].qos == chunk[i].qos
  {
  }

  /** process_suback: a failure among the codes that belong to a topic. */
  predicate Refused(codes: seq<ReturnCode>, chunk: seq<AutoSubscribe>) {
    exists i :: 0 <= i < |codes| && i < |chunk| && codes[i] == Failure
  }

  /** What the packet that follows a chunk's SUBSCRIBE leads to. */
  function ChunkResult(reply: Packet, chunk: seq<AutoSubscribe>): (r: Outcome<()>)
    ensures r.Ok? <==> reply.Suback? && !Refused(reply.codes, chunk)
    ensures r.Ok? || r.Err?
  {
    if !reply.Suback? then Err(ConnackError)
    else if Refused(reply.codes, chunk) then Err(SubscribeOrUnsubscribeFailed)
    else Ok(())
  }

  /** A SUBACK with the identifier of some other request does as well. */
  lemma ForeignSubackIsTaken(chunk: seq<AutoSubscribe>, own: Pid, foreign: Pid, codes: seq<ReturnCode>)
    ensures ChunkResult(Suback(foreign, codes), chunk) == ChunkResult(Suback(own, codes), chunk)
    ensures (forall i :: 0 <= i < |codes| ==> codes[i] != Failure) ==> ChunkResult(Suback(foreign, codes), chunk) == Ok(())
  {
  }

  /** A chunk was asked for, and the next packet after that was a SUBACK that
      refuses none of its topics; its identifier does not matter. */
  ghost predicate Confirmed(chunk: seq<AutoSubscribe>, request: Packet, reply: Packet) {
    && request.Subscribe? && request == ChunkPacket(request.pid, chunk)
    && reply.Suback? && !Refused(reply.codes, chunk)
  }

  /** The result of encoding into the writeable slice of the send buffer. */
  datatype Encoded = Written | WriteZero | NotEncodable

  /** A received packet whose bytes are consumed when it is dropped. */
  datatype MappedPacket = MappedPacket(packet: Packet, bytesRead: nat)

  /** What the first packet of the broker decides. */
  predicate Decided(first: Packet, r: Outcome<()>, state: Option<ConnectionStateValue>) {
    match first
    case Connack(ConnectionAccepted) => state == Some(if r.Ok? then Connected else ConnectSent)
    case Connack(ConnectionRefused) => r == Err(ConnackError) && state == Some(Error)
    case Connack(BadCredentials) => r == Err(AuthenticationError) && state == Some(Error)
    case _ => r == Err(ConnackError) && state == Some(ConnectSent)
  }

  /** The outcome of an operation that sends or receives nothing else. */
  predicate Plain<T>(r: Outcome<T>) {
    r.Ok? || r.Pending? || r == Err(ConnectionFailed)
  }

  /** The pool after so many calls of next_pid. */
  function TakenTimes(p: Pool, n: nat): Option<Pool> {
    if n == 0 then Some(p)
    else
      var q := TakenTimes(p, n - 1);
      if q.None? || Issued(q.value).None? then None else Some(Taken(q.value))
  }

  class TcpConnection {
    const codec: Codec
    const network: Network
    const sendBuffer: StackBufferCell
    const recvBuffer: StackBufferCell
    const autoSubscribes: seq<AutoSubscribe>

    /** The longest topic that fits into a SUBSCRIBE packet. */
    const wireTopicSize: nat
    var state: Option<ConnectionStateValue>
    var connection: bool

    /** Since the last call of Connect: the packets put into the send buffer and
        the received packets that were handled and dropped. */
    ghost var accepted: seq<Packet>
    ghost var returned: seq<Packet>

    ghost function SendSide(): set<object> {
      {sendBuffer, sendBuffer.buffer, sendBuffer.buffer.data}
    }

    ghost function RecvSide(): set<object> {
      {recvBuffer, recvBuffer.buffer, recvBuffer.buffer.data}
    }

    ghost function Repr(): set<object> {
      {this, network} + SendSide() + RecvSide()
    }

    ghost predicate Shape()
      reads sendBuffer.buffer, recvBuffer.buffer
    {
      && sendBuffer != recvBuffer
      && sendBuffer.buffer != recvBuffer.buffer
      && sendBuffer.buffer.data != recvBuffer.buffer.data
      && sendBuffer.buffer.Valid()
      && recvBuffer.buffer.Valid()
    }

    ghost function Out(): Fifo
      reads sendBuffer.buffer, sendBuffer.buffer.data
      requires sendBuffer.buffer.Valid()
    {
      sendBuffer.buffer.View()
    }

    ghost function In(): Fifo
      reads recvBuffer.buffer, recvBuffer.buffer.data
      requires recvBuffer.buffer.Valid()
    {
      recvBuffer.buffer.View()
    }

    /** Everything that was ever put into the send buffer: what the network took,
        then what still waits. */
    ghost function Stream(): seq<Byte>
      reads network`sent, sendBuffer.buffer, sendBuffer.buffer.data
      requires sendBuffer.buffer.Valid()
    {
      network.sent + Out().bytes
    }

    /** Replies that are enough to write what waits, with a flush and a look for input
        each time, and to read what the broker has sent. */
    ghost function Work(): nat
      reads network`incoming, sendBuffer.buffer, sendBuffer.buffer.data
      requires sendBuffer.buffer.Valid()
    {
      3 * |Out().bytes| + |network.incoming|
    }

    /** Wire framing: what the network took and what still waits in the buffer
        are the encodings of the accepted packets, in order. */
    ghost predicate Framed()
      reads this`accepted, network`sent, network`flushed, sendBuffer.buffer, sendBuffer.buffer.data
      requires sendBuffer.buffer.Valid()
    {
      && network.sent + Out().bytes == Frames(codec, accepted)
      && network.flushed <= |network.sent|
    }

    ghost predicate Chunked()
      reads this`returned, network`received, recvBuffer.buffer, recvBuffer.buffer.data
      requires recvBuffer.buffer.Valid()
    {
      && PrefixCode(codec.decode)
      && Explained(codec.decode, network.received, In().bytes, returned)
    }

    ghost predicate Valid()
      reads Repr()
    {
      Shape() && Framed() && Chunked() && (state == Some(Connected) ==> connection)
    }

    /** From these places on, one SUBSCRIBE was accepted for every chunk and one SUBACK
        returned that confirms it. */
    ghost predicate AllConfirmed(first: nat, reply: nat)
      reads this`accepted, this`returned
    {
      var chunks := Chunks(autoSubscribes);
      && first + |chunks| <= |accepted| && reply + |chunks| <= |returned|
      && forall i :: 0 <= i < |chunks| ==> Confirmed(chunks[i], accepted[first + i], returned[reply + i])
    }

    /** Why reading a packet failed other than by the network: what is in the receive
        buffer cannot be decoded, or fills it without being a packet. */
    ghost predicate Unreadable(e: MqttError)
      reads recvBuffer.buffer, recvBuffer.buffer.data
      requires recvBuffer.buffer.Valid()
    {
      || (e == CodecError && codec.decode(In().bytes).Malformed?)
      || (e == BufferTooSmall && codec.decode(In().bytes).Incomplete? && |In().bytes| == In().cap)
    }

    /** Why the CONNECT packet was not written other than by the network: it cannot be
        encoded, or does not fit into the empty buffer. */
    ghost predicate Unwritable(e: MqttError, cap: nat)
    {
      || (e == CodecError && codec.encode(Packet.Connect).None?)
      || (e == BufferTooSmall && codec.encode(Packet.Connect).Some? && |codec.encode(Packet.Connect).value| > cap)
    }

    /** Nobody holds a buffer. */
    ghost predicate Idle()
      reads sendBuffer, recvBuffer
    {
      sendBuffer.borrows == 0 && recvBuffer.borrows == 0
    }

    constructor (codec: Codec, network: Network, n: nat, autoSubscribes: seq<AutoSubscribe>, wireTopicSize: nat)
      requires PrefixCode(codec.decode)
      requires network.sent == [] && network.received == [] && network.flushed == 0
      ensures Valid() && Idle() && fresh(Repr() - {network}) && this.network == network && this.codec == codec
      ensures state == None && !connection && accepted == [] && returned == []
      ensures sendBuffer.buffer.data.Length == n && recvBuffer.buffer.data.Length == n
    {
      this.codec, this.network := codec, network;
      this.autoSubscribes, this.wireTopicSize := autoSubscribes, wireTopicSize;
      sendBuffer := new StackBufferCell(n);
      recvBuffer := new StackBufferCell(n);
      state, connection := None, false;
      accepted, returned := [], [];
      new;
      hide Frames, Explained, PrefixCode;
      NothingFramed(codec);
    }

    /** Borrows a buffer; the panic of the cell is out of reach. */
    method Lend(cell: StackBufferCell)
      requires cell.borrows == 0
      modifies cell
      ensures cell.borrows == 1
    {
      var lent := cell.Borrow();
      assert lent == Ok(());
    }

    // ---- sending ----

    /** encode_slice on the writeable slice, committed when it succeeds. A failed
        attempt may leave anything behind in the slice. */
    method EncodeSlice(packet: Packet) returns (e: Encoded)
      requires sendBuffer.buffer.Valid()
      modifies sendBuffer.buffer.data, sendBuffer.buffer`writePosition
      ensures sendBuffer.buffer.Valid()
      ensures e == match codec.encode(packet)
                   case None => NotEncodable
                   case Some(b) => if |b| <= old(Out()).Room() then Written else WriteZero
      ensures Out() == if e.Written? then old(Out()).Appended(Encoding(codec)(packet)) else old(Out())
    {
      var room := sendBuffer.buffer.data.Length - sendBuffer.buffer.writePosition;
      var encoding := codec.encode(packet);
      if encoding.Some? && |encoding.value| <= room {
        sendBuffer.buffer.Append(encoding.value);
        e := Written;
      } else {
        var junk := codec.scribble(packet, room);
        sendBuffer.buffer.Fill(junk[..Min(|junk|, room)]);
        e := if encoding.Some? then WriteZero else NotEncodable;
      }
    }

    lemma FramedMeans()
      requires sendBuffer.buffer.Valid()
      ensures Framed() <==>
        network.sent + Out().bytes == Frames(codec, accepted) && network.flushed <= |network.sent|
    {
    }

    /** Moves the waiting bytes to the front. */
    method Compact()
      requires Valid()
      modifies sendBuffer.buffer, sendBuffer.buffer.data
      ensures Valid() && Out() == old(Out()).Flipped()
    {
      hide Framed, Chunked, Frames, StackBuffer.View, StackBuffer.Valid;
      FramedMeans();
      sendBuffer.buffer.Flip();
      FramedMeans();
    }

    /** Asks for the writeable slice. */
    method OpenSlice()
      requires Valid()
      modifies sendBuffer.buffer, sendBuffer.buffer.data
      ensures Valid() && Out() == old(Out()).Opened()
    {
      hide Framed, Chunked, Frames, StackBuffer.View, StackBuffer.Valid;
      FramedMeans();
      var start := sendBuffer.buffer.WriteableData();
      FramedMeans();
    }

    /** Encodes a packet into the slice and records it when it was written. */
    method EncodePacket(packet: Packet) returns (e: Encoded)
      requires Valid()
      modifies sendBuffer.buffer.data, sendBuffer.buffer`writePosition, this`accepted
      ensures Valid()
      ensures e == match codec.encode(packet)
                   case None => NotEncodable
                   case Some(b) => if |b| <= old(Out()).Room() then Written else WriteZero
      ensures Out() == if e.Written? then old(Out()).Appended(Encoding(codec)(packet)) else old(Out())
      ensures accepted == if e.Written? then old(accepted) + [packet] else old(accepted)
    {
      hide Framed, Chunked, Frames, Encoding, StackBuffer.View, StackBuffer.Valid;
      FramedMeans();
      e := EncodeSlice(packet);
      if e.Written? {
        accepted := accepted + [packet];
        FramesSnoc(codec, old(accepted), packet, network.sent, old(Out()).bytes);
      }
      FramedMeans();
    }

    /** The inherent try_write_packet: compacts first, and reports a packet that
        does not even fit into the empty buffer. */
    method TryWriteCompacting(packet: Packet) returns (r: Outcome<bool>)
      requires Valid() && sendBuffer.borrows == 0
      modifies SendSide(), this`accepted
      ensures Valid() && sendBuffer.borrows == 0
      ensures match codec.encode(packet)
              case None => r == Err(CodecError)
              case Some(b) => r == if |old(Out()).bytes| + |b| <= Out().cap then Ok(true)
                                   else if old(Out()).bytes == [] then Err(BufferTooSmall)
                                   else Ok(false)
      ensures Out() == old(Out()).Flipped().Appended(if r == Ok(true) then Encoding(codec)(packet) else [])
      ensures accepted == if r == Ok(true) then old(accepted) + [packet] else old(accepted)
    {
      hide Framed, Chunked, Encoding, StackBuffer.View, StackBuffer.Valid;
      Lend(sendBuffer);
      Compact();
      OpenSlice();
      var e := EncodePacket(packet);
      match e {
        case Written => r := Ok(true);
        case WriteZero =>
          var empty := sendBuffer.buffer.IsMaxCapacity();
          r := if empty then Err(BufferTooSmall) else Ok(false);
        case NotEncodable => r := Err(CodecError);
      }
      sendBuffer.Release();
    }

    /** The try_write_packet of the ConnectionState trait: compacts only a buffer
        that is written to its end, and never reports a packet as too big. */
    method TryWritePacket(packet: Packet) returns (r: Outcome<bool>)
      requires Valid() && sendBuffer.borrows == 0
      modifies SendSide(), this`accepted
      ensures Valid() && sendBuffer.borrows == 0
      ensures match codec.encode(packet)
              case None => r == Err(CodecError)
              case Some(b) => r == Ok(|b| <= old(Out()).Opened().Room())
      ensures Out() == old(Out()).Opened().Appended(if r == Ok(true) then Encoding(codec)(packet) else [])
      ensures accepted == if r == Ok(true) then old(accepted) + [packet] else old(accepted)
    {
      hide Framed, Chunked, Encoding, StackBuffer.View, StackBuffer.Valid;
      Lend(sendBuffer);
      OpenSlice();
      var e := EncodePacket(packet);
      match e {
        case Written => r := Ok(true);
        case WriteZero => r := Ok(false);
        case NotEncodable => r := Err(CodecError);
      }
      sendBuffer.Release();
    }

    /** One write of what is readable; the network may take any part of it. */
    method WriteSome() returns (r: Outcome<()>)
      requires Valid() && sendBuffer.borrows == 1
      modifies sendBuffer.buffer`readPosition, network`step, network`sent
      ensures Valid()
      ensures match old(network.Reply())
              case Failed => r == Err(ConnectionFailed) && Out() == old(Out())
              case Stalled => r == Pending && Out() == old(Out())
              case Moved(n) => r.Ok? && Out() == old(Out()).Consumed(Min(n, |old(Out()).bytes|))
      ensures Stream() == old(Stream())
      ensures network.step == old(network.step) + 1
      ensures old(network.Cooperative()) && old(network.Left()) >= 1 ==>
        network.Cooperative() && (old(Out()).bytes != [] ==> |Out().bytes| < |old(Out()).bytes|)
      ensures network.Explains(old(network.step), r)
    {
      hide Framed, Chunked, Frames, Encoding, StackBuffer.View, StackBuffer.Valid;
      FramedMeans();
      var readable := sendBuffer.buffer.ReadableData();
      var written := network.Write(readable);
      match written {
        case Ok(n) =>
          var ok := sendBuffer.buffer.AddBytesRead(n);
          assert ok;
          r := Ok(());
          MovedBytes(old(network.sent), readable, n);
        case Err(e) => r := Err(e);
        case Pending => r := Pending;
      }
      FramedMeans();
    }

    /** One write, and a flush of what was taken. */
    method WriteFlushed() returns (r: Outcome<()>)
      requires Valid() && sendBuffer.borrows == 1
      modifies sendBuffer.buffer`readPosition, network`step, network`sent, network`flushed
      ensures Valid()
      ensures Plain(r)
      ensures r.Ok? ==>
        && old(network.Left()) >= 2 && network.step == old(network.step) + 2
        && old(network.Reply()).Moved?
        && Out() == old(Out()).Consumed(Min(old(network.Reply()).n, |old(Out()).bytes|))
        && network.flushed == |network.sent|
      ensures old(network.Cooperative()) && old(network.Left()) >= 2 ==>
        r.Ok? && network.Cooperative() && (old(Out()).bytes != [] ==> |Out().bytes| < |old(Out()).bytes|)
      ensures Stream() == old(Stream())
      ensures network.Explains(old(network.step), r)
    {
      hide Framed, Chunked, Frames, Encoding, StackBuffer.View, StackBuffer.Valid, Stream, Fifo.Consumed;
      r := WriteSome();
      if r.Ok? {
        FramedMeans();
        r := network.Flush();
        FramedMeans();
      }
    }

    /** Writes once and flushes; returns at once if there is nothing to send. */
    method Send() returns (r: Outcome<()>)
      requires Valid() && sendBuffer.borrows == 0 && connection
      modifies sendBuffer, sendBuffer.buffer`readPosition, network`step, network`sent, network`flushed
      ensures Valid() && sendBuffer.borrows == 0
      ensures Plain(r)
      ensures old(Out()).bytes == [] ==> r.Ok? && Out() == old(Out()) && network.step == old(network.step)
      ensures old(Out()).bytes != [] && r.Ok? ==>
        && old(network.Left()) >= 2
        && network.step == old(network.step) + 2
        && old(network.Reply()).Moved?
        && Out() == old(Out()).Consumed(Min(old(network.Reply()).n, |old(Out()).bytes|))
        && network.flushed == |network.sent|
      ensures old(Out()).bytes != [] && old(network.Cooperative()) && old(network.Left()) >= 2 ==> r.Ok?
      ensures Stream() == old(Stream())
      ensures network.Explains(old(network.step), r)
    {
      hide Framed, Chunked, StackBuffer.View, StackBuffer.Valid, Stream, Fifo.Consumed;
      Lend(sendBuffer);
      var more := sendBuffer.buffer.HasRemainingLen();
      r := Ok(());
      if more {
        r := WriteFlushed();
      }
      sendBuffer.Release();
    }

    /** Writes until the send buffer is empty. */
    method Drain() returns (r: Outcome<()>)
      requires Valid() && sendBuffer.borrows == 1
      modifies sendBuffer.buffer`readPosition, network`step, network`sent
      ensures Valid()
      ensures Plain(r)
      ensures r.Ok? ==> Out().bytes == []
      ensures Stream() == old(Stream())
      ensures old(network.Cooperative()) && old(network.Left()) > |old(Out()).bytes| ==>
        r.Ok? && network.Reply().Moved? && network.Cooperative()
        && network.Left() >= old(network.Left()) - |old(Out()).bytes|
      ensures network.Explains(old(network.step), r)
    {
      hide Framed, Chunked, StackBuffer.View, StackBuffer.Valid, Stream;
      var more := sendBuffer.buffer.HasRemainingLen();
      while more
        invariant Valid() && sendBuffer.borrows == 1
        invariant more == (Out().bytes != [])
        invariant Stream() == old(Stream())
        invariant old(network.Cooperative()) && old(network.Left()) > |old(Out()).bytes| ==>
            network.Cooperative() && network.Left() > |Out().bytes|
            && network.Left() - |Out().bytes| >= old(network.Left()) - |old(Out()).bytes|
        invariant network.step >= old(network.step)
        decreases network.Left()
      {
        r := WriteSome();
        if !r.Ok? {
          return;
        }
        more := sendBuffer.buffer.HasRemainingLen();
      }
      r := Ok(());
    }

    /** Writes until the send buffer is empty, then flushes. */
    method SendAll() returns (r: Outcome<()>)
      requires Valid() && sendBuffer.borrows == 0 && connection
      modifies sendBuffer, sendBuffer.buffer`readPosition, network`step, network`sent, network`flushed
      ensures Valid() && sendBuffer.borrows == 0
      ensures Plain(r)
      ensures r.Ok? ==> Out().bytes == [] && network.flushed == |network.sent|
      ensures Stream() == old(Stream())
      ensures old(network.Cooperative()) && old(network.Left()) > |old(Out()).bytes| ==>
        r.Ok? && network.Cooperative() && network.Left() >= old(network.Left()) - |old(Out()).bytes| - 1
      ensures network.Explains(old(network.step), r)
    {
      hide Chunked, Frames, Encoding, StackBuffer.View, StackBuffer.Valid, Stream;
      Lend(sendBuffer);
      r := Drain();
      if r.Ok? {
        r := network.Flush();
      }
      sendBuffer.Release();
    }

    /** Waits until the packet fits into the send buffer. With a network that
        keeps moving bytes it succeeds exactly when the packet fits into the
        empty buffer, and reports BufferTooSmall exactly when it does not. */
    method WritePacketAsync(packet: Packet) returns (r: Outcome<()>)
      requires Valid() && sendBuffer.borrows == 0 && connection
      modifies SendSide(), network`step, network`sent, network`flushed, this`accepted
      ensures Valid() && sendBuffer.borrows == 0
      ensures accepted == if r.Ok? then old(accepted) + [packet] else old(accepted)
      ensures r.Ok? || r.Pending? || (r.Err? && r.error in {ConnectionFailed, CodecError, BufferTooSmall})
      ensures r.Ok? ==> codec.encode(packet).Some? && |codec.encode(packet).value| <= Out().cap
      ensures r == Err(CodecError) <==> codec.encode(packet).None?
      ensures r == Err(BufferTooSmall) ==> codec.encode(packet).Some? && |codec.encode(packet).value| > Out().cap
      ensures old(network.Cooperative()) && old(network.Left()) >= 2 * |old(Out()).bytes| ==>
        !r.Pending? && r != Err(ConnectionFailed)
      ensures network.Explains(old(network.step), r)
    {
      hide Chunked, Frames, Encoding, StackBuffer.View, StackBuffer.Valid, Stream;
      while true
        invariant Valid() && sendBuffer.borrows == 0 && accepted == old(accepted)
        invariant old(network.Cooperative()) && old(network.Left()) >= 2 * |old(Out()).bytes| ==>
            network.Cooperative() && network.Left() >= 2 * |Out().bytes|
        invariant network.step >= old(network.step)
        decreases network.Left()
      {
        var written := TryWriteCompacting(packet);
        match written {
          case Err(e) => return Err(e);
          case Ok(done) =>
            if done {
              return Ok(());
            }
        }
        assert Out().bytes != [];
        r := Send();
        if !r.Ok? {
          return;
        }
      }
    }

    // ---- receiving ----

    method TryReadPacket() returns (r: Outcome<Option<MappedPacket>>)
      requires Valid() && recvBuffer.borrows == 0
      modifies recvBuffer
      ensures Valid()
      ensures r == match codec.decode(In().bytes)
                   case Got(n, p) => Ok(Some(MappedPacket(p, n)))
                   case Malformed => Err(CodecError)
                   case Incomplete => if |In().bytes| == In().cap then Err(BufferTooSmall) else Ok(None)
      ensures recvBuffer.borrows == if r.Ok? && r.value.Some? then 1 else 0
    {
      hide Framed, PrefixCode, Explained, StackBuffer.View, StackBuffer.Valid;
      Lend(recvBuffer);
      var isMaxLen := recvBuffer.buffer.IsMaxLen();
      var readable := recvBuffer.buffer.ReadableData();
      match codec.decode(readable) {
        case Got(n, p) =>
          r := Ok(Some(MappedPacket(p, n)));
        case Malformed =>
          r := Err(CodecError);
          recvBuffer.Release();
        case Incomplete =>
          r := if isMaxLen then Err(BufferTooSmall) else Ok(None);
          recvBuffer.Release();
      }
    }

    /** Whether a packet that was handed out is still the front of the buffer. */
    ghost predicate Holds(m: MappedPacket)
      reads recvBuffer, recvBuffer.buffer, recvBuffer.buffer.data
      requires recvBuffer.buffer.Valid()
    {
      recvBuffer.borrows == 1 && codec.decode(In().bytes) == Got(m.bytesRead, m.packet)
    }

    method DropPacket(m: MappedPacket)
      requires Valid() && Holds(m)
      modifies recvBuffer, recvBuffer.buffer, this`returned
      ensures Valid() && recvBuffer.borrows == 0
      ensures returned == old(returned) + [m.packet]
      ensures m.bytesRead <= |old(In()).bytes| && In() == old(In()).Consumed(m.bytesRead)
    {
      hide Framed, Explained, StackBuffer.View, StackBuffer.Valid;
      ExplainedPacket(codec.decode, network.received, In().bytes, returned);
      recvBuffer.DropMapped(m.bytesRead);
      returned := returned + [m.packet];
    }

    /** Asks for room, reads into it and commits what was read. */
    method ReadInto(blocking: bool) returns (r: Outcome<seq<Byte>>)
      requires recvBuffer.buffer.Valid()
      modifies recvBuffer.buffer, recvBuffer.buffer.data
      modifies network`step, network`incoming, network`received, network`rooms
      ensures recvBuffer.buffer.Valid()
      ensures r.Ok? || r == Err(ConnectionFailed) || (blocking && r.Pending?)
      ensures var more := if r.Ok? then r.value else [];
              && old(network.incoming) == more + network.incoming
              && network.received == old(network.received) + more
              && In() == old(In()).Opened().Appended(more)
      ensures !r.Ok? ==> In().bytes == old(In()).bytes
      ensures network.rooms == old(network.rooms) + [old(In()).Opened().Room()]
      ensures network.step == old(network.step) + 1
      ensures blocking && old(network.Left()) <= 0 ==> r.Pending?
      ensures old(network.Cooperative()) && old(network.Left()) > 0 ==>
        r.Ok? && (old(network.incoming) != [] && old(In()).Opened().Room() > 0 ==> r.value != [])
      ensures network.Explains(old(network.step), r)
    {
      var start := recvBuffer.buffer.WriteableData();
      if blocking {
        r := network.Read(recvBuffer.buffer.data.Length - start);
      } else {
        r := network.TryRead(recvBuffer.buffer.data.Length - start);
      }
      if r.Ok? {
        recvBuffer.buffer.Append(r.value);
      }
    }

    /** The same with everything this connection keeps true. */
    method ReadSome(blocking: bool) returns (r: Outcome<seq<Byte>>)
      requires Valid() && recvBuffer.borrows == 1
      modifies recvBuffer.buffer, recvBuffer.buffer.data
      modifies network`step, network`incoming, network`received, network`rooms
      ensures Valid()
      ensures r.Ok? || r == Err(ConnectionFailed) || (blocking && r.Pending?)
      ensures var more := if r.Ok? then r.value else [];
              && old(network.incoming) == more + network.incoming
              && network.received == old(network.received) + more
              && In() == old(In()).Opened().Appended(more)
      ensures !r.Ok? ==> In().bytes == old(In()).bytes
      ensures network.rooms == old(network.rooms) + [old(In()).Opened().Room()]
      ensures network.step == old(network.step) + 1
      ensures blocking && old(network.Left()) <= 0 ==> r.Pending?
      ensures old(network.Cooperative()) && old(network.Left()) > 0 ==>
        r.Ok? && (old(network.incoming) != [] && old(In()).Opened().Room() > 0 ==> r.value != [])
      ensures network.Explains(old(network.step), r)
    {
      hide Framed, PrefixCode, Explained, StackBuffer.View, StackBuffer.Valid;
      ExplainedRead(codec.decode, network.received, In().bytes, returned, []);
      r := ReadInto(blocking);
      if r.Ok? {
        ExplainedRead(codec.decode, old(network.received), old(In()).bytes, returned, r.value);
      } else {
        assert In().bytes == old(In()).bytes;
      }
    }

    /** Waits for a packet. It never reads into an empty slice, and reports
        BufferTooSmall only for an incomplete packet in a full buffer. */
    method ReadPacket() returns (r: Outcome<MappedPacket>)
      requires Valid() && recvBuffer.borrows == 0 && connection
      modifies RecvSide(), network`step, network`incoming, network`received, network`rooms
      ensures Valid()
      ensures if r.Ok? then Holds(r.value) else recvBuffer.borrows == 0
      ensures match r
              case Ok(_) => true
              case Err(CodecError) => codec.decode(In().bytes).Malformed?
              case Err(BufferTooSmall) => codec.decode(In().bytes).Incomplete? && |In().bytes| == In().cap
              case Err(e) => e == ConnectionFailed
              case Pending => codec.decode(In().bytes).Incomplete?
              case Panic => false
      ensures NeverEmpty(old(network.rooms), network.rooms)
      ensures network.Explains(old(network.step), r)
      ensures old(network.Cooperative()) && old(network.Left()) > |old(network.incoming)| && r.Pending? ==>
        network.incoming == []
    {
      hide Framed, PrefixCode, Explained, StackBuffer.View, StackBuffer.Valid;
      while true
        invariant Valid() && recvBuffer.borrows == 0
        invariant NeverEmpty(old(network.rooms), network.rooms)
        invariant old(network.Cooperative()) && old(network.Left()) > |old(network.incoming)| ==>
            network.Cooperative() && (network.incoming == [] || network.Left() > |network.incoming|)
        invariant network.step >= old(network.step)
        decreases network.Left()
      {
        var packet := TryReadPacket();
        match packet {
          case Err(e) => return Err(e);
          case Ok(Some(m)) => return Ok(m);
          case Ok(None) =>
        }
        Lend(recvBuffer);
        var read := ReadSome(true);
        recvBuffer.Release();
        match read {
          case Ok(_) =>
          case Err(e) => return Err(e);
          case Pending => return Pending;
        }
      }
    }

    /** Writes and flushes once, then looks for input without waiting. */
    method Round() returns (r: Outcome<bool>)
      requires Valid() && sendBuffer.borrows == 1 && recvBuffer.borrows == 1 && In().start == 0
      modifies sendBuffer.buffer`readPosition, recvBuffer.buffer, recvBuffer.buffer.data
      modifies network`step, network`sent, network`flushed, network`incoming, network`received, network`rooms
      ensures Valid()
      ensures r.Ok? || r.Pending? || r == Err(ConnectionFailed)
      ensures r.Ok? ==> network.Left() < old(network.Left())
      ensures Stream() == old(Stream())
      ensures In().start == 0 && old(In()).bytes <= In().bytes
      ensures r.Ok? ==> r.value == (|In().bytes| > |old(In()).bytes|)
      ensures SameRoom(old(network.rooms), network.rooms, old(In()).Room())
      ensures |network.incoming| <= |old(network.incoming)|
      ensures network.Explains(old(network.step), r)
      ensures old(network.Cooperative()) && old(network.Left()) >= 3 ==>
        && r.Ok? && network.Cooperative() && network.Left() >= old(network.Left()) - 3
        && (old(Out()).bytes != [] ==> |Out().bytes| < |old(Out()).bytes|)
    {
      hide Framed, Chunked, StackBuffer.View, StackBuffer.Valid, Stream, Fifo.Consumed;
      var written := WriteFlushed();
      match written {
        case Ok(_) =>
        case Err(e) => return Err(e);
        case Pending => return Pending;
      }
      RoomsSelf(network.rooms, In().Room());
      RoomsSnoc(network.rooms, network.rooms, In().Room());
      var read := ReadSome(false);
      match read {
        case Ok(bytes) => r := Ok(|bytes| > 0);
        case Err(e) => r := Err(e);
      }
    }

    /** The loop of send_receive, with both buffers borrowed: ends with the first
        input, or with everything written. */
    method Rounds() returns (r: Outcome<bool>)
      requires Valid() && sendBuffer.borrows == 1 && recvBuffer.borrows == 1 && In().start == 0
      modifies sendBuffer.buffer`readPosition, recvBuffer.buffer, recvBuffer.buffer.data
      modifies network`step, network`sent, network`flushed, network`incoming, network`received, network`rooms
      ensures Valid()
      ensures r.Ok? || r.Pending? || r == Err(ConnectionFailed)
      ensures network.Left() <= old(network.Left()) && (r == Ok(true) ==> network.Left() < old(network.Left()))
      ensures Stream() == old(Stream())
      ensures In().start == 0 && (if r.Ok? && !r.value then In() == old(In()) && Out().bytes == []
                                  else |In().bytes| >= |old(In()).bytes|)
      ensures r == Ok(true) ==> |In().bytes| > |old(In()).bytes|
      ensures SameRoom(old(network.rooms), network.rooms, old(In()).Room())
      ensures |network.incoming| <= |old(network.incoming)|
      ensures old(network.Cooperative()) && old(network.Left()) > old(Work()) ==>
        r.Ok? && network.Cooperative() && network.Left() > Work()
      ensures network.Explains(old(network.step), r)
    {
      hide Framed, Chunked, Frames, Encoding, StackBuffer.View, StackBuffer.Valid, Stream, Network.Cooperative;
      var more := sendBuffer.buffer.HasRemainingLen();
      while more
        invariant Valid()
        invariant more == (Out().bytes != [])
        invariant Stream() == old(Stream())
        invariant In() == old(In())
        invariant network.Left() <= old(network.Left()) && |network.incoming| <= |old(network.incoming)|
        invariant old(network.Cooperative()) && old(network.Left()) > old(Work()) ==>
            network.Cooperative() && network.Left() > Work()
        invariant SameRoom(old(network.rooms), network.rooms, old(In()).Room())
        invariant network.step >= old(network.step)
        decreases network.Left()
      {
        r := Round();
        if r != Ok(false) {
          return;
        }
        more := sendBuffer.buffer.HasRemainingLen();
      }
      r := Ok(false);
    }

    /** ... and if nothing arrived, waits for input. */
    method Exchange() returns (r: Outcome<()>)
      requires Valid() && sendBuffer.borrows == 1 && recvBuffer.borrows == 1 && In().start == 0
      modifies sendBuffer.buffer`readPosition, recvBuffer.buffer, recvBuffer.buffer.data
      modifies network`step, network`sent, network`flushed, network`incoming, network`received, network`rooms
      ensures Valid()
      ensures Plain(r)
      ensures r.Ok? ==> network.Left() < old(network.Left())
      ensures Stream() == old(Stream())
      ensures |In().bytes| >= |old(In()).bytes|
      ensures r.Ok? && |In().bytes| == |old(In()).bytes| ==> Out().bytes == []
      ensures SameRoom(old(network.rooms), network.rooms, old(In()).Room())
      ensures |network.incoming| <= |old(network.incoming)|
      ensures network.Explains(old(network.step), r)
      ensures old(network.Cooperative()) && old(network.Left()) > old(Work()) && old(In()).Room() > 0 ==>
        r.Ok? && network.Cooperative() && (network.incoming == [] || network.Left() > Work())
    {
      hide Framed, Chunked, Frames, Encoding, StackBuffer.View, StackBuffer.Valid, Stream;
      var arrived := Rounds();
      match arrived {
        case Ok(some) =>
          if some {
            return Ok(());
          }
        case Err(e) => return Err(e);
        case Pending => return Pending;
      }
      RoomsSnoc(old(network.rooms), network.rooms, In().Room());
      var read := ReadSome(true);
      match read {
        case Ok(_) => r := Ok(());
        case Err(e) => r := Err(e);
        case Pending => r := Pending;
      }
    }

    /** One round of both directions: writes and looks for input until something
        arrived or everything is written, and then waits for input. Every read
        gets the room that compaction leaves. */
    method SendReceive() returns (r: Outcome<()>)
      requires Valid() && Idle() && connection
      modifies sendBuffer, sendBuffer.buffer`readPosition, RecvSide()
      modifies network`step, network`sent, network`flushed, network`incoming, network`received, network`rooms
      ensures Valid() && Idle()
      ensures Plain(r)
      ensures r.Ok? ==> network.Left() < old(network.Left())
      ensures Stream() == old(Stream())
      ensures |In().bytes| >= |old(In()).bytes|
      ensures r.Ok? && |In().bytes| == |old(In()).bytes| ==> Out().bytes == []
      ensures SameRoom(old(network.rooms), network.rooms, In().cap - |old(In()).bytes|)
      ensures |network.incoming| <= |old(network.incoming)|
      ensures network.Explains(old(network.step), r)
      ensures old(network.Cooperative()) && old(network.Left()) > old(Work()) && |old(In()).bytes| < In().cap ==>
        r.Ok? && network.Cooperative() && (network.incoming == [] || network.Left() > Work())
    {
      hide Framed, Frames, PrefixCode, Explained, StackBuffer.View, StackBuffer.Valid, Stream, Fifo.Consumed;
      Lend(sendBuffer);
      Lend(recvBuffer);
      recvBuffer.buffer.Flip();
      r := Exchange();
      sendBuffer.Release();
      recvBuffer.Release();
    }

    /** Moves bytes until a packet is complete. Only a buffer that was full
        before the call can be offered to a read without room. */
    method RunIo() returns (r: Outcome<MappedPacket>)
      requires Valid() && Idle() && state == Some(Connected)
      modifies sendBuffer, sendBuffer.buffer`readPosition, RecvSide()
      modifies network`step, network`sent, network`flushed, network`incoming, network`received, network`rooms
      ensures Valid() && sendBuffer.borrows == 0
      ensures if r.Ok? then Holds(r.value) else recvBuffer.borrows == 0
      ensures match r
              case Err(CodecError) => codec.decode(In().bytes).Malformed?
              case Err(BufferTooSmall) => codec.decode(In().bytes).Incomplete? && |In().bytes| == In().cap
              case Err(e) => e == ConnectionFailed
              case Panic => false
              case _ => true
      ensures |old(In()).bytes| < In().cap ==> NeverEmpty(old(network.rooms), network.rooms)
      ensures r.Ok? && |In().bytes| == |old(In()).bytes| ==> Out().bytes == []
      ensures network.Explains(old(network.step), r)
      ensures old(network.Cooperative()) && old(network.Left()) > old(Work()) && |old(In()).bytes| < In().cap ==>
        (r.Pending? ==> network.incoming == []) && r != Err(ConnectionFailed)
    {
      hide Framed, Chunked, Frames, StackBuffer.View, StackBuffer.Valid, Stream, Fifo.Consumed;
      while true
        invariant Valid() && Idle()
        invariant |In().bytes| >= |old(In()).bytes|
        invariant |old(In()).bytes| < In().cap ==> |In().bytes| < In().cap
        invariant |old(In()).bytes| < In().cap ==> NeverEmpty(old(network.rooms), network.rooms)
        invariant old(network.Cooperative()) && old(network.Left()) > old(Work()) && |old(In()).bytes| < In().cap ==>
            network.Cooperative() && (network.incoming == [] || network.Left() > Work())
        invariant network.step >= old(network.step)
        decreases network.Left()
      {
        var moved := SendReceive();
        match moved {
          case Ok(_) =>
          case Err(e) => return Err(e);
          case Pending => return Pending;
        }
        var packet := TryReadPacket();
        match packet {
          case Err(e) => return Err(e);
          case Ok(Some(m)) => return Ok(m);
          case Ok(None) =>
        }
      }
    }

    /** Looks for input without waiting. */
    method ReceiveNow() returns (r: Outcome<()>)
      requires Valid() && recvBuffer.borrows == 0
      modifies RecvSide(), network`step, network`incoming, network`received, network`rooms
      ensures Valid() && recvBuffer.borrows == 0
      ensures r.Ok? || r == Err(ConnectionFailed)
      ensures network.rooms == old(network.rooms) + [old(In()).Opened().Room()]
      ensures old(In()).bytes <= In().bytes && network.received == old(network.received) + In().bytes[|old(In()).bytes|..]
      ensures network.Explains(old(network.step), r)
    {
      hide Framed, Chunked, StackBuffer.View, StackBuffer.Valid;
      Lend(recvBuffer);
      var read := ReadSome(false);
      recvBuffer.Release();
      r := if read.Err? then Err(read.error) else Ok(());
    }

    /** Writes once if something waits, and looks for input once. */
    method SendThenReceive() returns (r: Outcome<()>)
      requires Valid() && Idle() && connection
      modifies sendBuffer, sendBuffer.buffer`readPosition, RecvSide()
      modifies network`step, network`sent, network`flushed, network`incoming, network`received, network`rooms
      ensures Valid() && Idle()
      ensures Plain(r)
      ensures Stream() == old(Stream())
      ensures r.Ok? && old(Out()).bytes != [] ==>
        && old(network.Reply()).Moved?
        && Out() == old(Out()).Consumed(Min(old(network.Reply()).n, |old(Out()).bytes|))
        && network.flushed == |network.sent|
      ensures r.Ok? ==> network.rooms == old(network.rooms) + [old(In()).Opened().Room()]
      ensures old(In()).bytes <= In().bytes
      ensures network.Explains(old(network.step), r)
    {
      hide Framed, Chunked, Network.Cooperative, StackBuffer.View, StackBuffer.Valid, Stream, Fifo.Consumed;
      r := Send();
      if r.Ok? {
        r := ReceiveNow();
      }
    }

    /** Writes once if something waits, looks for input once, and decodes what is
        there. */
    method RunIoNonblocking() returns (r: Outcome<Option<MappedPacket>>)
      requires Valid() && Idle() && state == Some(Connected)
      modifies sendBuffer, sendBuffer.buffer`readPosition, RecvSide()
      modifies network`step, network`sent, network`flushed, network`incoming, network`received, network`rooms
      ensures Valid() && sendBuffer.borrows == 0
      ensures if r.Ok? && r.value.Some? then Holds(r.value.value) else recvBuffer.borrows == 0
      ensures r == Ok(None) ==> codec.decode(In().bytes).Incomplete? && |In().bytes| < In().cap
      ensures Stream() == old(Stream())
      ensures r.Ok? && old(Out()).bytes != [] ==>
        && old(network.Reply()).Moved?
        && Out() == old(Out()).Consumed(Min(old(network.Reply()).n, |old(Out()).bytes|))
        && network.flushed == |network.sent|
      ensures r.Ok? ==> network.rooms == old(network.rooms) + [old(In()).Opened().Room()]
      ensures old(In()).bytes <= In().bytes
      ensures match r
              case Err(CodecError) => codec.decode(In().bytes).Malformed?
              case Err(BufferTooSmall) => codec.decode(In().bytes).Incomplete? && |In().bytes| == In().cap
              case Err(e) => e == ConnectionFailed
              case Panic => false
              case _ => true
      ensures network.Explains(old(network.step), r)
    {
      hide Framed, Chunked, StackBuffer.View, StackBuffer.Valid, Stream, Fifo.Consumed;
      var moved := SendThenReceive();
      match moved {
        case Ok(_) => r := TryReadPacket();
        case Err(e) => r := Err(e);
        case Pending => r := Pending;
      }
    }

    // ---- lifecycle ----

    method SetError()
      requires Valid()
      modifies this`state
      ensures Valid() && state == Some(Error)
    {
      state := Some(Error);
    }

    /** The DISCONNECT packet into the empty buffer, and out. */
    method WriteDisconnect() returns (r: Outcome<()>)
      requires Valid() && Idle() && connection && Out().bytes == []
      modifies SendSide(), network`step, network`sent, network`flushed, this`accepted
      ensures Valid() && Idle()
      ensures r.Ok? || r.Pending? || (r.Err? && r.error in {ConnectionFailed, CodecError, BufferTooSmall})
      ensures r.Ok? ==> accepted == old(accepted) + [Packet.Disconnect] && Out().bytes == [] && network.flushed == |network.sent|
      ensures r == Err(CodecError) ==> codec.encode(Packet.Disconnect).None?
      ensures r == Err(BufferTooSmall) ==> |Encoding(codec)(Packet.Disconnect)| > Out().cap
      ensures network.Explains(old(network.step), r)
      ensures var size := |Encoding(codec)(Packet.Disconnect)|;
        (old(network.Cooperative()) && old(network.Left()) > size
         && codec.encode(Packet.Disconnect).Some? && size <= Out().cap) ==> r.Ok?
    {
      hide Framed, Chunked, Frames, Network.Cooperative, Stream, StackBuffer.View, StackBuffer.Valid;
      var written := TryWriteCompacting(Packet.Disconnect);
      match written {
        case Err(e) => return Err(e);
        case Ok(done) =>
          if !done {
            return Panic;
          }
      }
      r := SendAll();
    }

    /** Sends what waits, then the DISCONNECT packet, and gives the connection up.
        The packet is always written to the empty buffer, so the panic of the
        source is out of reach, and it only fails to fit into a tiny buffer. */
    method Disconnect() returns (r: Outcome<()>)
      requires Valid() && Idle() && state == Some(Connected)
      modifies SendSide(), network`step, network`sent, network`flushed, this
      ensures Valid() && Idle()
      ensures r.Ok? || r.Pending? || (r.Err? && r.error in {ConnectionFailed, CodecError, BufferTooSmall})
      ensures r.Ok? ==>
        && state == Some(Disconnected) && !connection
        && accepted == old(accepted) + [Packet.Disconnect]
        && network.sent == Frames(codec, accepted) && network.flushed == |network.sent|
      ensures !r.Ok? ==> state == old(state) && connection
      ensures r == Err(BufferTooSmall) ==> |Encoding(codec)(Packet.Disconnect)| > Out().cap
      ensures returned == old(returned)
      ensures network.Explains(old(network.step), r)
      ensures r == Err(CodecError) ==> codec.encode(Packet.Disconnect).None?
      ensures var size := |Encoding(codec)(Packet.Disconnect)|;
        (old(network.Cooperative()) && old(network.Left()) > |old(Out()).bytes| + size + 1
         && codec.encode(Packet.Disconnect).Some? && size <= Out().cap) ==> r.Ok?
    {
      hide Framed, Chunked, Frames, Network.Cooperative, Stream, StackBuffer.View, StackBuffer.Valid;
      r := SendAll();
      if !r.Ok? {
        return;
      }
      r := WriteDisconnect();
      if !r.Ok? {
        return;
      }
      FramedMeans();
      assert network.sent + [] == network.sent;
      connection := false;
      state := Some(Disconnected);
    }

    method ResetBuffers()
      requires Valid() && Idle()
      requires state != Some(Connected)
      modifies Repr()
      ensures Valid() && Idle() && state == old(state) && connection == old(connection)
      ensures Out() == Fifo(old(Out()).cap, 0, []) && In() == Fifo(old(In()).cap, 0, [])
      ensures accepted == [] && returned == []
      ensures network.sent == [] && network.received == []
      ensures network.step == old(network.step) && network.connections == old(network.connections)
    {
      hide Framed, Explained, PrefixCode, Frames, StackBuffer.View, StackBuffer.Valid;
      NothingFramed(codec);
      Lend(recvBuffer);
      recvBuffer.buffer.Reset();
      recvBuffer.Release();
      Lend(sendBuffer);
      sendBuffer.buffer.Reset();
      sendBuffer.Release();
      network.BeginStream();
      accepted, returned := [], [];
      FramedMeans();
    }

    /** Resolves the host, connects, and stores the connection. */
    method Open() returns (r: Outcome<()>)
      requires Valid()
      modifies network`step, network`connections, network`incoming, this`connection
      ensures Valid()
      ensures r.Ok? || r.Pending? || r == Err(DnsFailed) || r == Err(ConnectionFailed)
      ensures connection == (r.Ok? || old(connection))
      ensures network.connections == old(network.connections) + (if r.Ok? then 1 else 0)
      ensures r.Ok? ==> network.incoming == network.streams(old(network.connections))
      ensures network.Explains(old(network.step), r)
    {
      hide Framed, Chunked, StackBuffer.View, StackBuffer.Valid;
      var resolved := network.Ready();
      match resolved {
        case Ok(_) =>
        case Err(_) => return Err(DnsFailed);
        case Pending => return Pending;
      }
      r := network.Ready();
      if r.Ok? {
        network.Open();
        connection := true;
      }
    }

    /** Reads one packet, looks at it and drops it. */
    method TakePacket() returns (r: Outcome<Packet>)
      requires Valid() && recvBuffer.borrows == 0 && connection
      modifies RecvSide(), network`step, network`incoming, network`received, network`rooms, this`returned
      ensures Valid() && recvBuffer.borrows == 0
      ensures r.Ok? || r.Pending? || (r.Err? && r.error in {ConnectionFailed, CodecError, BufferTooSmall})
      ensures returned == if r.Ok? then old(returned) + [r.value] else old(returned)
      ensures r.Err? ==> r.error == ConnectionFailed || Unreadable(r.error)
      ensures NeverEmpty(old(network.rooms), network.rooms)
      ensures network.Explains(old(network.step), r)
    {
      hide Framed, Chunked, NeverEmpty, StackBuffer.View, StackBuffer.Valid;
      var packet := ReadPacket();
      match packet {
        case Ok(m) =>
          DropPacket(m);
          r := Ok(m.packet);
        case Err(e) => r := Err(e);
        case Pending => r := Pending;
      }
    }

    /** The scan of the return codes. */
    static method ProcessSuback(codes: seq<ReturnCode>, chunk: seq<AutoSubscribe>) returns (r: Outcome<()>)
      ensures r == if Refused(codes, chunk) then Err(SubscribeOrUnsubscribeFailed) else Ok(())
      ensures r == Err(SubscribeOrUnsubscribeFailed)
         <==> exists i :: 0 <= i < |codes| && i < |chunk| && codes[i] == Failure
    {
      var i := 0;
      while i < |codes| && i < |chunk|
        invariant forall j :: 0 <= j < i ==> j < |codes| && j < |chunk| && codes[j] != Failure
      {
        if codes[i] == Failure {
          return Err(SubscribeOrUnsubscribeFailed);
        }
        i := i + 1;
      }
      r := Ok(());
    }

    /** Writes a packet and sends everything that waits. */
    method WriteAndSend(packet: Packet) returns (r: Outcome<()>)
      requires Valid() && Idle() && connection
      modifies SendSide(), this`accepted, network`step, network`sent, network`flushed
      ensures Valid() && Idle()
      ensures !r.Panic?
      ensures accepted == old(accepted) + [packet] || (accepted == old(accepted) && !r.Ok?)
      ensures network.Explains(old(network.step), r)
    {
      hide Framed, Chunked, Encoding, Network.Cooperative, StackBuffer.View, StackBuffer.Valid;
      r := WritePacketAsync(packet);
      if r.Ok? {
        r := SendAll();
      }
    }

    /** Awaits the answer to a chunk: it succeeds exactly if the next packet is a
        SUBACK that refuses none of its topics, whatever its identifier. */
    method AwaitSuback(chunk: seq<AutoSubscribe>) returns (r: Outcome<()>)
      requires Valid() && recvBuffer.borrows == 0 && connection
      modifies RecvSide(), network`step, network`incoming, network`received, network`rooms, this`returned
      ensures Valid() && recvBuffer.borrows == 0
      ensures !r.Panic?
      ensures returned == old(returned) ==> !r.Ok?
      ensures returned != old(returned) ==>
        && |returned| == |old(returned)| + 1 && old(returned) <= returned
        && r == ChunkResult(returned[|old(returned)|], chunk)
      ensures network.Explains(old(network.step), r)
    {
      hide Framed, Chunked, NeverEmpty, Refused, StackBuffer.View, StackBuffer.Valid;
      var packet := TakePacket();
      match packet {
        case Ok(Suback(_, codes)) => r := ProcessSuback(codes, chunk);
        case Ok(_) => r := Err(ConnackError);
        case Err(e) => r := Err(e);
        case Pending => r := Pending;
      }
    }

    /** One chunk. The next identifier is taken in every case; once a packet was
        returned, that packet alone decides, and its identifier does not matter. */
    method SubscribeChunk(chunk: seq<AutoSubscribe>, pool: PidPool) returns (r: Outcome<()>)
      requires Valid() && Idle() && connection && pool !in Repr()
      modifies SendSide(), RecvSide(), this`accepted, this`returned, pool
      modifies network`step, network`sent, network`flushed, network`incoming, network`received, network`rooms
      ensures Valid() && Idle()
      ensures r.Panic? <==> Issued(old(pool.View())).None?
      ensures pool.View() == if r.Panic? then old(pool.View()) else Taken(old(pool.View()))
      ensures accepted == old(accepted)
        || (!r.Panic? && accepted == old(accepted) + [ChunkPacket(Issued(old(pool.View())).value, chunk)])
      ensures !r.Panic? && (exists i :: 0 <= i < |chunk| && |chunk[i].topic| > wireTopicSize) ==>
        r == Err(TopicSizeError) && accepted == old(accepted) && network.step == old(network.step)
      ensures returned == old(returned) ==> !r.Ok?
      ensures returned != old(returned) ==>
        && accepted != old(accepted) && |returned| == |old(returned)| + 1 && old(returned) <= returned
        && r == ChunkResult(returned[|old(returned)|], chunk)
      ensures network.Explains(old(network.step), r)
    {
      hide Framed, Chunked, ChunkPacket, ChunkResult, StackBuffer.View, StackBuffer.Valid;
      var pid := pool.NextPid();
      if pid.Panic? {
        return Panic;
      }
      if exists i :: 0 <= i < |chunk| && |chunk[i].topic| > wireTopicSize {
        return Err(TopicSizeError);
      }
      r := WriteAndSend(ChunkPacket(pid.value, chunk));
      if r.Ok? {
        r := AwaitSuback(chunk);
      }
    }

    /** One SUBSCRIBE for every chunk, each with an identifier of its own that is
        never given back, and its SUBACK awaited before the next. `taken` counts
        the identifiers; all chunks but possibly the last of them are confirmed. */
    method SubscribeAutoSubscribes(pool: PidPool) returns (r: Outcome<()>, ghost taken: nat)
      requires Valid() && Idle() && connection && pool !in Repr()
      modifies SendSide(), RecvSide(), this`accepted, this`returned, pool
      modifies network`step, network`sent, network`flushed, network`incoming, network`received, network`rooms
      ensures Valid() && Idle()
      ensures TakenTimes(old(pool.View()), taken) == Some(pool.View())
      ensures taken <= |Chunks(autoSubscribes)| && (r.Ok? ==> taken == |Chunks(autoSubscribes)|)
      ensures old(accepted) <= accepted && old(returned) <= returned
      ensures taken - 1 <= |returned| - |old(returned)| <= |accepted| - |old(accepted)| <= taken
      ensures r.Ok? ==> |returned| == |old(returned)| + taken
      ensures r.Panic? ==> Issued(pool.View()).None?
      ensures forall i :: 0 <= i < (if r.Ok? then taken else taken - 1) ==>
        Confirmed(Chunks(autoSubscribes)[i], accepted[|old(accepted)| + i], returned[|old(returned)| + i])
      ensures network.Explains(old(network.step), r)
    {
      hide Framed, Chunked, Refused, StackBuffer.View, StackBuffer.Valid;
      taken := 0;
      var rest := autoSubscribes;
      while rest != []
        invariant Valid() && Idle()
        invariant taken + |Chunks(rest)| == |Chunks(autoSubscribes)| && Chunks(autoSubscribes)[taken..] == Chunks(rest)
        invariant TakenTimes(old(pool.View()), taken) == Some(pool.View())
        invariant |accepted| == |old(accepted)| + taken && |returned| == |old(returned)| + taken
        invariant old(accepted) <= accepted && old(returned) <= returned
        invariant forall k :: 0 <= k < taken ==>
          Confirmed(Chunks(autoSubscribes)[k], accepted[|old(accepted)| + k], returned[|old(returned)| + k])
        invariant network.step >= old(network.step)
        decreases |rest|
      {
        var n := Min(CHUNK_SIZE, |rest|);
        assert Chunks(autoSubscribes)[taken] == Chunks(autoSubscribes)[taken..][0] == rest[..n];
        assert Chunks(autoSubscribes)[taken + 1..] == Chunks(autoSubscribes)[taken..][1..];
        r := SubscribeChunk(rest[..n], pool);
        taken := if r.Panic? then taken else taken + 1;
        if !r.Ok? {
          return;
        }
        rest := rest[n..];
      }
      r := Ok(());
    }

    /** What a CONNACK leads to. */
    method ProcessConnack(code: ConnectCode, pool: PidPool) returns (r: Outcome<()>, ghost taken: nat)
      requires Valid() && Idle() && connection && pool !in Repr() && state == Some(ConnectSent)
      modifies SendSide(), RecvSide(), this`accepted, this`returned, this`state, pool
      modifies network`step, network`sent, network`flushed, network`incoming, network`received, network`rooms
      ensures Valid() && Idle()
      ensures r.Ok? <==> state == Some(Connected)
      ensures r.Ok? ==> code == ConnectionAccepted
      ensures !r.Ok? ==> state in {Some(ConnectSent), Some(Error)}
      ensures code == ConnectionAccepted ==> state == Some(if r.Ok? then Connected else ConnectSent)
      ensures code == ConnectionRefused ==> r == Err(ConnackError) && state == Some(Error)
      ensures code == BadCredentials ==> r == Err(AuthenticationError) && state == Some(Error)
      ensures TakenTimes(old(pool.View()), taken) == Some(pool.View())
      ensures taken <= |Chunks(autoSubscribes)| && (r.Ok? ==> taken == |Chunks(autoSubscribes)|)
      ensures old(accepted) <= accepted && old(returned) <= returned
      ensures r.Ok? ==> |accepted| == |old(accepted)| + taken && |returned| == |old(returned)| + taken
      ensures r.Panic? ==> Issued(pool.View()).None?
      ensures r.Ok? ==> AllConfirmed(|old(accepted)|, |old(returned)|)
      ensures network.Explains(old(network.step), r)
    {
      hide Framed, Chunked, Confirmed, Chunks, StackBuffer.View, StackBuffer.Valid;
      taken := 0;
      match code {
        case ConnectionAccepted =>
          r, taken := SubscribeAutoSubscribes(pool);
          if r.Ok? {
            state := Some(Connected);
          }
        case ConnectionRefused =>
          SetError();
          r := Err(ConnackError);
        case BadCredentials =>
          SetError();
          r := Err(AuthenticationError);
      }
    }

    /** Puts the CONNECT packet into the empty buffer and writes once: whatever
        the network does not take then stays in the buffer, and waiting for the
        CONNACK does not write it. */
    method SendConnect() returns (r: Outcome<()>)
      requires Valid() && Idle() && connection && Out().bytes == []
      modifies SendSide(), this`accepted, this`state, network`step, network`sent, network`flushed
      ensures Valid() && Idle()
      ensures !r.Panic?
      ensures r.Err? ==> r.error == ConnectionFailed || Unwritable(r.error, Out().cap)
      ensures if r.Ok? then state == Some(ConnectSent) && accepted == old(accepted) + [Packet.Connect]
              else state == old(state)
      ensures r.Ok? && Encoding(codec)(Packet.Connect) != [] ==>
        && old(network.Reply()).Moved?
        && Out().bytes == Encoding(codec)(Packet.Connect)[Min(old(network.Reply()).n, |Encoding(codec)(Packet.Connect)|)..]
      ensures network.Explains(old(network.step), r)
    {
      hide Framed, Chunked, Encoding, Network.Cooperative, StackBuffer.View, StackBuffer.Valid;
      var written := TryWriteCompacting(Packet.Connect);
      match written {
        case Err(e) => return Err(e);
        case Ok(done) =>
          if !done {
            return Err(BufferTooSmall);
          }
      }
      r := Send();
      if r.Ok? {
        state := Some(ConnectSent);
      }
    }

    /** The first packet of the broker must be a CONNACK. */
    method AwaitConnack(pool: PidPool) returns (r: Outcome<()>, ghost taken: nat)
      requires Valid() && Idle() && connection && pool !in Repr() && state == Some(ConnectSent)
      modifies SendSide(), RecvSide(), this`accepted, this`returned, this`state, pool
      modifies network`step, network`sent, network`flushed, network`incoming, network`received, network`rooms
      ensures Valid() && Idle()
      ensures r.Ok? <==> state == Some(Connected)
      ensures !r.Ok? ==> state in {Some(ConnectSent), Some(Error)}
      ensures TakenTimes(old(pool.View()), taken) == Some(pool.View())
      ensures taken <= |Chunks(autoSubscribes)| && (r.Ok? ==> taken == |Chunks(autoSubscribes)|)
      ensures old(accepted) <= accepted && old(returned) <= returned
      ensures r.Ok? ==>
        && |accepted| == |old(accepted)| + taken && |returned| == |old(returned)| + 1 + taken
        && returned[|old(returned)|] == Connack(ConnectionAccepted)
      ensures r.Panic? ==> Issued(pool.View()).None?
      ensures returned == old(returned) && r.Err? ==> r.error == ConnectionFailed || Unreadable(r.error)
      ensures r.Ok? ==> AllConfirmed(|old(accepted)|, |old(returned)| + 1)
      ensures returned != old(returned) ==>
        |returned| > |old(returned)| && Decided(returned[|old(returned)|], r, state)
      ensures network.Explains(old(network.step), r)
    {
      hide Framed, Chunked, NeverEmpty, Chunks, Confirmed, StackBuffer.View, StackBuffer.Valid;
      taken := 0;
      var packet := TakePacket();
      match packet {
        case Ok(Connack(code)) => r, taken := ProcessConnack(code, pool);
        case Ok(_) => r := Err(ConnackError);
        case Err(e) => r := Err(e);
        case Pending => r := Pending;
      }
    }

    /** CONNECT and CONNACK on a new connection, with empty buffers. */
    method Handshake(pool: PidPool) returns (r: Outcome<()>, ghost taken: nat)
      requires Valid() && Idle() && connection && pool !in Repr() && Out().bytes == []
      requires accepted == [] && returned == [] && (state == None || state == Some(Error))
      modifies SendSide(), RecvSide(), this`accepted, this`returned, this`state, pool
      modifies network`step, network`sent, network`flushed, network`incoming, network`received, network`rooms
      ensures Valid() && Idle()
      ensures r.Ok? <==> state == Some(Connected)
      ensures !r.Ok? ==> state in {old(state), Some(ConnectSent), Some(Error)}
      ensures TakenTimes(old(pool.View()), taken) == Some(pool.View())
      ensures taken <= |Chunks(autoSubscribes)| && (r.Ok? ==> taken == |Chunks(autoSubscribes)|)
      ensures r.Ok? ==>
        && |accepted| == 1 + taken && accepted[0] == Packet.Connect
        && |returned| == 1 + taken && returned[0] == Connack(ConnectionAccepted)
      ensures returned != [] ==> Decided(returned[0], r, state)
      ensures r.Panic? ==> Issued(pool.View()).None?
      ensures returned == [] && r.Err? ==>
        r.error == ConnectionFailed || Unwritable(r.error, Out().cap) || Unreadable(r.error)
      ensures r.Ok? ==> AllConfirmed(1, 1)
      ensures network.Explains(old(network.step), r)
    {
      hide Framed, Chunked, Chunks, Confirmed, StackBuffer.View, StackBuffer.Valid;
      taken := 0;
      r := SendConnect();
      if r.Ok? {
        r, taken := AwaitConnack(pool);
      }
    }

    /** Connects. The state becomes Connected in no other way than by a CONNACK
        that accepts, as the first packet of the new connection. `taken` counts
        the identifiers that automatic subscriptions took. */
    method Connect(pool: PidPool) returns (r: Outcome<()>, ghost taken: nat)
      requires Valid() && Idle() && pool !in Repr()
      requires state == None || state == Some(Error)
      modifies Repr(), pool
      ensures Valid() && Idle()
      ensures r.Ok? <==> state == Some(Connected)
      ensures !r.Ok? ==> state in {old(state), Some(ConnectSent), Some(Error)}
      ensures TakenTimes(old(pool.View()), taken) == Some(pool.View())
      ensures taken <= |Chunks(autoSubscribes)| && (r.Ok? ==> taken == |Chunks(autoSubscribes)|)
      ensures r.Ok? ==>
        && |accepted| == 1 + taken && accepted[0] == Packet.Connect
        && |returned| == 1 + taken && returned[0] == Connack(ConnectionAccepted)
      ensures returned != [] ==> Decided(returned[0], r, state)
      ensures r.Panic? ==> Issued(pool.View()).None?
      ensures returned == [] && r.Err? ==>
        r.error in {ConnectionFailed, DnsFailed} || Unwritable(r.error, Out().cap) || Unreadable(r.error)
      ensures r.Ok? ==> AllConfirmed(1, 1)
      ensures r.Ok? ==> network.connections == old(network.connections) + 1
      ensures network.Explains(old(network.step), r)
    {
      hide Framed, Chunked, Chunks, Confirmed, StackBuffer.View, StackBuffer.Valid;
      taken := 0;
      ResetBuffers();
      r := Open();
      if r.Ok? {
        r, taken := Handshake(pool);
      }
    }
  }
}
