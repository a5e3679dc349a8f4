/** What the byte pipeline assumes about its surroundings: a codec that is a
    prefix code, and a network that may take and give bytes in any portions. */
module Codecs {
  import opened Mqtt
  import opened Seqs

  datatype Decoded = Incomplete | Got(size: nat, packet: Packet) | Malformed

  /** `encode` is `None` for packets that cannot be encoded; `scribble` is what
      a failed attempt leaves behind in a region of the given size. */
  datatype Codec = Codec(
    encode: Packet -> Option<seq<Byte>>,
    decode: seq<Byte> -> Decoded,
    scribble: (Packet, nat) -> seq<Byte>)

  /** A decoded packet has at least one byte, and no later byte changes it. */
  ghost predicate PrefixCode(decode: seq<Byte> -> Decoded) {
    && (forall s :: decode(s).Got? ==> 1 <= decode(s).size <= |s|)
    && (forall s, more :: decode(s).Got? ==> decode(s + more) == decode(s))
  }

  function Encoding(c: Codec): Packet -> seq<Byte> {
    (p: Packet) => if c.encode(p).Some? then c.encode(p).value else []
  }

  /** The encodings of a list of packets, one after the other. */
  function Frames(c: Codec, packets: seq<Packet>): seq<Byte> {
    FlatMap(Encoding(c), packets)
  }

  /** Bytes that move from the buffer to the network. */
  lemma MovedBytes(sent: seq<Byte>, bytes: seq<Byte>, n: nat)
    requires n <= |bytes|
    ensures (sent + bytes[..n]) + bytes[n..] == sent + bytes
  {
    assert bytes == bytes[..n] + bytes[n..];
  }

  /** The packets of a byte stream when it is decoded at once. */
  function DecodeAll(decode: seq<Byte> -> Decoded, s: seq<Byte>): seq<Packet>
    decreases |s|
  {
    match decode(s)
    case Got(n, p) => if 1 <= n <= |s| then [p] + DecodeAll(decode, s[n..]) else []
    case _ => []
  }

  /** However the stream goes on, what was returned so far and what is still in
      the buffer decode to the same packets as the whole stream. */
  ghost predicate Explained(decode: seq<Byte> -> Decoded, received: seq<Byte>, readable: seq<Byte>, returned: seq<Packet>) {
    forall rest :: DecodeAll(decode, received + rest) == returned + DecodeAll(decode, readable + rest)
  }

  /** A connection on which nothing has happened yet. */
  lemma NothingFramed(c: Codec)
    ensures Frames(c, []) == [] && Explained(c.decode, [], [], [])
  {
  }

  /** One more packet behind what was sent and what waits. */
  lemma FramesSnoc(c: Codec, packets: seq<Packet>, p: Packet, sent: seq<Byte>, waiting: seq<Byte>)
    requires sent + waiting == Frames(c, packets)
    ensures sent + (waiting + Encoding(c)(p)) == Frames(c, packets + [p])
  {
    FlatMapSnoc(Encoding(c), packets, p);
    assert sent + (waiting + Encoding(c)(p)) == sent + waiting + Encoding(c)(p);
  }

  lemma ExplainedRead(decode: seq<Byte> -> Decoded, received: seq<Byte>, readable: seq<Byte>, returned: seq<Packet>, more: seq<Byte>)
    requires Explained(decode, received, readable, returned)
    ensures Explained(decode, received + more, readable + more, returned)
  {
    forall rest
      ensures DecodeAll(decode, received + more + rest) == returned + DecodeAll(decode, readable + more + rest)
    {
      assert received + more + rest == received + (more + rest);
      assert readable + more + rest == readable + (more + rest);
    }
  }

  lemma ExplainedPacket(decode: seq<Byte> -> Decoded, received: seq<Byte>, readable: seq<Byte>, returned: seq<Packet>)
    requires PrefixCode(decode) && decode(readable).Got?
    requires Explained(decode, received, readable, returned)
    ensures Explained(decode, received, readable[decode(readable).size..], returned + [decode(readable).packet])
  {
    var n, p := decode(readable).size, decode(readable).packet;
    forall rest
      ensures DecodeAll(decode, received + rest) == returned + [p] + DecodeAll(decode, readable[n..] + rest)
    {
      assert decode(readable + rest) == decode(readable);
      assert (readable + rest)[n..] == readable[n..] + rest;
    }
  }

  /** Independence of chunking: whatever portions the bytes arrived in, what was
      returned is a prefix of what the whole stream decodes to, and all of it
      once the buffer holds no complete packet. */
  lemma ReturnedInOrder(decode: seq<Byte> -> Decoded, received: seq<Byte>, readable: seq<Byte>, returned: seq<Packet>, rest: seq<Byte>)
    requires Explained(decode, received, readable, returned)
    ensures returned <= DecodeAll(decode, received + rest)
    ensures !decode(readable).Got? ==> returned == DecodeAll(decode, received)
  {
    assert DecodeAll(decode, received + rest) == returned + DecodeAll(decode, readable + rest);
    assert received + [] == received && readable + [] == readable;
  }

  /** Decoding undoes encoding, for a stream of frames of any length. */
  lemma {:induction false} DecodeFrames(c: Codec, packets: seq<Packet>)
    requires PrefixCode(c.decode)
    requires forall p :: p in packets ==> c.encode(p).Some? && c.decode(c.encode(p).value) == Got(|c.encode(p).value|, p)
    ensures DecodeAll(c.decode, Frames(c, packets)) == packets
  {
    if packets != [] {
      var e := c.encode(packets[0]).value;
      assert packets[0] in packets;
      assert Frames(c, packets) == e + Frames(c, packets[1..]);
      assert c.decode(e + Frames(c, packets[1..])) == c.decode(e);
      assert (e + Frames(c, packets[1..]))[|e|..] == Frames(c, packets[1..]);
      DecodeFrames(c, packets[1..]);
      assert packets == [packets[0]] + packets[1..];
    }
  }

  /** Two ends of a connection. The sender's buffer holds what the network has
      not taken of the frames of `accepted`; the receiver got a prefix of what
      the network took. Then the receiver returns the accepted packets, in
      order, and all of them once everything has arrived and been decoded. */
  lemma PacketsCross(c: Codec, accepted: seq<Packet>, sent: seq<Byte>, unsent: seq<Byte>,
                     received: seq<Byte>, readable: seq<Byte>, returned: seq<Packet>)
    requires PrefixCode(c.decode)
    requires forall p :: p in accepted ==> c.encode(p).Some? && c.decode(c.encode(p).value) == Got(|c.encode(p).value|, p)
    requires sent + unsent == Frames(c, accepted)
    requires received <= sent
    requires Explained(c.decode, received, readable, returned)
    ensures returned <= accepted
    ensures unsent == [] && received == sent && !c.decode(readable).Got? ==> returned == accepted
  {
    hide DecodeAll, PrefixCode, Frames;
    DecodeFrames(c, accepted);
    ReturnedInOrder(c.decode, received, readable, returned, sent[|received|..] + unsent);
    assert received + (sent[|received|..] + unsent) == sent + unsent;
    assert unsent == [] ==> sent + unsent == sent;
  }
}

/** The TCP connection below the client. Every operation gets the next reply of
    an arbitrary script: it fails, stays pending until its future is dropped, or
    moves at most so many bytes. After the end of the script nothing moves. */
module Networks {
  import opened Mqtt

  datatype Reply = Failed | Stalled | Moved(n: nat)

  /** The reads made since `before` was recorded were all given this room. */
  ghost predicate SameRoom(before: seq<int>, after: seq<int>, room: int) {
    before <= after && forall i :: |before| <= i < |after| ==> after[i] == room
  }

  /** No read since then was given an empty slice. */
  ghost predicate NeverEmpty(before: seq<int>, after: seq<int>) {
    before <= after && forall i :: |before| <= i < |after| ==> after[i] > 0
  }

  lemma RoomsSelf(rooms: seq<int>, room: int)
    ensures SameRoom(rooms, rooms, room) && NeverEmpty(rooms, rooms)
  {
  }

  lemma RoomsSnoc(before: seq<int>, rooms: seq<int>, room: int)
    ensures SameRoom(before, rooms, room) ==> SameRoom(before, rooms + [room], room)
    ensures NeverEmpty(before, rooms) && room > 0 ==> NeverEmpty(before, rooms + [room])
  {
  }

  /** The result of an operation that moves no bytes of its own. */
  function Plainly(r: Reply): Outcome<()> {
    match r
    case Failed => Err(ConnectionFailed)
    case Stalled => Pending
    case Moved(_) => Ok(())
  }

  /** `streams` are the bytes that the broker sends on one connection after the
      other. The ghost part records the current connection: the bytes taken and
      given, how many of the taken ones were flushed, and the room that every
      read was given. */
  class Network {
    const replies: nat -> Reply
    const end: nat
    const streams: nat -> seq<Byte>
    var step: nat
    var connections: nat
    var incoming: seq<Byte>
    ghost var sent: seq<Byte>
    ghost var flushed: nat
    ghost var received: seq<Byte>
    ghost var rooms: seq<int>

    function Reply(): Reply
      reads this`step
    {
      if step < end then replies(step) else Stalled
    }

    /** How many replies are left. */
    function Left(): nat
      reads this`step
    {
      if step < end then end - step else 0
    }

    /** Every operation succeeds and moves at least one byte if there is one. */
    ghost predicate Cooperative()
      reads this`step
    {
      forall i: nat :: step <= i < end ==> replies(i).Moved? && replies(i).n >= 1
    }

    /** The reply to operation number `i`. */
    function At(i: nat): Reply { if i < end then replies(i) else Stalled }

    /** Operations were made since step `before`, and the last one is still waiting. */
    ghost predicate Waits(before: nat)
      reads this`step
    {
      step > before && At(step - 1).Stalled?
    }

    /** An operation that is pending waits for the network, and one that failed on
        the connection was failed by the network: its last reply says so. */
    ghost predicate Explains<T>(before: nat, r: Outcome<T>)
      reads this`step
    {
      && before <= step
      && (r.Pending? ==> Waits(before))
      && (r == Err(ConnectionFailed) || r == Err(DnsFailed) ==> step > before && At(step - 1).Failed?)
    }

    /** Every operation since then succeeded. */
    ghost predicate Served(before: nat)
      reads this`step
    {
      step <= end && forall i: nat :: before <= i < step ==> replies(i).Moved?
    }

    /** A network on which every operation succeeds is never the reason. */
    lemma ServedExplains<T>(before: nat, r: Outcome<T>)
      requires Explains(before, r) && Served(before)
      ensures !r.Pending? && r != Err(ConnectionFailed) && r != Err(DnsFailed)
    {
    }

    constructor (replies: nat -> Reply, end: nat, streams: nat -> seq<Byte>)
      ensures this.replies == replies && this.end == end && this.streams == streams && step == 0
      ensures incoming == [] && sent == [] && flushed == 0 && received == [] && rooms == []
    {
      this.replies, this.end, this.streams := replies, end, streams;
      step, connections, incoming := 0, 0, [];
      sent, flushed, received, rooms := [], 0, [], [];
    }

    /** An operation that moves no bytes: name resolution, connecting. */
    method Ready() returns (r: Outcome<()>)
      modifies this`step
      ensures r == Plainly(old(Reply())) && step == old(step) + 1
    {
      var reply := Reply();
      step := step + 1;
      match reply {
        case Failed => r := Err(ConnectionFailed);
        case Stalled => r := Pending;
        case Moved(_) => r := Ok(());
      }
    }

    ghost method BeginStream()
      modifies this`sent, this`flushed, this`received, this`rooms
      ensures sent == [] && flushed == 0 && received == [] && rooms == []
    {
      sent, flushed, received, rooms := [], 0, [], [];
    }

    /** A new connection: the broker's next stream arrives on it. */
    method Open()
      modifies this`connections, this`incoming
      ensures incoming == streams(old(connections)) && connections == old(connections) + 1
    {
      incoming := streams(connections);
      connections := connections + 1;
    }

    method Write(bytes: seq<Byte>) returns (r: Outcome<nat>)
      modifies this`step, this`sent
      ensures step == old(step) + 1
      ensures match old(Reply())
              case Failed => r == Err(ConnectionFailed) && sent == old(sent)
              case Stalled => r == Pending && sent == old(sent)
              case Moved(n) => r == Ok(Min(n, |bytes|)) && sent == old(sent) + bytes[..Min(n, |bytes|)]
    {
      var reply := Reply();
      step := step + 1;
      match reply {
        case Failed => r := Err(ConnectionFailed);
        case Stalled => r := Pending;
        case Moved(n) =>
          var k := Min(n, |bytes|);
          sent := sent + bytes[..k];
          r := Ok(k);
      }
    }

    method Flush() returns (r: Outcome<()>)
      modifies this`step, this`flushed
      ensures r == Plainly(old(Reply())) && step == old(step) + 1
      ensures flushed == if r.Ok? then |sent| else old(flushed)
    {
      r := Ready();
      if r.Ok? {
        flushed := |sent|;
      }
    }

    /** Reads into a slice of `room` bytes. */
    method Read(room: nat) returns (r: Outcome<seq<Byte>>)
      modifies this`step, this`incoming, this`received, this`rooms
      ensures step == old(step) + 1
      ensures match old(Reply())
              case Failed => r == Err(ConnectionFailed)
              case Stalled => r == Pending
              case Moved(n) => r == Ok(old(incoming)[..Min(n, Min(room, |old(incoming)|))])
      ensures received == old(received) + (if r.Ok? then r.value else [])
      ensures old(incoming) == (if r.Ok? then r.value else []) + incoming
      ensures rooms == old(rooms) + [room]
    {
      var reply := Reply();
      step := step + 1;
      rooms := rooms + [room];
      match reply {
        case Failed => r := Err(ConnectionFailed);
        case Stalled => r := Pending;
        case Moved(n) =>
          var k := Min(n, Min(room, |incoming|));
          r := Ok(incoming[..k]);
          received := received + incoming[..k];
          incoming := incoming[k..];
      }
    }

    /** network_try_read: a read that is not ready moves nothing. */
    method TryRead(room: nat) returns (r: Outcome<seq<Byte>>)
      modifies this`step, this`incoming, this`received, this`rooms
      ensures step == old(step) + 1
      ensures match old(Reply())
              case Failed => r == Err(ConnectionFailed)
              case Stalled => r == Ok([])
              case Moved(n) => r == Ok(old(incoming)[..Min(n, Min(room, |old(incoming)|))])
      ensures received == old(received) + (if r.Ok? then r.value else [])
      ensures old(incoming) == (if r.Ok? then r.value else []) + incoming
      ensures rooms == old(rooms) + [room]
    {
      r := Read(room);
      if r.Pending? {
        r := Ok([]);
      }
    }
  }
}
