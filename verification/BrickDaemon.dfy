/** Reassembly of request packets from the byte stream of the Brick Daemon connection
    (brickd.c). */
module BrickDaemon {
  import opened Wrappers

  const HEADER_SIZE: nat := 8
  const PACKET_SIZE: nat := 80
  const LENGTH_OFFSET: nat := 4     // of the length in a header, after the UID

  /** What packet_header_is_valid_request and api_get_uid say about a header, and whether the
      response to the request with this number can be sent. A valid request has room for its
      header and fits into a packet. */
  datatype Protocol = Protocol(valid: seq<Byte> -> bool, mine: seq<Byte> -> bool, answered: nat -> bool) {
    ghost predicate Ok() {
      forall h | |h| == HEADER_SIZE && valid(h) :: HEADER_SIZE <= h[LENGTH_OFFSET] <= PACKET_SIZE
    }
  }

  /** The requests in a stream of bytes, up to the first invalid header. */
  datatype Parsed = Parsed(requests: seq<seq<Byte>>, rest: seq<Byte>, broken: bool)

  function Cons(request: seq<Byte>, p: Parsed): Parsed {
    p.(requests := [request] + p.requests)
  }

  /** The stream begins with a complete packet. */
  ghost predicate Complete(protocol: Protocol, stream: seq<Byte>) {
    |stream| >= HEADER_SIZE && protocol.valid(stream[..HEADER_SIZE]) && |stream| >= stream[LENGTH_OFFSET]
  }

  lemma PacketLength(protocol: Protocol, stream: seq<Byte>)
    requires protocol.Ok() && |stream| >= HEADER_SIZE && protocol.valid(stream[..HEADER_SIZE])
    ensures HEADER_SIZE <= stream[LENGTH_OFFSET] <= PACKET_SIZE
  {
    assert stream[..HEADER_SIZE][LENGTH_OFFSET] == stream[LENGTH_OFFSET];
  }

  /** One packet after the other, looking at the whole stream at once. */
  ghost function Parse(protocol: Protocol, stream: seq<Byte>): (p: Parsed)
    requires protocol.Ok()
    decreases |stream|
  {
    if Complete(protocol, stream) then
      PacketLength(protocol, stream);
      var n := stream[LENGTH_OFFSET];
      var p := Parse(protocol, stream[n..]);
      if protocol.mine(stream[..HEADER_SIZE]) then Cons(stream[..n], p) else p
    else Parsed([], stream, |stream| >= HEADER_SIZE && !protocol.valid(stream[..HEADER_SIZE]))
  }

  lemma SameHeader(a: seq<Byte>, b: seq<Byte>)
    ensures |a| >= HEADER_SIZE ==>
              (a + b)[..HEADER_SIZE] == a[..HEADER_SIZE] && (a + b)[LENGTH_OFFSET] == a[LENGTH_OFFSET]
  {
  }

  /** More bytes only matter after what is left over; nothing matters after an invalid header. */
  lemma {:induction false} ParseMore(protocol: Protocol, a: seq<Byte>, b: seq<Byte>)
    requires protocol.Ok()
    ensures var p := Parse(protocol, a);
            if p.broken then Parse(protocol, a + b).requests == p.requests && Parse(protocol, a + b).broken
            else
              var q := Parse(protocol, p.rest + b);
              Parse(protocol, a + b) == Parsed(p.requests + q.requests, q.rest, q.broken)
    decreases |a|
  {
    SameHeader(a, b);
    if Complete(protocol, a) {
      PacketLength(protocol, a);
      var n := a[LENGTH_OFFSET];
      assert (a + b)[..n] == a[..n] && (a + b)[n..] == a[n..] + b;
      ParseMore(protocol, a[n..], b);
      var t := Parse(protocol, a[n..]);
      var q := Parse(protocol, t.rest + b);
      assert [a[..n]] + (t.requests + q.requests) == ([a[..n]] + t.requests) + q.requests;
    } else {
      var q := Parse(protocol, a + b);
      assert [] + q.requests == q.requests;
    }
  }

  /** The first packet of what is left over follows the requests before it. */
  lemma NextPacket(protocol: Protocol, handled: seq<seq<Byte>>, buffer: seq<Byte>)
    requires protocol.Ok() && Complete(protocol, buffer)
    ensures HEADER_SIZE <= buffer[LENGTH_OFFSET] <= |buffer|
    ensures var n := buffer[LENGTH_OFFSET];
            var p, q := Parse(protocol, buffer), Parse(protocol, buffer[n..]);
            && p.rest == q.rest && p.broken == q.broken
            && handled + p.requests ==
              (if protocol.mine(buffer[..HEADER_SIZE]) then handled + [buffer[..n]] else handled) + q.requests
  {
    PacketLength(protocol, buffer);
  }

  lemma NoPacket(protocol: Protocol, handled: seq<seq<Byte>>, buffer: seq<Byte>)
    requires protocol.Ok() && !Complete(protocol, buffer)
    ensures Parse(protocol, buffer).rest == buffer && handled + Parse(protocol, buffer).requests == handled
    ensures Parse(protocol, buffer).broken <==> |buffer| >= HEADER_SIZE && !protocol.valid(buffer[..HEADER_SIZE])
  {
  }

  /** What socket_receive comes to: bytes, the end of the stream, nothing now, or an error. */
  datatype Received = Data(bytes: seq<Byte>) | Closed | Nothing | Failed

  class Connection {
    const protocol: Protocol
    var request: array<Byte>
    var used: nat
    var headerChecked: bool
    var disconnected: bool
    var lost: bool                       // a response could not be sent, or the peer is gone

    ghost var stream: seq<Byte>          // all bytes received so far
    var handled: seq<seq<Byte>>          // all requests given to api_handle_request
    ghost var packets: nat               // complete packets, dropped ones included
    ghost var checks: nat                // calls of packet_header_is_valid_request

    /** The buffer holds what is left of the stream after the requests handled so far. */
    ghost predicate InStep()
      reads this, request
    {
      && protocol.Ok() && request.Length == PACKET_SIZE && used <= PACKET_SIZE
      && (var p := Parse(protocol, request[..used]);
          Parse(protocol, stream) == Parsed(handled + p.requests, p.rest, p.broken))
      && (headerChecked ==> HeaderIsValid())
      && checks == packets + if headerChecked then 1 else 0
    }

    ghost predicate HeaderIsValid()
      reads this, request
    {
      request.Length == PACKET_SIZE && HEADER_SIZE <= used <= PACKET_SIZE && protocol.valid(request[..HEADER_SIZE])
    }

    /** While connected, exactly the requests of the bytes received so far have been handled,
        and there is room for more. */
    ghost predicate Valid()
      reads this, request
    {
      && protocol.Ok() && request.Length == PACKET_SIZE
      && (!disconnected ==>
          InStep() && used < PACKET_SIZE && !lost && Parse(protocol, stream) == Parsed(handled, request[..used], false))
      && (disconnected && !lost ==> Parse(protocol, stream).requests == handled && Parse(protocol, stream).broken)
      && handled <= Parse(protocol, stream).requests
      && (!lost ==> Answered(|handled|))
    }

    /** The responses to the first n requests could be sent. */
    ghost predicate Answered(n: nat) {
      forall k: nat | k < n :: protocol.answered(k)
    }

    constructor (protocol: Protocol)
      requires protocol.Ok()
      ensures Valid() && stream == [] && handled == [] && !disconnected && this.protocol == protocol
              && checks == packets == 0 && fresh(request)
    {
      this.protocol := protocol;
      request := new Byte[PACKET_SIZE](_ => 0);
      used, headerChecked, disconnected, lost := 0, false, false, false;
      stream, handled, packets, checks := [], [], 0, 0;
    }

    /** brickd_handle_read. */
    method HandleRead(r: Received)
      requires Valid() && !disconnected
      requires r.Data? ==> 0 < |r.bytes| <= PACKET_SIZE - used
      modifies this, request
      ensures Valid() && request == old(request)
      ensures stream == if r.Data? then old(stream) + r.bytes else old(stream)
      ensures old(handled) <= handled
      ensures lost <==> r.Closed? || r.Failed? || !Answered(|handled|)
      ensures !disconnected ==> checks <= packets + 1 && packets <= checks
    {
      if r.Closed? || r.Failed? {
        disconnected, lost := true, true;
        return;
      }
      if r.Nothing? {
        return;
      }
      Append(r.bytes);
      HandleRequests();
    }

    /** The received bytes go behind those of an incomplete packet. */
    method Append(bytes: seq<Byte>)
      requires Valid() && !disconnected && |bytes| <= PACKET_SIZE - used
      modifies this`used, this`stream, request
      ensures InStep() && stream == old(stream) + bytes && used == old(used) + |bytes|
    {
      ghost var before := request[..used];
      forall k | 0 <= k < |bytes| {
        request[used + k] := bytes[k];
      }
      used := used + |bytes|;
      assert request[..used] == before + bytes;
      assert headerChecked ==> request[..HEADER_SIZE] == old(request[..HEADER_SIZE]);
      ParseMore(protocol, stream, bytes);
      stream := stream + bytes;
    }

    /** The loop over all complete packets in the buffer. */
    method HandleRequests()
      requires InStep() && !disconnected && !lost && Answered(|handled|)
      modifies this`used, this`headerChecked, this`disconnected, this`lost, this`handled, this`packets, this`checks,
                 request
      ensures Valid()
      ensures old(handled) <= handled && (lost <==> !Answered(|handled|))
      ensures !disconnected ==> checks <= packets + 1 && packets <= checks
    {
      hide Parse;
      while !disconnected && used > 0
        invariant InStep() && old(handled) <= handled && lost == disconnected && (lost <==> !Answered(|handled|))
        decreases used, !disconnected
      {
        if used < HEADER_SIZE {
          NoPacket(protocol, handled, request[..used]);
          break;
        }
        assert request[..used][..HEADER_SIZE] == request[..HEADER_SIZE];
        if !headerChecked {
          checks := checks + 1;
          if !protocol.valid(request[..HEADER_SIZE]) {
            disconnected := true;
            NoPacket(protocol, handled, request[..used]);
            return;
          }
          headerChecked := true;
        }
        var length := request[LENGTH_OFFSET];
        if used < length {
          PacketLength(protocol, request[..used]);
          NoPacket(protocol, handled, request[..used]);
          break;
        }
        Handle(length);
      }
      if used == 0 {
        NoPacket(protocol, handled, request[..used]);
      }
    }

    /** One complete packet: handled if it is for this device, and moved out of the buffer. */
    method Handle(length: nat)
      requires InStep() && headerChecked && !disconnected && !lost && HeaderIsValid() && Answered(|handled|)
      requires length == request[LENGTH_OFFSET] && length <= used
      modifies this`used, this`headerChecked, this`disconnected, this`lost, this`handled, this`packets, this`checks,
                 request
      ensures InStep() && used == old(used) - length && HEADER_SIZE <= length
      ensures handled == if protocol.mine(old(request[..HEADER_SIZE])) then old(handled) + [old(request[..length])]
              else old(handled)
      ensures lost == disconnected && (lost <==> !Answered(|handled|))
    {
      hide Parse;
      ghost var buffer := request[..used];
      assert buffer[..HEADER_SIZE] == request[..HEADER_SIZE] && buffer[..length] == request[..length];
      NextPacket(protocol, handled, buffer);
      Dispatch(length);
      Shift(length);
      used, headerChecked, packets := used - length, false, packets + 1;
      assert request[..used] == buffer[length..];
    }

    /** Requests for other devices are dropped; sending the response may fail. */
    method Dispatch(length: nat)
      requires request.Length == PACKET_SIZE && length <= PACKET_SIZE && !disconnected && !lost && Answered(|handled|)
      modifies this`handled, this`disconnected, this`lost
      ensures handled == if protocol.mine(request[..HEADER_SIZE]) then old(handled) + [request[..length]]
              else old(handled)
      ensures lost == disconnected && (lost <==> !Answered(|handled|))
    {
      if protocol.mine(request[..HEADER_SIZE]) {
        var sent := protocol.answered(|handled|);
        handled := handled + [request[..length]];
        if !sent {
          disconnected, lost := true, true;
        }
      }
    }

    /** memmove of what comes after the first packet. */
    method Shift(length: nat)
      requires request.Length == PACKET_SIZE && length <= used <= PACKET_SIZE
      modifies request
      ensures request[..used - length] == old(request[length..used])
    {
      forall k | 0 <= k < used - length {
        request[k] := request[length + k];
      }
    }
  }

  /** A prefix of what the whole stream says. */
  lemma PrefixOfStream(protocol: Protocol, a: seq<Byte>, b: seq<Byte>)
    requires protocol.Ok()
    ensures Parse(protocol, a).requests <= Parse(protocol, a + b).requests
    ensures Parse(protocol, a).broken ==>
              Parse(protocol, a + b).requests == Parse(protocol, a).requests && Parse(protocol, a + b).broken
  {
    ParseMore(protocol, a, b);
  }

  /** However the receives split a stream, the requests handled are those of the whole stream,
      in its order, as long as the connection is not lost; and each packet has its header
      checked once. */
  method ReceiveAll(protocol: Protocol, stream: seq<Byte>, sizes: seq<nat>) returns (c: Connection)
    requires protocol.Ok()
    ensures c.protocol == protocol && c.Valid()
    ensures !c.lost && (c.disconnected || c.stream == stream) ==> c.handled == Parse(protocol, stream).requests
    ensures c.lost <==> !c.Answered(|c.handled|)
    ensures !c.lost ==> (c.disconnected ==> Parse(protocol, stream).broken)
    ensures c.stream <= stream && c.handled <= Parse(protocol, stream).requests
    ensures |sizes| >= |stream| && !c.disconnected ==> c.stream == stream
  {
    hide Complete, Connection.InStep, Cons;
    c := new Connection(protocol);
    var done, i := 0, 0;
    while done < |stream| && !c.disconnected && i < |sizes|
      invariant done <= |stream| && i <= |sizes| && i <= done
      invariant fresh(c) && fresh(c.request) && c.protocol == protocol && c.Valid() && c.stream == stream[..done]
                && (c.lost <==> !c.Answered(|c.handled|))
      decreases |sizes| - i
    {
      var n := if sizes[i] == 0 then 1 else sizes[i];
      if n > PACKET_SIZE - c.used {
        n := PACKET_SIZE - c.used;
      }
      if n > |stream| - done {
        n := |stream| - done;
      }
      assert stream[..done + n] == stream[..done] + stream[done..done + n];
      c.HandleRead(Data(stream[done..done + n]));
      done, i := done + n, i + 1;
    }
    PrefixOfStream(protocol, c.stream, stream[done..]);
    assert stream == stream[..done] + stream[done..];
  }
}
