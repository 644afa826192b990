/** Packet framing: a header of total length and type in network order, then the payload; the
    payload of most packets is a list of length-prefixed fields. */
module Framing {
  import opened Common

  type Byte = b: int | 0 <= b < 256

  type UInt16 = n: int | 0 <= n < 0x1_0000

  const HEADER_SIZE: int := 4
  const MAX_PACKET_SIZE: int := 16 * 1024
  const MAX_FIELD_SIZE: int := 0xFFFF

  datatype Packet = Packet(ptype: UInt16, payload: seq<Byte>)

  function HtoN(n: UInt16): seq<Byte> { [n / 256, n % 256] }

  function NtoH(hi: Byte, lo: Byte): UInt16 { hi * 256 + lo }

  lemma NetworkOrder(n: UInt16)
    ensures NtoH(HtoN(n)[0], HtoN(n)[1]) == n
  {
  }

  // ---------------------------------------------------------------- whole packets

  /** `None` is the length error the maker throws. */
  function MakePacket(ptype: UInt16, body: seq<Byte>): Option<seq<Byte>> {
    if |body| > MAX_PACKET_SIZE - HEADER_SIZE then None
    else Some(HtoN(HEADER_SIZE + |body|) + HtoN(ptype) + body)
  }

  datatype Parse = NeedMoreData | InvalidPacket | Complete(packet: Packet, rest: seq<Byte>)

  function TryParse(buf: seq<Byte>): Parse {
    if |buf| < HEADER_SIZE then NeedMoreData
    else
      var length := NtoH(buf[0], buf[1]);
      if length < HEADER_SIZE || length > MAX_PACKET_SIZE then InvalidPacket
      else if |buf| < length then NeedMoreData
      else Complete(Packet(NtoH(buf[2], buf[3]), buf[HEADER_SIZE..length]), buf[length..])
  }

  /** The whole decision: the first two bytes are the length, in network order, and must be from 4 to
      16384 as soon as four bytes are there; the next two are the type, the rest up to the length the
      payload, and what follows stays. */
  lemma ParseDecides(buf: seq<Byte>)
    ensures TryParse(buf).InvalidPacket? <==> |buf| >= 4 && !(4 <= Announced(buf) <= 16384)
    ensures TryParse(buf).Complete? <==> |buf| >= 4 && 4 <= Announced(buf) <= 16384 && Announced(buf) <= |buf|
    ensures TryParse(buf).Complete? ==>
              TryParse(buf) == Complete(Packet((buf[2] as int) * 256 + buf[3] as int, buf[4..Announced(buf)]),
                                        buf[Announced(buf)..])
  {
  }

  /** The length in the header: the first byte counts 256, the second 1. */
  function Announced(buf: seq<Byte>): int
    requires |buf| >= 4
  {
    (buf[0] as int) * 256 + buf[1] as int
  }

  /** A packet can be made exactly up to 16380 bytes of payload. */
  lemma MakesIff(ptype: UInt16, body: seq<Byte>)
    ensures MakePacket(ptype, body).Some? <==> |body| <= 16380
    ensures MakePacket(ptype, body).Some? ==> |MakePacket(ptype, body).value| == 4 + |body|
  {
  }

  /** A made packet parses back, whatever follows it. */
  lemma ParseMade(p: Packet, more: seq<Byte>)
    requires MakePacket(p.ptype, p.payload).Some?
    ensures TryParse(MakePacket(p.ptype, p.payload).value + more) == Complete(p, more)
  {
    var bytes := MakePacket(p.ptype, p.payload).value;
    var buf := bytes + more;
    NetworkOrder(HEADER_SIZE + |p.payload|);
    NetworkOrder(p.ptype);
    assert buf[0] == HtoN(|bytes|)[0] && buf[1] == HtoN(|bytes|)[1];
    assert buf[2] == HtoN(p.ptype)[0] && buf[3] == HtoN(p.ptype)[1];
    assert buf[HEADER_SIZE..|bytes|] == p.payload;
    assert buf[|bytes|..] == more;
  }

  /** More bytes never change a decision already made. */
  lemma ParseStable(buf: seq<Byte>, more: seq<Byte>)
    ensures TryParse(buf).InvalidPacket? ==> TryParse(buf + more).InvalidPacket?
    ensures TryParse(buf).Complete? ==>
              TryParse(buf + more) == Complete(TryParse(buf).packet, TryParse(buf).rest + more)
  {
    if |buf| >= HEADER_SIZE {
      var length := NtoH(buf[0], buf[1]);
      assert (buf + more)[0] == buf[0] && (buf + more)[1] == buf[1];
      if TryParse(buf).Complete? {
        assert (buf + more)[HEADER_SIZE..length] == buf[HEADER_SIZE..length];
        assert (buf + more)[length..] == buf[length..] + more;
      }
    }
  }

  // ---------------------------------------------------------------- the receive loop

  datatype Drained = Drained(packets: seq<Packet>, rest: seq<Byte>, ok: bool)

  function Onto(before: seq<Packet>, d: Drained): Drained { d.(packets := before + d.packets) }

  function Drain(buf: seq<Byte>): Drained
    decreases |buf|
  {
    match TryParse(buf)
    case NeedMoreData => Drained([], buf, true)
    case InvalidPacket => Drained([], buf, false)
    case Complete(p, rest) => Onto([p], Drain(rest))
  }

  class Receiver {
    var recvBuf: seq<Byte>

    constructor ()
      ensures recvBuf == []
    {
      recvBuf := [];
    }

    /** Appends the bytes and dispatches every whole packet; false drops the connection. */
    method OnBytes(data: seq<Byte>) returns (ok: bool, dispatched: seq<Packet>)
      modifies this
      ensures Drained(dispatched, recvBuf, ok) == Drain(old(recvBuf) + data)
    {
      recvBuf := recvBuf + data;
      dispatched := [];
      while true
        invariant var d := Drain(recvBuf); d.(packets := dispatched + d.packets) == Drain(old(recvBuf) + data)
        decreases |recvBuf|
      {
        match TryParse(recvBuf) {
          case NeedMoreData =>
            assert dispatched + [] == dispatched;
            return true, dispatched;
          case InvalidPacket =>
            assert dispatched + [] == dispatched;
            return false, dispatched;
          case Complete(p, rest) =>
            assert dispatched + ([p] + Drain(rest).packets) == dispatched + [p] + Drain(rest).packets;
            dispatched := dispatched + [p];
            recvBuf := rest;
        }
      }
    }
  }

  /** What is left over waits for the rest of one packet: always less than the largest packet. */
  lemma {:induction false} LeftoverIsShort(buf: seq<Byte>)
    ensures Drain(buf).ok ==> |Drain(buf).rest| < 16384 && TryParse(Drain(buf).rest).NeedMoreData?
    decreases |buf|
  {
    if TryParse(buf).Complete? {
      LeftoverIsShort(TryParse(buf).rest);
    }
  }

  /** Draining in two goes is draining at once; a stream found invalid stays invalid. */
  lemma {:induction false} DrainSplit(a: seq<Byte>, b: seq<Byte>)
    ensures Drain(a).ok ==> Drain(a + b) == Onto(Drain(a).packets, Drain(Drain(a).rest + b))
    ensures !Drain(a).ok ==> Drain(a + b).packets == Drain(a).packets && !Drain(a + b).ok
    decreases |a|
  {
    ParseStable(a, b);
    match TryParse(a)
    case NeedMoreData => assert [] + Drain(a + b).packets == Drain(a + b).packets;
    case InvalidPacket =>
    case Complete(p, rest) =>
      DrainSplit(rest, b);
      assert Drain(a + b) == Onto([p], Drain(rest + b));
      if Drain(rest).ok { OntoTwice([p], Drain(rest).packets, Drain(Drain(rest).rest + b)); }
  }

  lemma OntoTwice(x: seq<Packet>, y: seq<Packet>, d: Drained)
    ensures Onto(x, Onto(y, d)) == Onto(x + y, d)
  {
    assert x + (y + d.packets) == (x + y) + d.packets;
  }

  function Flatten(chunks: seq<seq<Byte>>): seq<Byte> {
    if chunks == [] then [] else chunks[0] + Flatten(chunks[1..])
  }

  /** The session over a sequence of receive calls: it stops at the first invalid packet. */
  function Feed(buf: seq<Byte>, chunks: seq<seq<Byte>>): Drained
    decreases |chunks|
  {
    if chunks == [] then Drained([], buf, true)
    else
      var d := Drain(buf + chunks[0]);
      if !d.ok then d
      else var f := Feed(d.rest, chunks[1..]); f.(packets := d.packets + f.packets)
  }

  /** How the stream is cut into chunks makes no difference, valid or not. */
  lemma {:induction false} ChunkingIsInvisible(buf: seq<Byte>, chunks: seq<seq<Byte>>)
    requires TryParse(buf).NeedMoreData?
    ensures Feed(buf, chunks).packets == Drain(buf + Flatten(chunks)).packets
    ensures Feed(buf, chunks).ok == Drain(buf + Flatten(chunks)).ok
    ensures Feed(buf, chunks).ok ==> Feed(buf, chunks).rest == Drain(buf + Flatten(chunks)).rest
    decreases |chunks|
  {
    if chunks == [] {
      assert buf + Flatten(chunks) == buf;
    } else {
      assert buf + Flatten(chunks) == buf + chunks[0] + Flatten(chunks[1..]);
      DrainSplit(buf + chunks[0], Flatten(chunks[1..]));
      var d := Drain(buf + chunks[0]);
      if d.ok {
        LeftoverIsShort(buf + chunks[0]);
        ChunkingIsInvisible(d.rest, chunks[1..]);
      }
    }
  }

  // ---------------------------------------------------------------- a stream of made packets

  predicate Sendable(ps: seq<Packet>) { forall p | p in ps :: MakePacket(p.ptype, p.payload).Some? }

  function Encode(p: Packet): seq<Byte>
    requires MakePacket(p.ptype, p.payload).Some?
  {
    MakePacket(p.ptype, p.payload).value
  }

  function Stream(ps: seq<Packet>): seq<Byte>
    requires Sendable(ps)
  {
    if ps == [] then [] else Encode(ps[0]) + Stream(ps[1..])
  }

  lemma {:induction false} DrainStream(ps: seq<Packet>)
    requires Sendable(ps)
    ensures Drain(Stream(ps)) == Drained(ps, [], true)
  {
    if ps != [] {
      ParseMade(ps[0], Stream(ps[1..]));
      DrainStream(ps[1..]);
    }
  }

  /** Any part of the stream received so far has dispatched a prefix of the packets, in order. */
  lemma PartialStream(ps: seq<Packet>, chunks: seq<seq<Byte>>)
    requires Sendable(ps) && Flatten(chunks) <= Stream(ps)
    ensures Feed([], chunks).ok && Feed([], chunks).packets <= ps
    ensures Flatten(chunks) == Stream(ps) ==> Feed([], chunks).packets == ps && Feed([], chunks).rest == []
  {
    var got := Flatten(chunks);
    var missing := Stream(ps)[|got|..];
    assert Stream(ps) == got + missing;
    assert [] + got == got;
    ChunkingIsInvisible([], chunks);
    DrainStream(ps);
    DrainSplit(got, missing);
  }

  // ---------------------------------------------------------------- fields

  /** A field behind its length. */
  function FieldBytes(f: seq<Byte>): (r: seq<Byte>)
    requires |f| <= MAX_FIELD_SIZE
    ensures |r| == 2 + |f|
  {
    HtoN(|f|) + f
  }

  function BodyOf(fields: seq<seq<Byte>>): Option<seq<Byte>> {
    if fields == [] then Some([])
    else if |fields[0]| > MAX_FIELD_SIZE then None
    else match BodyOf(fields[1..])
      case None => None
      case Some(rest) => Some(FieldBytes(fields[0]) + rest)
  }

  /** The maker's loop; `None` is the length error it throws. */
  method MakeBody(fields: seq<seq<Byte>>) returns (body: Option<seq<Byte>>)
    ensures body == BodyOf(fields)
  {
    var sofar: seq<Byte> := [];
    assert fields[0..] == fields && forall rest: seq<Byte> :: sofar + rest == rest;
    for i := 0 to |fields|
      invariant BodyOf(fields) == match BodyOf(fields[i..]) case None => None case Some(rest) => Some(sofar + rest)
    {
      assert fields[i..][1..] == fields[i + 1..];
      if |fields[i]| > MAX_FIELD_SIZE { return None; }
      ghost var rest := BodyOf(fields[i + 1..]);
      ghost var f := FieldBytes(fields[i]);
      assert rest.Some? ==> sofar + (f + rest.value) == (sofar + f) + rest.value;
      assert sofar + HtoN(|fields[i]|) + fields[i] == sofar + FieldBytes(fields[i]);
      sofar := sofar + HtoN(|fields[i]|) + fields[i];
    }
    assert sofar + [] == sofar;
    return Some(sofar);
  }

  datatype FieldResult = Field(value: seq<Byte>, next: nat) | HeaderOverflow | LengthOverflow(next: nat)

  function ParseField(payload: seq<Byte>, offset: nat): FieldResult {
    if offset > |payload| || |payload| - offset < 2 then HeaderOverflow
    else
      var length := NtoH(payload[offset], payload[offset + 1]);
      if |payload| - (offset + 2) < length then LengthOverflow(offset + 2)
      else Field(payload[offset + 2..offset + 2 + length], offset + 2 + length)
  }

  /** A reader that takes fields until the payload is used up. */
  function ReadFields(payload: seq<Byte>, offset: nat): Option<seq<seq<Byte>>>
    decreases |payload| - offset
  {
    if offset == |payload| then Some([])
    else match ParseField(payload, offset)
      case Field(value, next) =>
        (match ReadFields(payload, next)
         case None => None
         case Some(rest) => Some([value] + rest))
      case _ => None
  }

  lemma FieldReads(before: seq<Byte>, f: seq<Byte>, more: seq<Byte>)
    requires |f| <= MAX_FIELD_SIZE
    ensures ParseField(before + FieldBytes(f) + more, |before|) == Field(f, |before + FieldBytes(f)|)
  {
    var header := HtoN(|f|);
    var payload := before + FieldBytes(f) + more;
    NetworkOrder(|f|);
    assert payload[|before|] == header[0] && payload[|before| + 1] == header[1];
    assert payload[|before| + 2..|before| + 2 + |f|] == f;
  }

  /** What reading a payload from behind a field means for reading it from in front of it. */
  lemma ReadOneField(before: seq<Byte>, f: seq<Byte>, more: seq<Byte>, rest: seq<seq<Byte>>)
    requires |f| <= MAX_FIELD_SIZE
    requires ReadFields(before + FieldBytes(f) + more, |before + FieldBytes(f)|) == Some(rest)
    ensures ReadFields(before + FieldBytes(f) + more, |before|) == Some([f] + rest)
  {
    FieldReads(before, f, more);
  }

  lemma Regroup(a: seq<Byte>, b: seq<Byte>, c: seq<Byte>)
    ensures a + (b + c) == a + b + c
  {
  }

  lemma ReadNone(before: seq<Byte>)
    ensures ReadFields(before + [], |before|) == Some([])
  {
  }

  /** Reading from anywhere in a payload depends only on what follows. */
  lemma {:induction false} ReadFieldsAfter(before: seq<Byte>, fields: seq<seq<Byte>>)
    requires BodyOf(fields).Some?
    ensures ReadFields(before + BodyOf(fields).value, |before|) == Some(fields)
    decreases |fields|
  {
    if fields == [] {
      ReadNone(before);
    } else {
      var f, more := fields[0], BodyOf(fields[1..]).value;
      ReadFieldsAfter(before + FieldBytes(f), fields[1..]);
      ReadOneField(before, f, more, fields[1..]);
      Regroup(before, FieldBytes(f), more);
      assert [f] + fields[1..] == fields;
    }
  }

  /** Field lists survive a trip through a body and back. */
  lemma FieldsRoundTrip(fields: seq<seq<Byte>>)
    requires forall f | f in fields :: |f| <= 65535
    ensures BodyOf(fields).Some? && ReadFields(BodyOf(fields).value, 0) == Some(fields)
  {
    BodyExists(fields);
    assert [] + BodyOf(fields).value == BodyOf(fields).value;
    ReadFieldsAfter([], fields);
  }

  lemma {:induction false} BodyExists(fields: seq<seq<Byte>>)
    ensures BodyOf(fields).Some? <==> forall f | f in fields :: |f| <= 65535
  {
    if fields != [] {
      BodyExists(fields[1..]);
      assert forall f :: f in fields <==> f == fields[0] || f in fields[1..];
    }
  }
}
