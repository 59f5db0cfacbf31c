/** Packets of the HCI UART transport and a reference parser for the byte stream that carries them.

    The reference parser works on a whole stream at once, one frame per step.  It knows nothing of
    reads, headers in progress or byte counters; HciPacketizer and H4Protocol are proved against it. */
module HciPackets {
  type byte = b: int | 0 <= b < 256

  // Packet types (Bluetooth Core Specification, Volume 4, Part A, section 2).
  const UNKNOWN: byte := 0
  const COMMAND: byte := 1
  const ACL_DATA: byte := 2
  const SCO_DATA: byte := 3
  const EVENT: byte := 4
  const ISO_DATA: byte := 5

  // Indexed by packet type (Volume 4, Part E, sections 5.4.1 to 5.4.5).
  const HEADER_SIZE: seq<nat> := [0, 3, 4, 3, 2, 4]
  const LENGTH_OFFSET: seq<nat> := [0, 2, 2, 2, 1, 2]

  datatype Packet = Packet(kind: byte, body: seq<byte>)

  /** The packets of a stream and the bytes of the frame left unfinished at its end. */
  datatype Parsed = Parsed(packets: seq<Packet>, rest: seq<byte>)

  predicate Framed(kind: byte) {
    1 <= kind <= 5
  }

  /** The value of the length field, little-endian for the two types that use two bytes. */
  function PacketLength(kind: byte, header: seq<byte>): (length: nat)
    requires Framed(kind) && HEADER_SIZE[kind] <= |header|
    ensures length < 0x10000
    ensures kind != ACL_DATA && kind != ISO_DATA ==> length < 0x100
  {
    var offset := LENGTH_OFFSET[kind];
    if kind != ACL_DATA && kind != ISO_DATA then header[offset]
    else header[offset + 1] as int * 0x100 + header[offset]
  }

  ghost predicate WellFormed(p: Packet) {
    && Framed(p.kind)
    && HEADER_SIZE[p.kind] <= |p.body|
    && |p.body| == HEADER_SIZE[p.kind] + PacketLength(p.kind, p.body)
  }

  ghost function Frame(p: Packet): seq<byte> {
    [p.kind] + p.body
  }

  ghost function Wire(packets: seq<Packet>): seq<byte> {
    if packets == [] then [] else Frame(packets[0]) + Wire(packets[1..])
  }

  /** The size of a body, known once its header is there. */
  ghost function BodySize(kind: byte, body: seq<byte>): nat
    requires Framed(kind) && HEADER_SIZE[kind] <= |body|
  {
    HEADER_SIZE[kind] + PacketLength(kind, body)
  }

  /** True if `body` does not hold all the bytes of a packet of type `kind` yet. */
  ghost predicate Partial(kind: byte, body: seq<byte>)
    requires Framed(kind)
  {
    |body| < HEADER_SIZE[kind] || |body| < BodySize(kind, body)
  }

  /** Reference parser.  A zero type byte is skipped; it stops at a type byte outside the tables. */
  ghost function Parse(s: seq<byte>): Parsed {
    if s == [] || s[0] > ISO_DATA then Parsed([], s)
    else if s[0] == UNKNOWN then Parse(s[1..])
    else if Partial(s[0], s[1..]) then Parsed([], s)
    else
      var n := 1 + BodySize(s[0], s[1..]);
      var tail := Parse(s[n..]);
      Parsed([Packet(s[0], s[1..n])] + tail.packets, tail.rest)
  }

  /** No type byte of the stream falls outside the tables. */
  ghost predicate TypesInTable(s: seq<byte>) {
    var rest := Parse(s).rest;
    rest == [] || rest[0] <= ISO_DATA
  }

  lemma ParseUnfinished(kind: byte, body: seq<byte>)
    requires Framed(kind) && Partial(kind, body)
    ensures Parse([kind] + body) == Parsed([], [kind] + body)
  {
    assert ([kind] + body)[1..] == body;
  }

  /** A complete first frame is taken off the stream whatever follows it. */
  lemma ParseFirst(a: seq<byte>, b: seq<byte>)
    requires a != [] && Framed(a[0]) && !Partial(a[0], a[1..])
    ensures
      var n := 1 + BodySize(a[0], a[1..]);
      var tail := Parse(a[n..] + b);
      Parse(a + b) == Parsed([Packet(a[0], a[1..n])] + tail.packets, tail.rest)
  {
    var n, s := 1 + BodySize(a[0], a[1..]), a + b;
    assert s[0] == a[0];
    assert s[1..] == a[1..] + b;
    SizeInHeader(a[0], a[1..], b);
    assert s[1..n] == a[1..n];
    assert s[n..] == a[n..] + b;
  }

  lemma SizeInHeader(kind: byte, body: seq<byte>, more: seq<byte>)
    requires Framed(kind) && !Partial(kind, body)
    ensures !Partial(kind, body + more) && BodySize(kind, body + more) == BodySize(kind, body)
  {
  }

  /** Without anything behind it, the first frame comes off as well. */
  lemma ParseFirstAlone(a: seq<byte>)
    requires a != [] && Framed(a[0]) && !Partial(a[0], a[1..])
    ensures
      var n := 1 + BodySize(a[0], a[1..]);
      var tail := Parse(a[n..]);
      Parse(a) == Parsed([Packet(a[0], a[1..n])] + tail.packets, tail.rest)
  {
  }

  /** If parsing in two pieces works behind the first frame, it works with it. */
  lemma AppendBehindFirst(a: seq<byte>, b: seq<byte>)
    requires a != [] && Framed(a[0]) && !Partial(a[0], a[1..])
    requires
      var tail := a[1 + BodySize(a[0], a[1..])..];
      var later := Parse(Parse(tail).rest + b);
      Parse(tail + b) == Parsed(Parse(tail).packets + later.packets, later.rest)
    ensures
      var later := Parse(Parse(a).rest + b);
      Parse(a + b) == Parsed(Parse(a).packets + later.packets, later.rest)
  {
    hide Parse;
    ParseFirst(a, b);
    ParseFirstAlone(a);
    var tail := Parse(a[1 + BodySize(a[0], a[1..])..]);
    var first := [Packet(a[0], a[1..1 + BodySize(a[0], a[1..])])];
    var later := Parse(tail.rest + b);
    assert (first + tail.packets) + later.packets == first + (tail.packets + later.packets);
  }

  /** Parsing a stream in two pieces, carrying the unfinished frame over, is parsing it whole. */
  lemma {:induction false} ParseAppend(a: seq<byte>, b: seq<byte>)
    ensures
      var later := Parse(Parse(a).rest + b);
      Parse(a + b) == Parsed(Parse(a).packets + later.packets, later.rest)
    decreases |a|
  {
    if a == [] || a[0] > ISO_DATA {
      assert Parse(a) == Parsed([], a);
    } else if a[0] == UNKNOWN {
      assert (a + b)[1..] == a[1..] + b;
      ParseAppend(a[1..], b);
    } else if Partial(a[0], a[1..]) {
      assert Parse(a) == Parsed([], a);
    } else {
      ParseAppend(a[1 + BodySize(a[0], a[1..])..], b);
      AppendBehindFirst(a, b);
    }
  }

  /** What is left over cannot be parsed further: it is empty, unfinished or outside the tables. */
  lemma {:induction false} RestIsSettled(s: seq<byte>)
    ensures Parse(Parse(s).rest) == Parsed([], Parse(s).rest)
    ensures var rest := Parse(s).rest; rest != [] ==> rest[0] != UNKNOWN
    decreases |s|
  {
    if s == [] || s[0] > ISO_DATA {
    } else if s[0] == UNKNOWN {
      RestIsSettled(s[1..]);
    } else if !Partial(s[0], s[1..]) {
      RestIsSettled(s[1 + BodySize(s[0], s[1..])..]);
    }
  }

  /** A prefix of a readable stream is readable. */
  lemma PrefixInTable(a: seq<byte>, b: seq<byte>)
    requires TypesInTable(a + b)
    ensures TypesInTable(a)
  {
    ParseAppend(a, b);
  }

  /** Everything the parser delivers is a well-formed packet. */
  lemma {:induction false} ParseIsSound(s: seq<byte>)
    ensures forall i :: 0 <= i < |Parse(s).packets| ==> WellFormed(Parse(s).packets[i])
    decreases |s|
  {
    if s == [] || s[0] > ISO_DATA {
    } else if s[0] == UNKNOWN {
      ParseIsSound(s[1..]);
    } else if !Partial(s[0], s[1..]) {
      var n := 1 + BodySize(s[0], s[1..]);
      LengthInHeader(s[0], s[1..], n - 1);
      assert s[1..][..n - 1] == s[1..n];
      ParseIsSound(s[n..]);
    }
  }

  lemma LengthInHeader(kind: byte, body: seq<byte>, n: nat)
    requires Framed(kind) && HEADER_SIZE[kind] <= n <= |body|
    ensures PacketLength(kind, body[..n]) == PacketLength(kind, body)
  {
  }

  /** The first frame of a stream, when it is well formed, comes out first and whole. */
  lemma ParseFrame(p: Packet, tail: seq<byte>)
    requires WellFormed(p)
    ensures Parse(Frame(p) + tail) == Parsed([p] + Parse(tail).packets, Parse(tail).rest)
  {
    var s := Frame(p) + tail;
    assert s[0] == p.kind && s[1..] == p.body + tail;
    var n := 1 + |p.body|;
    assert (p.body + tail)[..|p.body|] == p.body;
    LengthInHeader(p.kind, p.body + tail, |p.body|);
    assert s[1..n] == p.body && s[n..] == tail;
  }

  // ---------- The wire format, byte by byte ----------

  /** ACL and ISO data: two bytes of handle, then the length in two bytes, the low one first. */
  lemma DataOnTheWire(kind: byte, a: byte, b: byte, payload: seq<byte>, tail: seq<byte>)
    requires (kind == 2 || kind == 5) && |payload| < 0x10000
    ensures
      var body := [a, b, |payload| % 256, |payload| / 256] + payload;
      Parse([kind] + body + tail) == Parsed([Packet(kind, body)] + Parse(tail).packets, Parse(tail).rest)
  {
    ParseFrame(Packet(kind, [a, b, |payload| % 256, |payload| / 256] + payload), tail);
  }

  /** Commands and SCO data: two bytes, then the length in one byte. */
  lemma CommandOnTheWire(kind: byte, a: byte, b: byte, payload: seq<byte>, tail: seq<byte>)
    requires (kind == 1 || kind == 3) && |payload| < 256
    ensures
      var body := [a, b, |payload|] + payload;
      Parse([kind] + body + tail) == Parsed([Packet(kind, body)] + Parse(tail).packets, Parse(tail).rest)
  {
    ParseFrame(Packet(kind, [a, b, |payload|] + payload), tail);
  }

  /** Events: the event code, then the length in one byte. */
  lemma EventOnTheWire(code: byte, payload: seq<byte>, tail: seq<byte>)
    requires |payload| < 256
    ensures
      var body := [code, |payload|] + payload;
      Parse([4] + body + tail) == Parsed([Packet(4, body)] + Parse(tail).packets, Parse(tail).rest)
  {
    ParseFrame(Packet(4, [code, |payload|] + payload), tail);
  }

  /** As long as the last byte of a frame is missing nothing is delivered, and nothing is given up. */
  lemma CutFrameWaits(p: Packet, n: nat)
    requires WellFormed(p) && 1 <= n < |Frame(p)|
    ensures Parse(Frame(p)[..n]) == Parsed([], Frame(p)[..n])
  {
    var body := Frame(p)[..n][1..];
    assert body == p.body[..n - 1];
    if HEADER_SIZE[p.kind] <= |body| {
      LengthInHeader(p.kind, p.body, |body|);
    }
  }

  /** Framing round trip: the frames of well-formed packets parse back to those packets. */
  lemma {:induction false} FramingRoundTrip(packets: seq<Packet>)
    requires forall i :: 0 <= i < |packets| ==> WellFormed(packets[i])
    ensures Parse(Wire(packets)) == Parsed(packets, [])
  {
    if packets != [] {
      var tail := Wire(packets[1..]);
      assert Parse(Frame(packets[0]) + tail) == Parsed([packets[0]] + packets[1..], []) by {
        FramingRoundTrip(packets[1..]);
        ParseFrame(packets[0], tail);
      }
      assert packets == [packets[0]] + packets[1..];
    }
  }

  /** A stream cut into reads, parsed read by read with the unfinished frame carried over. */
  ghost function ParseReads(pending: seq<byte>, chunks: seq<seq<byte>>): Parsed
    decreases |chunks|
  {
    if chunks == [] then Parsed([], pending)
    else
      var first := Parse(pending + chunks[0]);
      var later := ParseReads(first.rest, chunks[1..]);
      Parsed(first.packets + later.packets, later.rest)
  }

  ghost function Concat(chunks: seq<seq<byte>>): seq<byte> {
    if chunks == [] then [] else chunks[0] + Concat(chunks[1..])
  }

  lemma ChunkStep(pending: seq<byte>, chunk: seq<byte>, tail: seq<byte>)
    ensures
      var first := Parse(pending + chunk);
      var later := Parse(first.rest + tail);
      Parse(pending + (chunk + tail)) == Parsed(first.packets + later.packets, later.rest)
  {
    ParseAppend(pending + chunk, tail);
    assert pending + (chunk + tail) == pending + chunk + tail;
  }

  /** Chunking does not matter: any way to cut a stream into reads gives what the whole gives. */
  lemma {:induction false} ChunkingIrrelevant(pending: seq<byte>, chunks: seq<seq<byte>>)
    requires Parse(pending) == Parsed([], pending)
    ensures ParseReads(pending, chunks) == Parse(pending + Concat(chunks))
    decreases |chunks|
  {
    if chunks == [] {
      assert pending + [] == pending;
    } else {
      RestIsSettled(pending + chunks[0]);
      ChunkingIrrelevant(Parse(pending + chunks[0]).rest, chunks[1..]);
      ChunkStep(pending, chunks[0], Concat(chunks[1..]));
    }
  }

  /** Packets sent as frames and read back in any pieces arrive unchanged, with nothing left over. */
  lemma TransportRoundTrip(packets: seq<Packet>, chunks: seq<seq<byte>>)
    requires forall i :: 0 <= i < |packets| ==> WellFormed(packets[i])
    requires Concat(chunks) == Wire(packets)
    ensures ParseReads([], chunks) == Parsed(packets, [])
    ensures TypesInTable(Concat(chunks))
  {
    FramingRoundTrip(packets);
    ChunkingIrrelevant([], chunks);
    assert [] + Concat(chunks) == Wire(packets);
  }
}
