/** The H4 transport: splits a UART byte stream into packets and writes packets as frames. */
module H4Protocols {
  import opened Basics
  import opened HciPackets
  import opened HciPacketizers

  /** The five packet callbacks handed to the constructor, and the abort on any other packet type. */
  datatype Callback = CmdCb | AclCb | ScoCb | EventCb | IsoCb | Abort

  datatype Delivery = Delivery(callback: Callback, packet: seq<byte>)

  const CALLBACKS := [Abort, CmdCb, AclCb, ScoCb, EventCb, IsoCb]

  function CallbackFor(kind: byte): Callback {
    if kind < |CALLBACKS| then CALLBACKS[kind] else Abort
  }

  /** The callbacks that a list of packets leads to. */
  ghost function Deliveries(packets: seq<Packet>): seq<Delivery> {
    if packets == [] then []
    else [Delivery(CallbackFor(packets[0].kind), packets[0].body)] + Deliveries(packets[1..])
  }

  /** Each of the five packet types has its own callback. */
  lemma PacketsReachTheirCallbacks(body: seq<byte>)
    ensures Deliveries([Packet(1, body)]) == [Delivery(CmdCb, body)]
    ensures Deliveries([Packet(2, body)]) == [Delivery(AclCb, body)]
    ensures Deliveries([Packet(3, body)]) == [Delivery(ScoCb, body)]
    ensures Deliveries([Packet(4, body)]) == [Delivery(EventCb, body)]
    ensures Deliveries([Packet(5, body)]) == [Delivery(IsoCb, body)]
  {
    forall kind: byte ensures Deliveries([Packet(kind, body)]) == [Delivery(CallbackFor(kind), body)] {
      assert [Packet(kind, body)][1..] == [];
    }
  }

  /** The deliveries follow the packets one by one. */
  lemma {:induction false} DeliveriesInOrder(packets: seq<Packet>, i: nat)
    requires i < |packets|
    ensures |Deliveries(packets)| == |packets|
    ensures [Deliveries(packets)[i]] == Deliveries([packets[i]])
  {
    assert [packets[i]][1..] == [];
    if i > 0 {
      DeliveriesInOrder(packets[1..], i - 1);
    } else if |packets| > 1 {
      DeliveriesInOrder(packets[1..], 0);
    } else {
      assert packets[1..] == [];
    }
  }

  lemma {:induction false} DeliveriesAppend(a: seq<Packet>, b: seq<Packet>)
    ensures Deliveries(a + b) == Deliveries(a) + Deliveries(b)
    ensures Deliveries([]) == []
  {
    if a == [] {
      assert a + b == b;
    } else {
      assert (a + b)[0] == a[0] && (a + b)[1..] == a[1..] + b;
      DeliveriesAppend(a[1..], b);
      var first := [Delivery(CallbackFor(a[0].kind), a[0].body)];
      assert first + (Deliveries(a[1..]) + Deliveries(b)) == first + Deliveries(a[1..]) + Deliveries(b);
    }
  }

  /** The outcome of one read(2) on the UART. */
  datatype ReadResult = Bytes(bytes: seq<byte>) | EndOfFile | ReadError

  /** The outcome of one writev(2): it never writes more than it was asked to. */
  datatype WriteResult = Wrote(n: nat) | TryAgain | WriteError

  /** One entry of the vector handed to writev: `len` bytes of `buf` from `base` on. */
  datatype IoVec = IoVec(buf: seq<byte>, base: nat, len: nat) {
    predicate Valid() {
      base + len <= |buf|
    }

    function Bytes(): seq<byte>
      requires Valid()
    {
      buf[base..base + len]
    }
  }

  predicate AllValid(iov: seq<IoVec>) {
    forall i :: 0 <= i < |iov| ==> iov[i].Valid()
  }

  /** The bytes an array of entries still has to write; their number is the sum of the lengths. */
  function Gather(iov: seq<IoVec>): (bytes: seq<byte>)
    requires AllValid(iov)
    ensures |bytes| == SumOfLengths(iov)
  {
    if iov == [] then [] else iov[0].Bytes() + Gather(iov[1..])
  }

  function SumOfLengths(iov: seq<IoVec>): nat {
    if iov == [] then 0 else iov[0].len + SumOfLengths(iov[1..])
  }

  /** The bytes that the writes will take before the first of them fails. */
  function Offered(script: seq<WriteResult>): nat {
    if script == [] || script[0] == WriteError || script[0] == Wrote(0) then 0
    else (if script[0] == TryAgain then 0 else script[0].n) + Offered(script[1..])
  }

  /** How a call of Send came to its end. */
  datatype SendEnd = Complete | ZeroWritten | Failed | StillRetrying

  /** A type byte of a readable stream lies in the tables. */
  lemma TypeByteInTable(before: seq<byte>, after: seq<byte>)
    requires after != [] && TypesInTable(before + after)
    ensures Parse(before).rest == [] ==> after[0] <= ISO_DATA
  {
    var kind := after[..1];
    assert before + after == before + kind + after[1..];
    PrefixInTable(before + kind, after[1..]);
    ParseAppend(before, kind);
    assert [] + kind == kind;
  }

  lemma ZeroByteSkipped()
    ensures Parse([UNKNOWN]) == Parsed([], [])
  {
    assert [UNKNOWN][1..] == [];
  }

  lemma ParseOneFrame(p: Packet)
    requires WellFormed(p)
    ensures Parse([p.kind] + p.body) == Parsed([p], [])
    ensures Deliveries([p]) == [Delivery(CallbackFor(p.kind), p.body)]
  {
    assert [p][1..] == [];
    ParseFrame(p, []);
    assert Frame(p) + [] == [p.kind] + p.body;
  }

  class H4Protocol {
    const packetizer: HciPacketizer
    var packetType: byte
    var disconnected: bool
    var delivered: seq<Delivery>
    var disconnectCalls: nat
    /** Everything written to the UART so far. */
    var wire: seq<byte>

    constructor ()
      ensures Valid() && fresh(packetizer)
      ensures Pending() == [] && delivered == [] && wire == [] && !disconnected
    {
      packetizer := new HciPacketizer();
      packetType := UNKNOWN;
      disconnected, delivered, disconnectCalls, wire := false, [], 0, [];
    }

    ghost predicate Valid()
      reads this, packetizer
    {
      && (packetType == UNKNOWN ==> packetizer.Empty())
      && (packetType != UNKNOWN ==> Framed(packetType) && packetizer.Valid(packetType))
    }

    /** The bytes of the unfinished frame: what the fields remember of the stream read so far. */
    ghost function Pending(): seq<byte>
      requires Valid()
      reads this, packetizer
    {
      if packetType == UNKNOWN then [] else [packetType] + packetizer.Collected()
    }

    method OnPacketReady(packet: seq<byte>)
      modifies this`delivered
      ensures delivered == old(delivered) + [Delivery(CallbackFor(packetType), packet)]
    {
      if packetType == COMMAND {
        delivered := delivered + [Delivery(CmdCb, packet)];
      } else if packetType == ACL_DATA {
        delivered := delivered + [Delivery(AclCb, packet)];
      } else if packetType == SCO_DATA {
        delivered := delivered + [Delivery(ScoCb, packet)];
      } else if packetType == EVENT {
        delivered := delivered + [Delivery(EventCb, packet)];
      } else if packetType == ISO_DATA {
        delivered := delivered + [Delivery(IsoCb, packet)];
      } else {
        delivered := delivered + [Delivery(Abort, packet)];
      }
    }

    /** Feeds one read to the packetizer: delivers what the reference parser finds and keeps the rest. */
    method SendDataToPacketizer(buffer: seq<byte>)
      requires Valid() && TypesInTable(Pending() + buffer)
      modifies this`packetType, this`delivered, packetizer
      ensures Valid()
      ensures delivered == old(delivered) + Deliveries(Parse(old(Pending()) + buffer).packets)
      ensures Pending() == Parse(old(Pending()) + buffer).rest
    {
      hide *;
      ghost var fed, left := Pending(), buffer;
      var offset := 0;
      PendingIsUnfinished();
      DeliveriesAppend([], []);
      while offset < |buffer|
        invariant offset <= |buffer| && left == buffer[offset..]
        invariant fed + left == old(Pending()) + buffer
        invariant Valid() && Pending() == Parse(fed).rest
        invariant delivered == old(delivered) + Deliveries(Parse(fed).packets)
      {
        ghost var chunk, from := left, offset;
        TypeByteInTable(fed, left);
        offset := Consume(buffer, offset);
        chunk, left := buffer[from..offset], buffer[offset..];
        assert chunk + left == buffer[from..];
        ParseAppend(fed, chunk);
        DeliveriesAppend(Parse(fed).packets, Parse(Parse(fed).rest + chunk).packets);
        assert fed + (chunk + left) == fed + chunk + left;
        fed := fed + chunk;
      }
      assert fed == old(Pending()) + buffer;
    }

    /** One pass of the loop: a type byte, or as much of a packet as the buffer holds. */
    method Consume(buffer: seq<byte>, offset: nat) returns (next: nat)
      requires Valid() && offset < |buffer|
      requires Pending() == [] ==> buffer[offset] <= ISO_DATA
      modifies this`packetType, this`delivered, packetizer
      ensures Valid() && offset < next <= |buffer|
      ensures Pending() == Parse(old(Pending()) + buffer[offset..next]).rest
      ensures delivered ==
              old(delivered) + Deliveries(Parse(old(Pending()) + buffer[offset..next]).packets)
    {
      hide Parse, WellFormed, Partial, Deliveries, CallbackFor, PacketLength, BodySize;
      DeliveriesAppend([], []);
      if packetType == UNKNOWN {
        packetType := buffer[offset];
        next := offset + 1;
        assert old(Pending()) + buffer[offset..next] == [packetType];
        assert packetType != UNKNOWN ==> Pending() == [packetType];
        PendingIsUnfinished();
        ZeroByteSkipped();
      } else {
        var ready;
        ready, next := packetizer.OnDataReady(packetType, buffer, offset);
        assert old(Pending()) + buffer[offset..next] == [packetType] + packetizer.packet;
        if ready {
          ParseOneFrame(Packet(packetType, packetizer.packet));
          OnPacketReady(packetizer.packet);
          packetType := UNKNOWN;
        } else {
          PendingIsUnfinished();
        }
      }
    }

    lemma PendingIsUnfinished()
      requires Valid()
      ensures Parse(Pending()) == Parsed([], Pending())
    {
      if packetType != UNKNOWN {
        ParseUnfinished(packetType, packetizer.Collected());
      }
    }

    /** One wake-up of the file descriptor watcher. */
    method OnDataReady(result: ReadResult)
      requires Valid()
      requires result.Bytes? ==> 0 < |result.bytes| && TypesInTable(Pending() + result.bytes)
      modifies this`packetType, this`delivered, this`disconnected, this`disconnectCalls, packetizer
      ensures Valid()
      ensures old(disconnected) || !result.Bytes? ==>
        Pending() == old(Pending()) && delivered == old(delivered)
      ensures !old(disconnected) && result.Bytes? ==>
        && Pending() == Parse(old(Pending()) + result.bytes).rest
        && delivered == old(delivered) + Deliveries(Parse(old(Pending()) + result.bytes).packets)
      ensures disconnected == (old(disconnected) || result.EndOfFile?)
      ensures disconnectCalls == old(disconnectCalls) + (if !old(disconnected) && disconnected then 1 else 0)
    {
      if disconnected {
        return;
      }
      match result {
        case EndOfFile =>
          disconnected := true;
          disconnectCalls := disconnectCalls + 1;
        case ReadError =>
        case Bytes(bytes) =>
          SendDataToPacketizer(bytes);
      }
    }

    /** Writes a frame, retrying after short writes.  `script` gives the outcomes of the writev calls
        in order; a script that ends first leaves the call still retrying.

        `sent` is the counter bytes_written; `ret` is what the caller gets. */
    method Send(kind: byte, data: seq<byte>, script: seq<WriteResult>)
      returns (ret: nat, ghost sent: nat, end: SendEnd)
      modifies this`wire
      ensures sent <= |Frame(Packet(kind, data))|
      ensures wire == old(wire) + Frame(Packet(kind, data))[..sent]
      ensures sent == |Frame(Packet(kind, data))| <==> end == Complete
      ensures end == ZeroWritten ==> Wrote(0) in script
      ensures end == Failed ==> WriteError in script
      ensures sent == Min(Offered(script), |Frame(Packet(kind, data))|)
      // The value returned counts the bytes written exactly when the writes do not take the whole frame.
      ensures ret <= sent && (ret == sent <==> Offered(script) < |Frame(Packet(kind, data))|)
    {
      hide *;
      var iov := NewVector(kind, data);
      var cur := 0;
      var total := 1 + |data|;
      var remaining := total;
      var written := 0;
      var k := 0;
      end := StillRetrying;
      ghost var frame := Frame(Packet(kind, data));
      ghost var done, left: seq<byte> := [], frame;
      SplitStart(frame);
      NothingOffered(script, 0);
      while 0 < remaining && k < |script|
        invariant end == StillRetrying && k <= |script|
        invariant Offered(script) == written + Offered(script[k..])
        invariant 0 < remaining == total - written && |done| == written
        invariant Left(iov, cur, left) && Split(frame, done, left)
        invariant wire == old(wire) + done
        decreases |script| - k
      {
        var result := script[k];
        OfferedStep(script, k);
        k := k + 1;
        if result == TryAgain {
          continue;
        } else if result == WriteError {
          end := Failed;
          break;
        } else if result == Wrote(0) {
          end := ZeroWritten;
          break;
        }
        var n := Writev(iov, cur, result.n, left);
        SplitStep(frame, done, left, n, wire, old(wire));
        ghost var before := left;
        done, left := done + left[..n], left[n..];
        written := written + n;
        if n == remaining {
          end := Complete;
          break;
        }
        remaining := remaining - n;
        cur := DropWritten(iov, cur, n, before);
      }
      NothingOffered(script, k);
      SplitEnd(frame, done, left);
      ret, sent := total - remaining, written;
    }

    method Writev(iov: array<IoVec>, cur: nat, wanted: nat, ghost left: seq<byte>) returns (n: nat)
      requires Left(iov, cur, left)
      modifies this`wire
      ensures n == Min(wanted, |left|)
      ensures wire == old(wire) + left[..n]
    {
      n := Min(wanted, SumOfLengths(iov[cur..]));
      wire := wire + Gather(iov[cur..])[..n];
    }
  }

  lemma OfferedStep(script: seq<WriteResult>, k: nat)
    requires k < |script|
    ensures Offered(script[k..]) == match script[k]
      case WriteError => 0
      case TryAgain => Offered(script[k + 1..])
      case Wrote(n) => if n == 0 then 0 else n + Offered(script[k + 1..])
  {
    assert script[k..][1..] == script[k + 1..];
  }

  lemma NothingOffered(script: seq<WriteResult>, k: nat)
    requires k <= |script|
    ensures k == |script| ==> Offered(script[k..]) == 0
    ensures Offered(script[0..]) == Offered(script)
  {
    assert script[0..] == script;
  }

  /** The entries from `cur` on still have to write exactly `left`. */
  ghost predicate Left(iov: array<IoVec>, cur: nat, left: seq<byte>)
    reads iov
  {
    cur <= iov.Length && AllValid(iov[cur..]) && Gather(iov[cur..]) == left
  }

  /** A frame cut into the bytes written and the bytes left. */
  ghost predicate Split(frame: seq<byte>, done: seq<byte>, left: seq<byte>) {
    done + left == frame
  }

  lemma SplitStart(frame: seq<byte>)
    ensures Split(frame, [], frame) && forall wire: seq<byte> :: wire + [] == wire
  {
  }

  lemma SplitStep(frame: seq<byte>, done: seq<byte>, left: seq<byte>, n: nat,
                  wire: seq<byte>, start: seq<byte>)
    requires Split(frame, done, left) && n <= |left| && wire == start + done + left[..n]
    ensures |left| == |frame| - |done|
    ensures Split(frame, done + left[..n], left[n..]) && |done + left[..n]| == |done| + n
    ensures wire == start + (done + left[..n])
  {
  }

  lemma SplitEnd(frame: seq<byte>, done: seq<byte>, left: seq<byte>)
    requires Split(frame, done, left)
    ensures |done| <= |frame| && frame[..|done|] == done
  {
  }

  method NewVector(kind: byte, data: seq<byte>) returns (iov: array<IoVec>)
    ensures fresh(iov) && Left(iov, 0, Frame(Packet(kind, data)))
    ensures |Frame(Packet(kind, data))| == 1 + |data|
  {
    iov := new IoVec[2];
    iov[0], iov[1] := IoVec([kind], 0, 1), IoVec(data, 0, |data|);
    assert iov[0..] == [IoVec([kind], 0, 1), IoVec(data, 0, |data|)];
    GatherFrame(kind, data);
  }

  lemma GatherFrame(kind: byte, data: seq<byte>)
    ensures
      var iov := [IoVec([kind], 0, 1), IoVec(data, 0, |data|)];
      Gather(iov) == Frame(Packet(kind, data))
  {
    var iov := [IoVec([kind], 0, 1), IoVec(data, 0, |data|)];
    assert iov[1..] == [IoVec(data, 0, |data|)];
    assert Gather(iov[1..]) == data;
  }

  /** Steps over the entries a short write has finished and trims the one it stopped in.
      The entry index never passes the array. */
  method DropWritten(iov: array<IoVec>, start: nat, written: nat, ghost left: seq<byte>)
    returns (cur: nat)
    requires Left(iov, start, left) && 0 < written < |left|
    modifies iov
    ensures start <= cur < iov.Length && Left(iov, cur, left[written..])
  {
    cur := start;
    var ret: nat := written;
    hide Gather, SumOfLengths;
    ghost var entries := iov[..];
    assert entries[start..] == iov[start..];
    NotEmpty(entries[start..]);
    while iov[cur].len <= ret
      invariant start <= cur < iov.Length && iov[..] == entries
      invariant AllValid(entries[cur..]) && ret < |Gather(entries[cur..])|
      invariant Gather(entries[cur..])[ret..] == left[written..]
      decreases iov.Length - cur
    {
      SkipEntry(entries[cur..], ret);
      assert entries[cur..][1..] == entries[cur + 1..];
      ret := ret - iov[cur].len;
      cur := cur + 1;
      NotEmpty(entries[cur..]);
    }
    assert iov[cur..] == entries[cur..];
    if 0 < ret {
      TrimEntry(entries[cur..], ret);
      iov[cur] := Trimmed(iov[cur], ret);
      assert iov[cur..] == [Trimmed(entries[cur], ret)] + entries[cur..][1..];
    }
  }

  lemma NotEmpty(iov: seq<IoVec>)
    ensures 0 < SumOfLengths(iov) ==> iov != []
  {
  }

  /** An entry without its first `n` bytes. */
  function Trimmed(entry: IoVec, n: nat): IoVec
    requires n <= entry.len
  {
    IoVec(entry.buf, entry.base + n, entry.len - n)
  }

  lemma SkipEntry(iov: seq<IoVec>, n: nat)
    requires iov != [] && AllValid(iov) && iov[0].len <= n <= SumOfLengths(iov)
    ensures SumOfLengths(iov) == iov[0].len + SumOfLengths(iov[1..])
    ensures Gather(iov)[n..] == Gather(iov[1..])[n - iov[0].len..]
  {
  }

  lemma TrimEntry(iov: seq<IoVec>, n: nat)
    requires iov != [] && AllValid(iov) && n <= iov[0].len
    ensures AllValid([Trimmed(iov[0], n)] + iov[1..])
    ensures Gather([Trimmed(iov[0], n)] + iov[1..]) == Gather(iov)[n..]
  {
    hide Gather, SumOfLengths;
    GatherCons(iov[0], iov[1..]);
    GatherCons(Trimmed(iov[0], n), iov[1..]);
    assert iov == [iov[0]] + iov[1..];
    assert Trimmed(iov[0], n).Bytes() == iov[0].Bytes()[n..];
    DropFromFirst(iov[0].Bytes(), Gather(iov[1..]), n);
  }

  lemma GatherCons(entry: IoVec, rest: seq<IoVec>)
    requires entry.Valid() && AllValid(rest)
    ensures AllValid([entry] + rest) && Gather([entry] + rest) == entry.Bytes() + Gather(rest)
  {
    assert ([entry] + rest)[1..] == rest;
  }

  lemma DropFromFirst(a: seq<byte>, b: seq<byte>, n: nat)
    requires n <= |a|
    ensures (a + b)[n..] == a[n..] + b
  {
  }
}
