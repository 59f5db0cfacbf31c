/** The resumable packetizer: it collects one packet from reads of any size. */
module HciPacketizers {
  import opened Basics
  import opened HciPackets

  datatype State = HCI_HEADER | HCI_PAYLOAD

  class HciPacketizer {
    var state: State
    var packet: seq<byte>
    var bytesRemaining: nat

    constructor ()
      ensures state == HCI_HEADER && bytesRemaining == 0
    {
      state := HCI_HEADER;
      packet := [];
      bytesRemaining := 0;
    }

    /** The packetizer stands between two packets; `packet` may still hold the last one. */
    ghost predicate Empty()
      reads this
    {
      state == HCI_HEADER && bytesRemaining == 0
    }

    /** The bytes collected so far of the packet in progress. */
    ghost function Collected(): seq<byte>
      reads this
    {
      if Empty() then [] else packet
    }

    /** The fields agree on an unfinished packet of type `kind`. */
    ghost predicate Valid(kind: byte)
      requires Framed(kind)
      reads this
    {
      match state
      case HCI_HEADER =>
        bytesRemaining == 0 ||
        (0 < |packet| < HEADER_SIZE[kind] && |packet| + bytesRemaining == HEADER_SIZE[kind])
      case HCI_PAYLOAD =>
        && 0 < bytesRemaining
        && HEADER_SIZE[kind] <= |packet|
        && |packet| + bytesRemaining == BodySize(kind, packet)
    }

    /** Takes as many bytes of `buffer` from `offset` on as the packet in progress still needs. */
    method OnDataReady(kind: byte, buffer: seq<byte>, offset: nat)
      returns (completed: bool, next: nat)
      requires Framed(kind) && Valid(kind) && offset < |buffer|
      modifies this
      ensures offset < next <= |buffer|
      ensures completed ==>
        && Empty()
        && packet == old(Collected()) + buffer[offset..next]
        && WellFormed(Packet(kind, packet))
      ensures !completed ==>
        && next == |buffer|
        && Valid(kind) && !Empty()
        && packet == old(Collected()) + buffer[offset..]
        && Partial(kind, packet)
      decreases state == HCI_HEADER
    {
      hide Min, PacketLength, BodySize;
      match state {
        case HCI_HEADER =>
          completed, next := TakeHeader(kind, buffer, offset);
          if state == HCI_PAYLOAD && next < |buffer| {
            ghost var header, from := packet, next;
            completed, next := OnDataReady(kind, buffer, next);
            Adjacent(buffer, offset, from, next);
          }
        case HCI_PAYLOAD =>
          completed, next := TakePayload(kind, buffer, offset);
      }
    }

    /** The header branch, up to the point where the payload is to follow. */
    method TakeHeader(kind: byte, buffer: seq<byte>, offset: nat)
      returns (completed: bool, next: nat)
      requires Framed(kind) && Valid(kind) && state == HCI_HEADER && offset < |buffer|
      modifies this
      ensures offset < next <= |buffer|
      ensures packet == old(Collected()) + buffer[offset..next]
      ensures completed ==> Empty() && WellFormed(Packet(kind, packet))
      ensures !completed ==> Valid(kind) && !Empty() && Partial(kind, packet)
      ensures !completed && state == HCI_HEADER ==> next == |buffer|
    {
      completed := false;
      if bytesRemaining == 0 {
        bytesRemaining := HEADER_SIZE[kind];
        packet := [];
      }
      next := Copy(buffer, offset);
      if bytesRemaining == 0 {
        bytesRemaining := PacketLength(kind, packet);
        if 0 < bytesRemaining {
          state := HCI_PAYLOAD;
        } else {
          completed := true;
        }
      }
    }

    /** The payload branch. */
    method TakePayload(kind: byte, buffer: seq<byte>, offset: nat)
      returns (completed: bool, next: nat)
      requires Framed(kind) && Valid(kind) && state == HCI_PAYLOAD && offset < |buffer|
      modifies this
      ensures offset < next <= |buffer|
      ensures packet == old(packet) + buffer[offset..next]
      ensures completed ==> Empty() && WellFormed(Packet(kind, packet))
      ensures !completed ==> next == |buffer| && Valid(kind) && !Empty() && Partial(kind, packet)
    {
      next := Copy(buffer, offset);
      LengthInHeader(kind, packet, |old(packet)|);
      assert packet[..|old(packet)|] == old(packet);
      completed := bytesRemaining == 0;
      if bytesRemaining == 0 {
        state := HCI_HEADER;
      }
    }

    /** Moves bytes from the buffer to the packet until either the need or the buffer is exhausted. */
    method Copy(buffer: seq<byte>, offset: nat) returns (next: nat)
      requires offset < |buffer|
      modifies this`packet, this`bytesRemaining
      ensures next == offset + Min(old(bytesRemaining), |buffer| - offset)
      ensures packet == old(packet) + buffer[offset..next]
      ensures bytesRemaining == old(bytesRemaining) - (next - offset)
    {
      var toCopy := Min(bytesRemaining, |buffer| - offset);
      next := offset + toCopy;
      packet := packet + buffer[offset..next];
      bytesRemaining := bytesRemaining - toCopy;
    }
  }

  lemma Adjacent(s: seq<byte>, i: nat, j: nat, k: nat)
    requires i <= j <= k <= |s|
    ensures s[i..j] + s[j..k] == s[i..k]
  {
  }
}
