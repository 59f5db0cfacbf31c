/** What audio streams in both directions share: states, commands, replies, and the data queue. */
module StreamCommands {
  import opened Basics

  newtype Element = x: int | -128 <= x < 128

  datatype StreamState =
    STANDBY | IDLE | ACTIVE | PAUSED | DRAINING | DRAIN_PAUSED | TRANSFERRING | TRANSFER_PAUSED | ERROR | CLOSED

  datatype DrainMode = UNSPECIFIED | ALL | EARLY_NOTIFY

  datatype Command =
    | HalReservedExit(cookie: int)
    | GetStatus
    | Start
    | Burst(fmqByteCount: int)
    | Drain(mode: DrainMode)
    | Standby
    | Pause
    | Flush

  /** An internal exit command gets no reply. */
  predicate Silent(command: Command)
  {
    command.HalReservedExit? && command.cookie != 0
  }

  datatype Status = Okay | BadValue | InvalidOperation | NotEnoughData

  datatype Reply = Reply(status: Status, fmqByteCount: nat, state: StreamState)

  datatype Progress = Continue | Abort | Exit

  type positive = x: int | x > 0 witness 1

  /** What does not change while the stream is open; the data queue holds `bufferSize` bytes. */
  datatype Setup =
    Setup(frameSize: positive, bufferSize: nat, hasCallback: bool, forceSynchronousDrain: bool,
          forceTransientBurst: bool, exitCookie: int)

  /**
   * What the surroundings do during one cycle: the command and reply queues, the connection, the time
   * passed in a transient state, and the driver, which transfers at most the frames it is asked for.
   */
  datatype Answer =
    Answer(commandRead: bool, replyWritten: bool, connected: bool, elapsed: bool, driverOk: bool,
           transferred: nat, recorded: seq<Element>)

  datatype Event =
    /** A reply was made; `sent` unless the reply queue failed. */
    | Replied(command: Command, reply: Reply, sent: bool)
    | TransferReady
    | DrainReady

  /** Whole frames: at most `asked` of them, in bytes within `limit`. */
  lemma WholeFrames(frameSize: positive, limit: nat, frames: nat)
    requires frames <= limit / frameSize
    ensures frames * frameSize <= limit
  {
    assert frames * frameSize <= limit / frameSize * frameSize;
  }

  /** One frame more than the quotient does not fit. */
  lemma NoMoreFrames(frameSize: positive, limit: nat, frames: nat)
    requires limit / frameSize < frames
    ensures limit < frames * frameSize
  {
    var q := limit / frameSize;
    assert limit < (q + 1) * frameSize;
    assert (q + 1) * frameSize <= frames * frameSize;
  }

  lemma FramesInOrder(a: nat, b: nat, size: positive)
    ensures a <= b <==> a * size <= b * size
  {
    if a <= b {
      MoreFrames(a, b - a, size);
      NotBelow(b - a, size);
    } else {
      MoreFrames(b, a - b, size);
      NotBelow(a - b, size);
    }
  }

  lemma MoreFrames(frames: nat, more: nat, size: positive)
    ensures (frames + more) * size == frames * size + more * size
  {
  }

  lemma MultipleOf(n: nat, size: positive)
    ensures n * size % size == 0
  {
    var q, r := n * size / size, n * size % size;
    assert (n - q) * size == r;
    NotBelow(n - q, size);
  }

  lemma NotBelow(k: int, size: positive)
    ensures k >= 1 ==> k * size >= size
    ensures k <= -1 ==> k * size + size <= 0
  {
  }

  // ---------- Adding up a log ----------

  function Total(log: seq<Event>, weigh: Event -> nat): nat
  {
    if |log| == 0 then 0 else Total(log[..|log| - 1], weigh) + weigh(log[|log| - 1])
  }

  lemma {:induction false} TotalAppend(log: seq<Event>, more: seq<Event>, weigh: Event -> nat)
    ensures Total(log + more, weigh) == Total(log, weigh) + Total(more, weigh)
  {
    if |more| == 0 {
      assert log + more == log;
    } else {
      var n := |more| - 1;
      assert (log + more)[..|log + more| - 1] == log + more[..n];
      TotalAppend(log, more[..n], weigh);
    }
  }

  lemma TotalOne(e: Event, weigh: Event -> nat)
    ensures Total([e], weigh) == weigh(e)
  {
    assert [e][..0] == [];
  }

  /** Bytes acknowledged by replies to bursts. */
  function BurstBytes(e: Event): nat
  {
    if e.Replied? && e.command.Burst? then e.reply.fmqByteCount else 0
  }

  function Notification(e: Event): nat
  {
    if e.DrainReady? then 1 else 0
  }

  /** Notifications an accepted drain allows: one for a full drain, two for one with early notice. */
  function Allowance(e: Event): nat
  {
    if e.Replied? && e.command.Drain? && e.reply.status == Okay then
      (match e.command.mode case UNSPECIFIED => 0 case ALL => 1 case EARLY_NOTIFY => 2)
    else 0
  }

  // ---------- The data queue and the driver ----------

  /** A bounded queue of bytes. */
  class DataMQ {
    const capacity: nat
    var bytes: seq<Element>

    constructor (capacity: nat)
      ensures this.capacity == capacity && bytes == []
    {
      this.capacity := capacity;
      bytes := [];
    }

    ghost predicate Valid()
      reads this
    {
      |bytes| <= capacity
    }

    method AvailableToWrite() returns (n: nat)
      requires Valid()
      ensures n == capacity - |bytes|
    {
      n := capacity - |bytes|;
    }

    /** Moves `count` bytes into the buffer, or nothing when there are not enough. */
    method Read(buffer: array<Element>, count: nat) returns (ok: bool)
      requires Valid() && (count <= |bytes| ==> count <= buffer.Length)
      modifies this`bytes, buffer
      ensures Valid() && (ok <==> count <= |old(bytes)|)
      ensures ok ==> bytes == old(bytes)[count..] && buffer[..count] == old(bytes)[..count]
      ensures !ok ==> bytes == old(bytes) && buffer[..] == old(buffer[..])
    {
      if count > |bytes| {
        return false;
      }
      var i := 0;
      while i < count
        invariant i <= count && bytes == old(bytes) && buffer[..i] == bytes[..i]
      {
        buffer[i] := bytes[i];
        i := i + 1;
      }
      bytes := bytes[count..];
      ok := true;
    }

    /** Appends `count` bytes of the buffer, or nothing when they do not fit. */
    method Write(buffer: array<Element>, count: nat) returns (ok: bool)
      requires Valid() && count <= buffer.Length
      modifies this`bytes
      ensures Valid() && (ok <==> |old(bytes)| + count <= capacity)
      ensures bytes == if ok then old(bytes) + buffer[..count] else old(bytes)
    {
      if |bytes| + count > capacity {
        return false;
      }
      bytes := bytes + buffer[..count];
      ok := true;
    }
  }
}
