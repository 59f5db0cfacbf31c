/** The worker of an input stream as an object, proved against StreamIns. */
module StreamInWorkers {
  import opened Basics
  import opened StreamCommands
  import opened StreamIns

  class StreamInWorkerLogic {
    const setup: Setup
    const dataMQ: DataMQ
    const dataBuffer: array<Element>
    var state: StreamState
    var frameCount: nat
    ghost var captured: seq<Element>
    ghost var given: seq<Element>

    constructor (setup: Setup)
      ensures Valid() && View() == START && this.setup == setup
      ensures fresh(dataMQ) && fresh(dataBuffer)
    {
      this.setup := setup;
      dataMQ := new DataMQ(setup.bufferSize);
      dataBuffer := new Element[setup.bufferSize];
      state, frameCount, captured, given := STANDBY, 0, [], [];
    }

    ghost predicate Valid()
      reads this, dataMQ
    {
      dataMQ.Valid() && dataMQ.capacity == setup.bufferSize == dataBuffer.Length
    }

    ghost function View(): In
      reads this, dataMQ
    {
      In(state, frameCount, dataMQ.bytes, captured, given)
    }

    /** The driver puts the data into the start of the buffer; without a device it is filled with zeros. */
    method FillBuffer(byteCount: nat, d: Answer)
      requires byteCount <= dataBuffer.Length && (d.connected ==> byteCount <= |d.recorded|)
      modifies dataBuffer
      ensures dataBuffer[..byteCount] == if d.connected then d.recorded[..byteCount] else Silence(byteCount)
    {
      ghost var data := if d.connected then d.recorded[..byteCount] else Silence(byteCount);
      var i := 0;
      while i < byteCount
        invariant i <= byteCount && dataBuffer[..i] == data[..i]
      {
        dataBuffer[i] := if d.connected then d.recorded[i] else 0;
        i := i + 1;
      }
    }

    method ReadFrames(clientSize: nat, d: Answer) returns (success: bool, status: Status, bytes: nat)
      requires Valid()
      modifies this`frameCount, this`captured, dataMQ, dataBuffer
      ensures Valid() && Handled(View(), status, bytes) == Read(setup, old(View()), clientSize, d)
      ensures success <==> !d.connected || d.driverOk
    {
      hide Captured;
      var room := dataMQ.AvailableToWrite();
      success, status := !d.connected || d.driverOk, NotEnoughData;
      var actualFrameCount := CountFrames(clientSize, room, d);
      CapturedFits(setup, room, clientSize, d);
      bytes := actualFrameCount * setup.frameSize;
      FillBuffer(bytes, d);
      var ok := true;
      if bytes > 0 {
        ok := dataMQ.Write(dataBuffer, bytes);
      }
      if ok {
        captured := captured + dataBuffer[..bytes];
        frameCount := frameCount + actualFrameCount;
        status := Okay;
      }
    }

    /** The frames to read when there is room for `room` bytes. */
    method CountFrames(clientSize: nat, room: nat, d: Answer) returns (n: nat)
      ensures n == Captured(setup, room, clientSize, d)
    {
      n := Min(clientSize, Min(room, setup.bufferSize)) / setup.frameSize;
      if d.connected {
        n := Min(|d.recorded| / setup.frameSize, n);
      }
    }

    method HandleBurstCommand(fmqByteCount: int, d: Answer) returns (status: Status, bytes: nat)
      requires Valid()
      modifies this`state, this`frameCount, this`captured, dataMQ, dataBuffer
      ensures Valid() && Handled(View(), status, bytes) == HandleBurst(setup, old(View()), fmqByteCount, d)
    {
      hide Read;
      status, bytes := BadValue, 0;
      if fmqByteCount < 0 {
        return;
      }
      if state != IDLE && state != ACTIVE && state != PAUSED && state != DRAINING {
        status := InvalidOperation;
        return;
      }
      var success;
      success, status, bytes := ReadFrames(fmqByteCount, d);
      ReadKeepsState(setup, old(View()), fmqByteCount, d);
      if !success {
        state := ERROR;
      }
      if state == IDLE || state == PAUSED {
        state := ACTIVE;
      } else if state == DRAINING {
        state := STANDBY;
      }
    }

    /** The state after the driver agrees, if the command fits the state. */
    method Ask(next: StreamState, allowed: bool, d: Answer) returns (status: Status)
      requires Valid()
      modifies this`state
      ensures Valid()
      ensures Handled(View(), status, 0) == if allowed then Attempt(old(View()), d, next) else StreamIns.Refused(old(View()))
    {
      if !allowed {
        return InvalidOperation;
      }
      if d.driverOk {
        state := next;
        status := Okay;
      } else {
        state := ERROR;
        status := BadValue;
      }
    }

    method HandleCommand(command: Command, d: Answer) returns (status: Status, bytes: nat)
      requires Valid()
      modifies this`state, this`frameCount, this`captured, dataMQ, dataBuffer
      ensures Valid() && Handled(View(), status, bytes) == Handle(setup, old(View()), command, d)
    {
      hide HandleBurst, Attempt;
      status, bytes := BadValue, 0;
      match command
      case HalReservedExit(cookie) =>
        if cookie == setup.exitCookie {
          state := CLOSED;
        }
      case GetStatus => status := Okay;
      case Start =>
        status := Ask(if state == STANDBY then IDLE else ACTIVE, state == STANDBY || state == DRAINING, d);
      case Burst(count) => status, bytes := HandleBurstCommand(count, d);
      case Drain(mode) =>
        if mode == UNSPECIFIED {
          status := Ask(DRAINING, state == ACTIVE, d);
        }
      case Standby =>
        if state == IDLE {
          status := Okay;
          state := if d.driverOk then STANDBY else ERROR;
        } else {
          status := InvalidOperation;
        }
      case Pause => status := Ask(PAUSED, state == ACTIVE, d);
      case Flush => status := Ask(STANDBY, state == PAUSED, d);
    }

    method RunCycle(command: Command, d: Answer) returns (events: seq<Event>, progress: Progress)
      requires Valid()
      modifies this`state, this`frameCount, this`captured, dataMQ, dataBuffer
      ensures Valid() && (View(), events, progress) == Cycle(setup, old(View()), command, d)
    {
      hide Handle;
      if !d.commandRead {
        state := ERROR;
        return [], Abort;
      }
      var status, bytes := HandleCommand(command, d);
      if command.HalReservedExit? && command.cookie != 0 {
        return [], if command.cookie == setup.exitCookie then Exit else Continue;
      }
      events := [Replied(command, Reply(status, bytes, state), d.replyWritten)];
      progress := Continue;
      if !d.replyWritten {
        state := ERROR;
        progress := Abort;
      }
    }
  }

  lemma ReadKeepsState(c: Setup, s: In, request: nat, d: Answer)
    ensures Read(c, s, request, d).s.state == s.state
  {
  }
}
