/** The worker of an output stream as an object, proved against StreamOuts. */
module StreamOutWorkers {
  import opened Basics
  import opened StreamCommands
  import opened StreamOuts

  class StreamOutWorkerLogic {
    const setup: Setup
    const dataMQ: DataMQ
    const dataBuffer: array<Element>
    var state: StreamState
    var drainState: DrainState
    var frameCount: nat
    ghost var consumed: seq<Element>

    constructor (setup: Setup)
      ensures Valid() && View() == START && this.setup == setup
      ensures fresh(dataMQ) && fresh(dataBuffer)
    {
      this.setup := setup;
      dataMQ := new DataMQ(setup.bufferSize);
      dataBuffer := new Element[setup.bufferSize];
      state, drainState, frameCount, consumed := STANDBY, NONE, 0, [];
    }

    ghost predicate Valid()
      reads this, dataMQ
    {
      dataMQ.Valid() && dataMQ.capacity == setup.bufferSize == dataBuffer.Length
    }

    ghost function View(): Out
      reads this, dataMQ
    {
      Out(state, drainState, frameCount, dataMQ.bytes, consumed)
    }

    /** The frames to take out of `available` bytes. */
    method CountFrames(clientSize: nat, available: nat, d: Answer) returns (n: nat)
      ensures n == Played(setup, available, clientSize, d)
    {
      var byteCount := Min(clientSize, Min(available, setup.bufferSize));
      if byteCount >= setup.frameSize && setup.forceTransientBurst {
        byteCount := byteCount - setup.frameSize;
      }
      n := byteCount / setup.frameSize;
      if d.connected {
        n := Min(d.transferred, n);
      }
    }

    /** Takes the queue's data into the buffer and transfers whole frames from its front. */
    method WriteFrames(clientSize: nat, d: Answer) returns (success: bool, status: Status, bytes: nat)
      requires Valid()
      modifies this`frameCount, this`consumed, dataMQ, dataBuffer
      ensures Valid() && Handled(View(), status, bytes) == Write(setup, old(View()), clientSize, d)
      ensures success <==> !d.connected || d.driverOk
    {
      hide Usable, Played, Min;
      var readByteCount := |dataMQ.bytes|;
      var ok := true;
      if readByteCount > 0 {
        ok := dataMQ.Read(dataBuffer, readByteCount);
      }
      success, status, bytes := !d.connected || d.driverOk, NotEnoughData, 0;
      if ok {
        var actualFrameCount := CountFrames(clientSize, readByteCount, d);
        BytesFit(setup, readByteCount, clientSize, d);
        bytes := actualFrameCount * setup.frameSize;
        TakenFront(old(dataMQ.bytes), dataBuffer[..], readByteCount, bytes);
        consumed := consumed + dataBuffer[..bytes];
        frameCount := frameCount + actualFrameCount;
        status := Okay;
      }
    }

    method HandleBurstCommand(fmqByteCount: int, d: Answer) returns (status: Status, bytes: nat)
      requires Valid()
      modifies this`state, this`frameCount, this`consumed, dataMQ, dataBuffer
      ensures Valid() && Handled(View(), status, bytes) == HandleBurst(setup, old(View()), fmqByteCount, d)
    {
      hide Usable, Played, Write;
      status, bytes := BadValue, 0;
      if fmqByteCount < 0 {
        return;
      }
      if state == ERROR || state == TRANSFERRING || state == TRANSFER_PAUSED {
        status := InvalidOperation;
        return;
      }
      var success;
      success, status, bytes := WriteFrames(fmqByteCount, d);
      if !success {
        state := ERROR;
      }
      if state == STANDBY || state == DRAIN_PAUSED || state == PAUSED {
        if !setup.hasCallback || state != DRAIN_PAUSED {
          state := PAUSED;
        } else if drainState != EN_SENT {
          state := TRANSFER_PAUSED;
        }
      } else if state == IDLE || state == ACTIVE || (state == DRAINING && drainState != EN_SENT) {
        if !setup.hasCallback || bytes == fmqByteCount {
          state := ACTIVE;
        } else {
          state := TRANSFERRING;
        }
      }
    }

    method HandleDrainCommand(mode: DrainMode, d: Answer) returns (status: Status)
      requires Valid()
      modifies this`state, this`drainState
      ensures Valid() && Handled(View(), status, 0) == HandleDrain(setup, old(View()), mode, d)
    {
      status := BadValue;
      if mode != ALL && mode != EARLY_NOTIFY {
        return;
      }
      if state == ACTIVE || state == TRANSFERRING {
        if d.driverOk {
          status := Okay;
          if state == ACTIVE && setup.forceSynchronousDrain {
            state := IDLE;
          } else {
            state := DRAINING;
            drainState := if mode == EARLY_NOTIFY then EN else FULL;
          }
        } else {
          state := ERROR;
        }
      } else if state == TRANSFER_PAUSED {
        state := DRAIN_PAUSED;
        status := Okay;
      } else {
        status := InvalidOperation;
      }
    }

    /** Start, pause and flush: the state after the driver agrees, if the command fits the state. */
    method Ask(next: StreamState, allowed: bool, d: Answer) returns (status: Status)
      requires Valid()
      modifies this`state
      ensures Valid()
      ensures Handled(View(), status, 0) == if allowed then Attempt(old(View()), d, next) else StreamOuts.Refused(old(View()))
    {
      if !allowed {
        return InvalidOperation;
      }
      if d.driverOk {
        state := next;
        status := Okay;
      } else {
        state := ERROR;
        status := BadValue;
      }
    }

    method HandleCommand(command: Command, d: Answer) returns (status: Status, bytes: nat)
      requires Valid()
      modifies this`state, this`drainState, this`frameCount, this`consumed, dataMQ, dataBuffer
      ensures Valid() && Handled(View(), status, bytes) == Handle(setup, old(View()), command, d)
    {
      hide HandleBurst, HandleDrain, Attempt;
      status, bytes := BadValue, 0;
      match command
      case HalReservedExit(cookie) =>
        if cookie == setup.exitCookie {
          state := CLOSED;
        }
      case GetStatus => status := Okay;
      case Start =>
        match state {
          case STANDBY => status := Ask(IDLE, true, d);
          case PAUSED => status := Ask(ACTIVE, true, d);
          case DRAIN_PAUSED => status := Ask(DRAINING, true, d);
          case TRANSFER_PAUSED => status := Ask(TRANSFERRING, true, d);
          case _ => status := InvalidOperation;
        }
      case Burst(count) => status, bytes := HandleBurstCommand(count, d);
      case Drain(mode) =>
        status := HandleDrainCommand(mode, d);
        DrainTakesNothing(setup, old(View()), mode, d);
      case Standby =>
        if state == IDLE {
          status := Okay;
          state := if d.driverOk then STANDBY else ERROR;
        } else {
          status := InvalidOperation;
        }
      case Pause =>
        match state {
          case ACTIVE => status := Ask(PAUSED, true, d);
          case DRAINING => status := Ask(DRAIN_PAUSED, true, d);
          case TRANSFERRING => status := Ask(TRANSFER_PAUSED, true, d);
          case _ => status := InvalidOperation;
        }
      case Flush =>
        status := Ask(IDLE, state == PAUSED || state == DRAIN_PAUSED || state == TRANSFER_PAUSED, d);
    }

    method RunCycle(command: Command, d: Answer) returns (events: seq<Event>, progress: Progress)
      requires Valid()
      modifies this`state, this`drainState, this`frameCount, this`consumed, dataMQ, dataBuffer
      ensures Valid() && (View(), events, progress) == Cycle(setup, old(View()), command, d)
    {
      hide Handle;
      if state == DRAINING && !setup.hasCallback && d.elapsed {
        state := IDLE;
      }
      if !d.commandRead {
        state := ERROR;
        return [], Abort;
      }
      var status, bytes := HandleCommand(command, d);
      if command.HalReservedExit? && command.cookie != 0 {
        return [], if command.cookie == setup.exitCookie then Exit else Continue;
      }
      events := [Replied(command, Reply(status, bytes, state), d.replyWritten)];
      progress := Continue;
      if !d.replyWritten {
        state := ERROR;
        progress := Abort;
      }
    }

    method OnBufferState() returns (events: seq<Event>)
      requires Valid()
      modifies this`state
      ensures Valid() && (View(), events) == OnBufferStateChange(setup, old(View()))
    {
      events := [];
      if state == TRANSFERRING || drainState == EN_SENT {
        if state == TRANSFERRING {
          state := ACTIVE;
        }
        if setup.hasCallback {
          events := [TransferReady];
        }
      }
    }

    method OnClipState(clipFramesLeft: nat, hasNextClip: bool) returns (events: seq<Event>)
      requires Valid()
      modifies this`state, this`drainState
      ensures Valid() && (View(), events) == OnClipStateChange(setup, old(View()), clipFramesLeft, hasNextClip)
    {
      events := [];
      var was := drainState;
      if was != NONE && clipFramesLeft == 0 {
        state := if hasNextClip then TRANSFERRING else IDLE;
        drainState := NONE;
        if (was == FULL || was == EN_SENT) && setup.hasCallback {
          events := [DrainReady];
        }
      } else if was == EN && clipFramesLeft > 0 {
        drainState := EN_SENT;
        if setup.hasCallback {
          events := [DrainReady];
        }
      }
    }
  }

  lemma DrainTakesNothing(c: Setup, s: Out, mode: DrainMode, d: Answer)
    ensures HandleDrain(c, s, mode, d).bytes == 0
  {
  }

  lemma BytesFit(c: Setup, available: nat, request: nat, d: Answer)
    ensures 0 <= Played(c, available, request, d) * c.frameSize <= available
  {
    PlayedFits(c, available, request, d);
  }

  /** The front of the buffer is the front of what was read into it. */
  lemma TakenFront(queue: seq<Element>, buffer: seq<Element>, count: nat, bytes: nat)
    requires bytes <= count == |queue| <= |buffer| && buffer[..count] == queue
    ensures buffer[..bytes] == queue[..bytes] && queue[count..] == []
  {
    assert buffer[..count][..bytes] == buffer[..bytes];
  }
}
