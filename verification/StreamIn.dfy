/** Input streams: commands, frames, and the data that reaches the client. */
module StreamIns {
  import opened Basics
  import opened StreamCommands

  /** `captured` is everything put into the queue, `given` what the client has taken out of it. */
  datatype In =
    In(state: StreamState, frames: nat, queue: seq<Element>, captured: seq<Element>, given: seq<Element>)

  const START := In(STANDBY, 0, [], [], [])

  datatype Handled = Handled(s: In, status: Status, bytes: nat)

  // ---------- Specification ----------

  function Refused(s: In): Handled
  {
    Handled(s, InvalidOperation, 0)
  }

  /** Asks the driver; a failure leaves the initial status and the error state. */
  function Attempt(s: In, d: Answer, to: StreamState): Handled
  {
    if d.driverOk then Handled(s.(state := to), Okay, 0) else Handled(s.(state := ERROR), BadValue, 0)
  }

  function Room(c: Setup, s: In): nat
  {
    if |s.queue| <= c.bufferSize then c.bufferSize - |s.queue| else 0
  }

  /** The frames that one burst reads: as many as fit, and as the driver has when it is connected. */
  function Captured(c: Setup, room: nat, request: nat, d: Answer): nat
  {
    var asked := Min(request, Min(room, c.bufferSize)) / c.frameSize;
    if d.connected then Min(|d.recorded| / c.frameSize, asked) else asked
  }

  lemma CapturedFits(c: Setup, room: nat, request: nat, d: Answer)
    ensures
      var bytes := Captured(c, room, request, d) * c.frameSize;
      bytes <= Min(request, Min(room, c.bufferSize)) && (d.connected ==> bytes <= |d.recorded|)
  {
    WholeFrames(c.frameSize, Min(request, Min(room, c.bufferSize)), Captured(c, room, request, d));
    if d.connected {
      WholeFrames(c.frameSize, |d.recorded|, Captured(c, room, request, d));
    }
  }

  function Silence(n: nat): (r: seq<Element>)
    ensures |r| == n && forall i | 0 <= i < n :: r[i] == 0
  {
    seq(n, i => 0)
  }

  /** Silence while the device is disconnected. */
  function Data(c: Setup, room: nat, request: nat, d: Answer): (data: seq<Element>)
    ensures |data| == Captured(c, room, request, d) * c.frameSize
  {
    CapturedFits(c, room, request, d);
    var bytes := Captured(c, room, request, d) * c.frameSize;
    if d.connected then d.recorded[..bytes] else Silence(bytes)
  }

  /** Reads whole frames into the queue; they count even when the driver reports a failure. */
  function Read(c: Setup, s: In, request: nat, d: Answer): Handled
  {
    var data := Data(c, Room(c, s), request, d);
    Handled(s.(frames := s.frames + Captured(c, Room(c, s), request, d), queue := s.queue + data,
               captured := s.captured + data), Okay, |data|)
  }

  function AfterRead(state: StreamState): StreamState
  {
    match state
    case IDLE => ACTIVE
    case PAUSED => ACTIVE
    case DRAINING => STANDBY
    case _ => state
  }

  function HandleBurst(c: Setup, s: In, count: int, d: Answer): Handled
  {
    if count < 0 then Handled(s, BadValue, 0)
    else if s.state == IDLE || s.state == ACTIVE || s.state == PAUSED || s.state == DRAINING then
      var h := Read(c, s, count, d);
      if d.connected && !d.driverOk then h.(s := h.s.(state := ERROR))
      else h.(s := h.s.(state := AfterRead(s.state)))
    else Refused(s)
  }

  function Handle(c: Setup, s: In, command: Command, d: Answer): Handled
  {
    match command
    case HalReservedExit(cookie) => Handled(if cookie == c.exitCookie then s.(state := CLOSED) else s, BadValue, 0)
    case GetStatus => Handled(s, Okay, 0)
    case Start =>
      if s.state == STANDBY then Attempt(s, d, IDLE)
      else if s.state == DRAINING then Attempt(s, d, ACTIVE)
      else Refused(s)
    case Burst(count) => HandleBurst(c, s, count, d)
    case Drain(mode) =>
      if mode != UNSPECIFIED then Handled(s, BadValue, 0)
      else if s.state == ACTIVE then Attempt(s, d, DRAINING)
      else Refused(s)
    case Standby =>
      if s.state == IDLE then Handled(s.(state := if d.driverOk then STANDBY else ERROR), Okay, 0) else Refused(s)
    case Pause => if s.state == ACTIVE then Attempt(s, d, PAUSED) else Refused(s)
    case Flush => if s.state == PAUSED then Attempt(s, d, STANDBY) else Refused(s)
  }

  function Cycle(c: Setup, s: In, command: Command, d: Answer): (In, seq<Event>, Progress)
  {
    if !d.commandRead then (s.(state := ERROR), [], Abort)
    else
      var h := Handle(c, s, command, d);
      if Silent(command) then (h.s, [], if command.cookie == c.exitCookie then Exit else Continue)
      else
        var event := Replied(command, Reply(h.status, h.bytes, h.s.state), d.replyWritten);
        if d.replyWritten then (h.s, [event], Continue) else (h.s.(state := ERROR), [event], Abort)
  }

  // ---------- Runs ----------

  /** A command, or the client taking data out of the queue. */
  datatype Action = Run(command: Command, answer: Answer) | Collect(count: nat)

  function Do(c: Setup, s: In, a: Action): (In, seq<Event>)
  {
    match a
    case Run(command, answer) =>
      var (u, events, _) := Cycle(c, s, command, answer);
      (u, events)
    case Collect(count) =>
      var n := Min(count, |s.queue|);
      (s.(queue := s.queue[n..], given := s.given + s.queue[..n]), [])
  }

  function After(c: Setup, s: In, actions: seq<Action>): (In, seq<Event>)
  {
    if |actions| == 0 then (s, [])
    else
      var n := |actions| - 1;
      var (before, log) := After(c, s, actions[..n]);
      var (u, events) := Do(c, before, actions[n]);
      (u, log + events)
  }

  ghost predicate Inv(c: Setup, s: In, log: seq<Event>)
  {
    && |s.queue| <= c.bufferSize
    && s.frames * c.frameSize == |s.captured|
    && Total(log, BurstBytes) == |s.captured|
    && s.given + s.queue == s.captured
  }

  /** What one command adds. */
  ghost predicate Accounts(c: Setup, s: In, u: In, events: seq<Event>)
  {
    exists n: nat, data: seq<Element> :: Adds(c, s, u, events, n, data)
  }

  ghost predicate Adds(c: Setup, s: In, u: In, events: seq<Event>, n: nat, data: seq<Element>)
  {
    && u.frames == s.frames + n
    && |data| == n * c.frameSize == Total(events, BurstBytes)
    && u.queue == s.queue + data && u.captured == s.captured + data && u.given == s.given
    && (|s.queue| <= c.bufferSize ==> |u.queue| <= c.bufferSize)
  }

  lemma HandleAdds(c: Setup, s: In, command: Command, d: Answer) returns (n: nat, data: seq<Element>)
    ensures
      var h := Handle(c, s, command, d);
      && h.s.frames == s.frames + n
      && |data| == n * c.frameSize == h.bytes
      && (h.bytes > 0 ==> command.Burst?)
      && h.s.queue == s.queue + data && h.s.captured == s.captured + data && h.s.given == s.given
      && (|s.queue| <= c.bufferSize ==> |h.s.queue| <= c.bufferSize)
  {
    hide Captured;
    n, data := 0, [];
    var h := Handle(c, s, command, d);
    if command.Burst? && command.fmqByteCount >= 0 && h.status != InvalidOperation {
      n := Captured(c, Room(c, s), command.fmqByteCount, d);
      data := Data(c, Room(c, s), command.fmqByteCount, d);
      CapturedFits(c, Room(c, s), command.fmqByteCount, d);
    } else {
      assert s.queue + data == s.queue && s.captured + data == s.captured;
    }
  }

  lemma CycleAccounts(c: Setup, s: In, command: Command, d: Answer)
    ensures
      var (u, events, _) := Cycle(c, s, command, d);
      Accounts(c, s, u, events)
  {
    hide Handle;
    var (u, events, _) := Cycle(c, s, command, d);
    var n, data := HandleAdds(c, s, command, d);
    var h := Handle(c, s, command, d);
    TotalOne(Replied(command, Reply(h.status, h.bytes, h.s.state), d.replyWritten), BurstBytes);
    if !d.commandRead {
      assert s.queue + [] == s.queue && s.captured + [] == s.captured;
      assert Adds(c, s, u, events, 0, []);
    } else {
      assert Adds(c, s, u, events, n, data);
    }
  }

  lemma AccountsKeepInv(c: Setup, s: In, log: seq<Event>, u: In, events: seq<Event>)
    requires Inv(c, s, log) && Accounts(c, s, u, events)
    ensures Inv(c, u, log + events)
  {
    var n: nat, data: seq<Element> :| Adds(c, s, u, events, n, data);
    TotalAppend(log, events, BurstBytes);
    MoreFrames(s.frames, n, c.frameSize);
    assert u.given + u.queue == (s.given + s.queue) + data;
  }

  /**
   * In every run: the frame counter times the frame size is the sum of the byte counts in the burst
   * replies, and what the client has read followed by what is queued is what was captured, in order.
   */
  lemma {:induction false} RunKeepsInv(c: Setup, actions: seq<Action>)
    ensures
      var (u, log) := After(c, START, actions);
      Inv(c, u, log)
  {
    hide Cycle, Accounts;
    if |actions| > 0 {
      var n := |actions| - 1;
      RunKeepsInv(c, actions[..n]);
      var (before, log) := After(c, START, actions[..n]);
      match actions[n]
      case Run(command, answer) =>
        CycleAccounts(c, before, command, answer);
        var (u, events, _) := Cycle(c, before, command, answer);
        AccountsKeepInv(c, before, log, u, events);
      case Collect(count) =>
        var k := Min(count, |before.queue|);
        assert before.queue == before.queue[..k] + before.queue[k..];
        assert log + [] == log;
    }
  }

  /** Each burst reads whole frames, within the request, the room in the queue and the buffer. */
  lemma BurstReadsWholeFrames(c: Setup, s: In, count: nat, d: Answer)
    requires |s.queue| <= c.bufferSize
    ensures
      var h := HandleBurst(c, s, count, d);
      && h.bytes % c.frameSize == 0
      && h.bytes <= count && |s.queue| + h.bytes <= c.bufferSize
      && h.status != NotEnoughData
      && |h.s.queue| == |s.queue| + h.bytes
      && (h.status == Okay && d.connected ==> h.bytes <= |d.recorded| && h.s.queue == s.queue + d.recorded[..h.bytes])
      && (h.status == Okay && !d.connected ==> h.s.queue == s.queue + Silence(h.bytes))
  {
    hide Captured;
    CapturedFits(c, Room(c, s), count, d);
    MultipleOf(Captured(c, Room(c, s), count, d), c.frameSize);
  }

  /** So many frames are within the request and the room in the queue, and the driver has them. */
  predicate Readable(c: Setup, s: In, count: int, d: Answer, frames: nat)
  {
    && frames * c.frameSize <= count
    && frames * c.frameSize <= c.bufferSize - |s.queue|
    && (d.connected ==> frames * c.frameSize <= |d.recorded|)
  }

  /** An accepted burst reads as many whole frames as there can be, and not one more. */
  lemma BurstReadsMost(c: Setup, s: In, count: int, d: Answer)
    requires |s.queue| <= c.bufferSize && HandleBurst(c, s, count, d).status == Okay
    ensures
      var h := HandleBurst(c, s, count, d);
      var n := h.s.frames - s.frames;
      && n >= 0 && h.bytes == n * c.frameSize
      && Readable(c, s, count, d, n) && !Readable(c, s, count, d, n + 1)
  {
    var room := Room(c, s);
    var n := Captured(c, room, count, d);
    CapturedFits(c, room, count, d);
    CapturedMost(c, room, count, d);
    hide Captured;
    assert HandleBurst(c, s, count, d).s.frames - s.frames == n;
  }

  lemma CapturedMost(c: Setup, room: nat, request: nat, d: Answer)
    ensures
      var bytes := (Captured(c, room, request, d) + 1) * c.frameSize;
      bytes > Min(request, Min(room, c.bufferSize)) || (d.connected && bytes > |d.recorded|)
  {
    var limit := Min(request, Min(room, c.bufferSize));
    var n := Captured(c, room, request, d);
    if n == limit / c.frameSize {
      NoMoreFrames(c.frameSize, limit, n + 1);
    } else {
      NoMoreFrames(c.frameSize, |d.recorded|, n + 1);
    }
  }

  /** Where a burst leads when the driver does not fail: reading in the draining state is taken to empty the
      hardware's buffer. */
  lemma BurstLeadsTo(c: Setup, s: In, count: nat, d: Answer)
    requires s.state in {IDLE, ACTIVE, PAUSED, DRAINING} && (d.connected ==> d.driverOk)
    ensures HandleBurst(c, s, count, d).s.state == if s.state == DRAINING then STANDBY else ACTIVE
  {
    hide Data, Captured;
  }

  /** So a request for whole frames into an empty queue is met in full, if the driver has them. */
  lemma FullBurstIsCaptured(c: Setup, s: In, frames: nat, d: Answer)
    requires s.state in {IDLE, ACTIVE, PAUSED, DRAINING} && s.queue == []
    requires frames * c.frameSize <= c.bufferSize && (d.connected ==> frames * c.frameSize <= |d.recorded|)
    ensures
      var h := HandleBurst(c, s, frames * c.frameSize, d);
      h.status == Okay && h.bytes == |h.s.queue| == frames * c.frameSize && h.s.frames == s.frames + frames
  {
    var count := frames * c.frameSize;
    hide Captured, Data;
    var h := HandleBurst(c, s, count, d);
    BurstReadsMost(c, s, count, d);
    BurstReadsWholeFrames(c, s, count, d);
    hide HandleBurst;
    var n := h.s.frames - s.frames;
    FramesInOrder(n + 1, frames, c.frameSize);
    FramesInOrder(n, frames, c.frameSize);
    assert n == frames;
  }

  /** A command that is read is answered once, unless it is an internal exit, and truthfully. */
  lemma RepliesAreTruthful(c: Setup, s: In, command: Command, d: Answer)
    ensures
      var (u, events, progress) := Cycle(c, s, command, d);
      && (events == [] <==> !d.commandRead || Silent(command))
      && (events != [] ==>
            && |events| == 1 && events[0].Replied? && events[0].command == command && events[0].sent == d.replyWritten
            && events[0].reply.fmqByteCount == (u.frames - s.frames) * c.frameSize
            && events[0].reply.fmqByteCount == |u.queue| - |s.queue|
            && (d.replyWritten ==> events[0].reply.state == u.state)
            && (!d.replyWritten ==> u.state == ERROR))
      && (progress == Abort <==> !d.commandRead || (!Silent(command) && !d.replyWritten))
      && (progress == Exit <==> d.commandRead && Silent(command) && command.cookie == c.exitCookie)
      && (progress == Exit ==> u.state == CLOSED)
  {
    var n, data := HandleAdds(c, s, command, d);
    hide HandleBurst;
  }

  // ---------- The published state diagram ----------

  /** The arrows of the input stream diagram. */
  predicate Arrow(from: StreamState, command: Command, to: StreamState)
  {
    match command
    case Start => (from == STANDBY && to == IDLE) || (from == DRAINING && to == ACTIVE)
    case Burst(_) =>
      || ((from == IDLE || from == ACTIVE || from == PAUSED) && to == ACTIVE)
      || (from == DRAINING && (to == DRAINING || to == STANDBY))
    case Drain(_) => from == ACTIVE && to == DRAINING
    case Standby => from == IDLE && to == STANDBY
    case Pause => from == ACTIVE && to == PAUSED
    case Flush => from == PAUSED && to == STANDBY
    case _ => false
  }

  ghost predicate HasArrow(from: StreamState, command: Command)
  {
    exists to :: Arrow(from, command, to)
  }

  predicate InDiagram(command: Command)
  {
    match command
    case HalReservedExit(_) => false
    case GetStatus => false
    case Burst(count) => count >= 0
    case Drain(mode) => mode == UNSPECIFIED
    case _ => true
  }

  /** Commands are refused exactly when no arrow leaves the state; an accepted one follows an arrow. */
  lemma CommandsFollowDiagram(c: Setup, s: In, command: Command, d: Answer)
    requires InDiagram(command)
    ensures
      var h := Handle(c, s, command, d);
      && (h.status == InvalidOperation <==> !HasArrow(s.state, command))
      && (h.status == InvalidOperation ==> h.s == s && h.bytes == 0)
      && (h.status != InvalidOperation && d.driverOk ==> h.status == Okay && Arrow(s.state, command, h.s.state))
      && (h.status != InvalidOperation && !d.driverOk ==> h.s.state == ERROR || Arrow(s.state, command, h.s.state))
  {
    hide Data, Captured;
    var best := Handle(c, s, command, d.(driverOk := true));
    assert best.status != InvalidOperation ==> Arrow(s.state, command, best.s.state);
  }

  predicate AsksDriver(state: StreamState, command: Command, d: Answer)
  {
    match command
    case HalReservedExit(_) => false
    case GetStatus => false
    case Start => state == STANDBY || state == DRAINING
    case Burst(count) =>
      count >= 0 && (state == IDLE || state == ACTIVE || state == PAUSED || state == DRAINING) && d.connected
    case Drain(mode) => mode == UNSPECIFIED && state == ACTIVE
    case Standby => state == IDLE
    case Pause => state == ACTIVE
    case Flush => state == PAUSED
  }

  /** What the status of a reply means, and where the driver's failure leads. */
  lemma StatusesMean(c: Setup, s: In, command: Command, d: Answer)
    ensures
      var h := Handle(c, s, command, d);
      var failed := AsksDriver(s.state, command, d) && !d.driverOk;
      && (h.status == InvalidOperation <==> InDiagram(command) && !HasArrow(s.state, command))
      && (h.status == BadValue <==>
            || (!InDiagram(command) && !command.GetStatus?)
            || (failed && !command.Burst? && !command.Standby?))
      && h.status != NotEnoughData
      && (failed ==> h.s.state == ERROR)
      && (h.s.state == ERROR ==> failed || s.state == ERROR)
  {
    hide Captured, HasArrow;
    if InDiagram(command) { CommandsFollowDiagram(c, s, command, d); }
  }
}
