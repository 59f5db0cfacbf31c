/** Output streams: commands, driver callbacks, frames and drain notifications. */
module StreamOuts {
  import opened Basics
  import opened StreamCommands

  datatype DrainState = NONE | FULL | EN | EN_SENT

  /** `consumed` is everything the stream has taken, played or dropped while disconnected. */
  datatype Out =
    Out(state: StreamState, drain: DrainState, frames: nat, queue: seq<Element>, consumed: seq<Element>)

  const START := Out(STANDBY, NONE, 0, [], [])

  datatype Handled = Handled(s: Out, status: Status, bytes: nat)

  // ---------- Specification: commands ----------

  function Refused(s: Out): Handled
  {
    Handled(s, InvalidOperation, 0)
  }

  /** Asks the driver; a failure leaves the initial status and the error state. */
  function Attempt(s: Out, d: Answer, to: StreamState): Handled
  {
    if d.driverOk then Handled(s.(state := to), Okay, 0) else Handled(s.(state := ERROR), BadValue, 0)
  }

  function HandleStart(s: Out, d: Answer): Handled
  {
    match s.state
    case STANDBY => Attempt(s, d, IDLE)
    case PAUSED => Attempt(s, d, ACTIVE)
    case DRAIN_PAUSED => Attempt(s, d, DRAINING)
    case TRANSFER_PAUSED => Attempt(s, d, TRANSFERRING)
    case _ => Refused(s)
  }

  /** The bytes a burst may use; a forced transient burst leaves out one frame. */
  function Usable(c: Setup, available: nat, request: nat): nat
  {
    var n := Min(request, Min(available, c.bufferSize));
    if n >= c.frameSize && c.forceTransientBurst then n - c.frameSize else n
  }

  function Played(c: Setup, available: nat, request: nat, d: Answer): nat
  {
    var asked := Usable(c, available, request) / c.frameSize;
    if d.connected then Min(d.transferred, asked) else asked
  }

  lemma PlayedFits(c: Setup, available: nat, request: nat, d: Answer)
    ensures Played(c, available, request, d) * c.frameSize <= Min(request, Min(available, c.bufferSize))
  {
    WholeFrames(c.frameSize, Usable(c, available, request), Played(c, available, request, d));
  }

  /** Takes all data out of the queue and uses whole frames from its front. */
  function Write(c: Setup, s: Out, request: nat, d: Answer): (h: Handled)
    ensures h.status == Okay && h.bytes <= |s.queue| && h.bytes <= request && h.bytes <= c.bufferSize
  {
    PlayedFits(c, |s.queue|, request, d);
    var n := Played(c, |s.queue|, request, d);
    var bytes := n * c.frameSize;
    Handled(s.(frames := s.frames + n, queue := [], consumed := s.consumed + s.queue[..bytes]), Okay, bytes)
  }

  /** The state after data was taken; `all` when the whole request was. */
  function AfterWrite(c: Setup, s: Out, all: bool): StreamState
  {
    if s.state == STANDBY || s.state == DRAIN_PAUSED || s.state == PAUSED then
      if !c.hasCallback || s.state != DRAIN_PAUSED then PAUSED
      else if s.drain != EN_SENT then TRANSFER_PAUSED
      else s.state
    else if s.state == IDLE || s.state == ACTIVE || (s.state == DRAINING && s.drain != EN_SENT) then
      if !c.hasCallback || all then ACTIVE else TRANSFERRING
    else s.state
  }

  function HandleBurst(c: Setup, s: Out, count: int, d: Answer): Handled
  {
    if count < 0 then Handled(s, BadValue, 0)
    else if s.state == ERROR || s.state == TRANSFERRING || s.state == TRANSFER_PAUSED then Refused(s)
    else
      var h := Write(c, s, count, d);
      if d.connected && !d.driverOk then h.(s := h.s.(state := ERROR))
      else h.(s := h.s.(state := AfterWrite(c, s, h.bytes == count)))
  }

  function HandleDrain(c: Setup, s: Out, mode: DrainMode, d: Answer): Handled
  {
    if mode == UNSPECIFIED then Handled(s, BadValue, 0)
    else if s.state == ACTIVE || s.state == TRANSFERRING then
      if !d.driverOk then Handled(s.(state := ERROR), BadValue, 0)
      else if s.state == ACTIVE && c.forceSynchronousDrain then Handled(s.(state := IDLE), Okay, 0)
      else Handled(s.(state := DRAINING, drain := if mode == EARLY_NOTIFY then EN else FULL), Okay, 0)
    else if s.state == TRANSFER_PAUSED then Handled(s.(state := DRAIN_PAUSED), Okay, 0)
    else Refused(s)
  }

  /** The reply is filled in before the driver is asked, so a failure still reads as success. */
  function HandleStandby(s: Out, d: Answer): Handled
  {
    if s.state != IDLE then Refused(s)
    else Handled(s.(state := if d.driverOk then STANDBY else ERROR), Okay, 0)
  }

  function HandlePause(s: Out, d: Answer): Handled
  {
    match s.state
    case ACTIVE => Attempt(s, d, PAUSED)
    case DRAINING => Attempt(s, d, DRAIN_PAUSED)
    case TRANSFERRING => Attempt(s, d, TRANSFER_PAUSED)
    case _ => Refused(s)
  }

  function HandleFlush(s: Out, d: Answer): Handled
  {
    if s.state == PAUSED || s.state == DRAIN_PAUSED || s.state == TRANSFER_PAUSED then Attempt(s, d, IDLE)
    else Refused(s)
  }

  function Handle(c: Setup, s: Out, command: Command, d: Answer): Handled
  {
    match command
    case HalReservedExit(cookie) => Handled(if cookie == c.exitCookie then s.(state := CLOSED) else s, BadValue, 0)
    case GetStatus => Handled(s, Okay, 0)
    case Start => HandleStart(s, d)
    case Burst(count) => HandleBurst(c, s, count, d)
    case Drain(mode) => HandleDrain(c, s, mode, d)
    case Standby => HandleStandby(s, d)
    case Pause => HandlePause(s, d)
    case Flush => HandleFlush(s, d)
  }

  /** Without a callback, draining ends by itself after a while. */
  function Elapse(c: Setup, s: Out, d: Answer): Out
  {
    if s.state == DRAINING && !c.hasCallback && d.elapsed then s.(state := IDLE) else s
  }

  /** One cycle of the worker: the new state, what it did, and how the worker goes on. */
  function Cycle(c: Setup, s: Out, command: Command, d: Answer): (Out, seq<Event>, Progress)
  {
    var u := Elapse(c, s, d);
    if !d.commandRead then (u.(state := ERROR), [], Abort)
    else
      var h := Handle(c, u, command, d);
      if Silent(command) then (h.s, [], if command.cookie == c.exitCookie then Exit else Continue)
      else
        var event := Replied(command, Reply(h.status, h.bytes, h.s.state), d.replyWritten);
        if d.replyWritten then (h.s, [event], Continue) else (h.s.(state := ERROR), [event], Abort)
  }

  // ---------- Specification: driver callbacks ----------

  function OnBufferStateChange(c: Setup, s: Out): (Out, seq<Event>)
  {
    if s.state == TRANSFERRING || s.drain == EN_SENT then
      (if s.state == TRANSFERRING then s.(state := ACTIVE) else s, if c.hasCallback then [TransferReady] else [])
    else (s, [])
  }

  function OnClipStateChange(c: Setup, s: Out, clipFramesLeft: nat, hasNextClip: bool): (Out, seq<Event>)
  {
    if s.drain != NONE && clipFramesLeft == 0 then
      (s.(state := if hasNextClip then TRANSFERRING else IDLE, drain := NONE),
       if (s.drain == FULL || s.drain == EN_SENT) && c.hasCallback then [DrainReady] else [])
    else if s.drain == EN && clipFramesLeft > 0 then
      (s.(drain := EN_SENT), if c.hasCallback then [DrainReady] else [])
    else (s, [])
  }

  // ---------- Runs ----------

  datatype Action =
    | Run(command: Command, answer: Answer)
    /** The client puts data into the queue, if it fits. */
    | Fill(data: seq<Element>)
    | BufferState
    | ClipState(clipFramesLeft: nat, hasNextClip: bool)

  function Do(c: Setup, s: Out, a: Action): (Out, seq<Event>)
  {
    match a
    case Run(command, answer) =>
      var (u, events, _) := Cycle(c, s, command, answer);
      (u, events)
    case Fill(data) => (if |s.queue| + |data| <= c.bufferSize then s.(queue := s.queue + data) else s, [])
    case BufferState => OnBufferStateChange(c, s)
    case ClipState(left, hasNext) => OnClipStateChange(c, s, left, hasNext)
  }

  function After(c: Setup, s: Out, actions: seq<Action>): (Out, seq<Event>)
  {
    if |actions| == 0 then (s, [])
    else
      var n := |actions| - 1;
      var (before, log) := After(c, s, actions[..n]);
      var (u, events) := Do(c, before, actions[n]);
      (u, log + events)
  }

  /** What the pending drain may still announce. */
  function Owed(drain: DrainState): nat
  {
    match drain
    case NONE => 0
    case FULL => 1
    case EN => 2
    case EN_SENT => 1
  }

  ghost predicate Inv(c: Setup, s: Out, log: seq<Event>)
  {
    && |s.queue| <= c.bufferSize
    && s.frames * c.frameSize == |s.consumed|
    && Total(log, BurstBytes) == |s.consumed|
    && Total(log, Notification) + Owed(s.drain) <= Total(log, Allowance)
  }

  /** What one step adds, against what its events say. */
  ghost predicate Accounts(c: Setup, s: Out, u: Out, events: seq<Event>)
  {
    && u.frames >= s.frames
    && (u.frames - s.frames) * c.frameSize == Total(events, BurstBytes)
    && |u.consumed| == |s.consumed| + Total(events, BurstBytes)
    && Total(events, Notification) + Owed(u.drain) <= Owed(s.drain) + Total(events, Allowance)
    && (|s.queue| <= c.bufferSize ==> |u.queue| <= c.bufferSize)
  }

  lemma HandleAccounts(c: Setup, s: Out, command: Command, d: Answer)
    ensures
      var h := Handle(c, s, command, d);
      && h.s.frames >= s.frames
      && (h.s.frames - s.frames) * c.frameSize == h.bytes
      && (h.bytes > 0 ==> command.Burst?)
      && |h.s.consumed| == |s.consumed| + h.bytes
      && (|s.queue| <= c.bufferSize ==> |h.s.queue| <= c.bufferSize)
  {
    if command.Burst? && command.fmqByteCount >= 0 {
      WriteAccounts(c, s, command.fmqByteCount, d);
    }
  }

  lemma WriteAccounts(c: Setup, s: Out, request: nat, d: Answer)
    ensures
      var h := Write(c, s, request, d);
      && h.s.frames >= s.frames && (h.s.frames - s.frames) * c.frameSize == h.bytes
      && |h.s.consumed| == |s.consumed| + h.bytes
  {
    var n := Played(c, |s.queue|, request, d);
    assert Write(c, s, request, d).s.frames - s.frames == n;
  }

  lemma HandleOwes(c: Setup, s: Out, command: Command, d: Answer)
    ensures
      var h := Handle(c, s, command, d);
      Owed(h.s.drain) <= Owed(s.drain) + Allowance(Replied(command, Reply(h.status, h.bytes, h.s.state), d.replyWritten))
  {
    hide Usable, Played, AfterWrite;
  }

  lemma CycleAccounts(c: Setup, s: Out, command: Command, d: Answer)
    ensures
      var (u, events, _) := Cycle(c, s, command, d);
      Accounts(c, s, u, events)
  {
    hide Handle;
    var e := Elapse(c, s, d);
    var h := Handle(c, e, command, d);
    HandleAccounts(c, e, command, d);
    HandleOwes(c, e, command, d);
    var event := Replied(command, Reply(h.status, h.bytes, h.s.state), d.replyWritten);
    TotalOne(event, BurstBytes);
    TotalOne(event, Notification);
    TotalOne(event, Allowance);
  }

  lemma DoAccounts(c: Setup, s: Out, a: Action)
    ensures
      var (u, events) := Do(c, s, a);
      Accounts(c, s, u, events)
  {
    match a
    case Run(command, answer) => CycleAccounts(c, s, command, answer);
    case Fill(data) =>
    case BufferState =>
      TotalOne(TransferReady, BurstBytes);
      TotalOne(TransferReady, Notification);
      TotalOne(TransferReady, Allowance);
    case ClipState(left, hasNext) =>
      TotalOne(DrainReady, BurstBytes);
      TotalOne(DrainReady, Notification);
      TotalOne(DrainReady, Allowance);
  }

  lemma AccountsKeepInv(c: Setup, s: Out, log: seq<Event>, u: Out, events: seq<Event>)
    requires Inv(c, s, log) && Accounts(c, s, u, events)
    ensures Inv(c, u, log + events)
  {
    TotalAppend(log, events, BurstBytes);
    TotalAppend(log, events, Notification);
    TotalAppend(log, events, Allowance);
    MoreFrames(s.frames, u.frames - s.frames, c.frameSize);
  }

  /**
   * In every run of commands, client writes and driver callbacks: the frame counter times the frame
   * size is the sum of the byte counts in the burst replies, and drain notifications sent plus those
   * still owed never exceed one per accepted full drain and two per accepted early-notify drain.
   */
  lemma {:induction false} RunKeepsInv(c: Setup, actions: seq<Action>)
    ensures
      var (u, log) := After(c, START, actions);
      Inv(c, u, log)
  {
    hide Do, Accounts;
    if |actions| > 0 {
      var n := |actions| - 1;
      RunKeepsInv(c, actions[..n]);
      var (before, log) := After(c, START, actions[..n]);
      var (u, events) := Do(c, before, actions[n]);
      DoAccounts(c, before, actions[n]);
      AccountsKeepInv(c, before, log, u, events);
    }
  }

  /** No drain notification without an accepted drain that still owes it. */
  lemma NotificationsAreOwed(c: Setup, actions: seq<Action>, a: Action)
    ensures
      var (s, log) := After(c, START, actions);
      var (_, events) := Do(c, s, a);
      DrainReady in events ==>
        && s.drain != NONE
        && Total(log, Notification) < Total(log, Allowance)
  {
    hide Handle, Elapse;
    RunKeepsInv(c, actions);
  }

  /** Each burst takes whole frames, within the request, the data offered and the buffer. */
  lemma BurstTakesWholeFrames(c: Setup, s: Out, count: int, d: Answer)
    ensures
      var h := HandleBurst(c, s, count, d);
      && h.bytes % c.frameSize == 0
      && h.bytes <= |s.queue| && h.bytes <= c.bufferSize && (count >= 0 ==> h.bytes <= count)
      && h.status != NotEnoughData
      && h.s.consumed == s.consumed + s.queue[..h.bytes]
      && (h.status == Okay ==> h.s.queue == [])
  {
    if count >= 0 {
      MultipleOf(Played(c, |s.queue|, count, d), c.frameSize);
    }
  }

  /** So many frames, and `spare` more, are within the request, the data and the buffer; the driver takes them. */
  predicate Takeable(c: Setup, s: Out, count: int, d: Answer, frames: nat, spare: nat)
  {
    && (frames + spare) * c.frameSize <= count
    && (frames + spare) * c.frameSize <= |s.queue|
    && (frames + spare) * c.frameSize <= c.bufferSize
    && (d.connected ==> frames <= d.transferred)
  }

  /**
   * An accepted burst takes as many whole frames as there can be, and not one more; all but one of those
   * offered when a transient burst is forced. The frame counter and the reply say how many.
   */
  lemma BurstTakesMost(c: Setup, s: Out, count: int, d: Answer)
    requires HandleBurst(c, s, count, d).status == Okay
    ensures
      var h := HandleBurst(c, s, count, d);
      var n := h.s.frames - s.frames;
      var spare := if c.forceTransientBurst then 1 else 0;
      && n >= 0 && h.bytes == n * c.frameSize
      && (n == 0 || Takeable(c, s, count, d, n, spare))
      && !Takeable(c, s, count, d, n + 1, spare)
  {
    hide AfterWrite;
    var limit := Min(count, Min(|s.queue|, c.bufferSize));
    var n := Played(c, |s.queue|, count, d);
    assert HandleBurst(c, s, count, d).s.frames - s.frames == n;
    LimitOfFrames(c, limit, Usable(c, |s.queue|, count), n);
  }

  /** What the quotient in the transfer comes to. */
  lemma LimitOfFrames(c: Setup, limit: nat, usable: nat, n: nat)
    requires usable == if limit >= c.frameSize && c.forceTransientBurst then limit - c.frameSize else limit
    ensures
      var spare := if c.forceTransientBurst then 1 else 0;
      && (n <= usable / c.frameSize && n > 0 ==> (n + spare) * c.frameSize <= limit)
      && (usable / c.frameSize <= n ==> limit < (n + 1 + spare) * c.frameSize)
  {
    if n <= usable / c.frameSize && n > 0 {
      WholeFrames(c.frameSize, usable, n);
      MoreFrames(n, 1, c.frameSize);
      assert c.frameSize <= n * c.frameSize;
    }
    if usable / c.frameSize <= n {
      NoMoreFrames(c.frameSize, usable, n + 1);
      MoreFrames(n + 1, 1, c.frameSize);
    }
  }

  /** So a request for whole frames that is offered, fits and is transferred in full is consumed in full. */
  lemma FullBurstIsConsumed(c: Setup, s: Out, frames: nat, d: Answer)
    requires s.state !in {ERROR, TRANSFERRING, TRANSFER_PAUSED} && !c.forceTransientBurst
    requires |s.queue| == frames * c.frameSize <= c.bufferSize && (d.connected ==> frames <= d.transferred)
    ensures
      var h := HandleBurst(c, s, frames * c.frameSize, d);
      && h.status == Okay && h.bytes == frames * c.frameSize
      && h.s.frames == s.frames + frames && h.s.queue == [] && h.s.consumed == s.consumed + s.queue
  {
    var count := frames * c.frameSize;
    hide Write, AfterWrite, Played, Usable;
    var h := HandleBurst(c, s, count, d);
    assert h.status == Okay;
    BurstTakesMost(c, s, count, d);
    BurstTakesWholeFrames(c, s, count, d);
    hide HandleBurst;
    var n := h.s.frames - s.frames;
    FramesInOrder(n + 1, frames, c.frameSize);
    FramesInOrder(n, frames, c.frameSize);
    assert n == frames;
    assert s.queue[..|s.queue|] == s.queue;
  }

  /**
   * A command that is read is answered once, unless it is an internal exit: the reply names the state reached
   * and the bytes by which the frame counter has moved. The worker stops when a queue fails or the right
   * exit arrives, and goes on otherwise.
   */
  lemma RepliesAreTruthful(c: Setup, s: Out, command: Command, d: Answer)
    ensures
      var (u, events, progress) := Cycle(c, s, command, d);
      && (events == [] <==> !d.commandRead || Silent(command))
      && (events != [] ==>
            && |events| == 1 && events[0].Replied? && events[0].command == command && events[0].sent == d.replyWritten
            && events[0].reply.fmqByteCount == (u.frames - s.frames) * c.frameSize
            && (d.replyWritten ==> events[0].reply.state == u.state)
            && (!d.replyWritten ==> u.state == ERROR))
      && (progress == Abort <==> !d.commandRead || (!Silent(command) && !d.replyWritten))
      && (progress == Exit <==> d.commandRead && Silent(command) && command.cookie == c.exitCookie)
      && (progress == Exit ==> u.state == CLOSED)
  {
    hide HandleStart, HandleBurst, HandleDrain, HandleStandby, HandlePause, HandleFlush;
    HandleAccounts(c, Elapse(c, s, d), command, d);
  }

  /** What the client puts into the queue stands behind what is there, if it fits, and nothing else changes. */
  lemma FillAppends(c: Setup, s: Out, data: seq<Element>)
    ensures
      var (u, events) := Do(c, s, Fill(data));
      && u == s.(queue := u.queue) && events == []
      && (|s.queue| + |data| <= c.bufferSize ==> u.queue == s.queue + data)
      && (|s.queue| + |data| > c.bufferSize ==> u.queue == s.queue)
  {
  }

  // ---------- Where drains and notifications come apart ----------

  /**
   * An accepted drain that leaves the stream draining is recorded for notification, except when it
   * arrives while a transfer is paused: then whatever was recorded before stays.
   */
  lemma DrainIsRecorded(c: Setup, s: Out, mode: DrainMode, d: Answer)
    requires HandleDrain(c, s, mode, d).status == Okay
    requires HandleDrain(c, s, mode, d).s.state in {DRAINING, DRAIN_PAUSED}
    ensures
      var drain := HandleDrain(c, s, mode, d).s.drain;
      && (s.state == TRANSFER_PAUSED ==> drain == s.drain)
      && (s.state != TRANSFER_PAUSED ==> Owed(drain) == if mode == EARLY_NOTIFY then 2 else 1)
  {
  }

  /** A stream that drains with nothing recorded stays so, and silent, whatever the driver reports. */
  lemma {:induction false} UnrecordedDrainNeverEnds(c: Setup, s: Out, calls: seq<Action>)
    requires s.state == DRAINING && s.drain == NONE
    requires forall a | a in calls :: a.BufferState? || a.ClipState?
    ensures After(c, s, calls) == (s, [])
  {
    if |calls| > 0 {
      UnrecordedDrainNeverEnds(c, s, calls[..|calls| - 1]);
      var last := calls[|calls| - 1];
      assert last in calls;
      assert Do(c, s, last) == (s, []);
      var none: seq<Event> := [];
      assert none + none == none;
    }
  }

  function Good(transferred: nat): Answer
  {
    Answer(true, true, true, false, true, transferred, [])
  }

  /** With callbacks: a full drain accepted while a transfer is paused is never announced after a start. */
  lemma PausedDrainIsForgotten(c: Setup, calls: seq<Action>)
    requires c.hasCallback
    requires forall a | a in calls :: a.BufferState? || a.ClipState?
    ensures
      var d := Good(0);
      var one := Cycle(c, START, Start, d).0;
      var two := Cycle(c, one, Burst(1), d).0;
      var three := Cycle(c, two, Pause, d).0;
      var (four, drained, _) := Cycle(c, three, Drain(ALL), d);
      var five := Cycle(c, four, Start, d).0;
      && two.state == TRANSFERRING
      && drained == [Replied(Drain(ALL), Reply(Okay, 0, DRAIN_PAUSED), true)]
      && five.state == DRAINING
      && After(c, five, calls) == (five, [])
  {
    var d := Good(0);
    var one := Cycle(c, START, Start, d).0;
    var two := Cycle(c, one, Burst(1), d).0;
    var three := Cycle(c, two, Pause, d).0;
    var four := Cycle(c, three, Drain(ALL), d).0;
    var five := Cycle(c, four, Start, d).0;
    assert one.state == IDLE && one.drain == NONE;
    NothingPlayed(c, one);
    assert two.state == TRANSFERRING && two.drain == NONE;
    UnrecordedDrainNeverEnds(c, five, calls);
  }

  lemma NothingPlayed(c: Setup, s: Out)
    ensures Write(c, s, 1, Good(0)).bytes == 0
  {
    hide Usable;
    assert Played(c, |s.queue|, 1, Good(0)) == 0;
  }

  /** A pending drain outlives the draining: only a clip report or a new drain clears it. */
  lemma OnlyDrainsChangeDrain(c: Setup, s: Out, command: Command, d: Answer)
    ensures
      var u := Cycle(c, s, command, d).0;
      u.drain != s.drain ==> command.Drain? && u.drain in {FULL, EN}
  {
    hide Usable, Played, AfterWrite;
  }

  /**
   * So a stream flushed and put in standby while it was draining still announces the drain when the
   * driver reports the clip's end, and leaves standby without a command.
   */
  lemma FlushedDrainIsAnnounced(c: Setup, s: Out)
    requires c.hasCallback && s.state == DRAINING && s.drain == FULL
    ensures
      var d := Good(0);
      var paused := Cycle(c, s, Pause, d).0;
      var flushed := Cycle(c, paused, Flush, d).0;
      var resting := Cycle(c, flushed, Standby, d).0;
      var (u, events) := OnClipStateChange(c, resting, 0, false);
      resting.state == STANDBY && events == [DrainReady] && u.state == IDLE
  {
  }

  /**
   * A burst during an early-notify drain ends the draining but not the clip transition: a later report
   * of frames left in the clip still sends the first notification.
   */
  lemma BurstKeepsClipTransition(c: Setup, s: Out, count: nat, d: Answer, left: nat)
    requires c.hasCallback && s.state == DRAINING && s.drain == EN && left > 0
    requires d.driverOk && d.commandRead && d.replyWritten
    ensures
      var u := Cycle(c, s, Burst(count), d).0;
      var (w, events) := OnClipStateChange(c, u, left, false);
      u.state in {ACTIVE, TRANSFERRING} && events == [DrainReady] && w.drain == EN_SENT && w.state == u.state
  {
    hide Usable, Played;
  }

  // ---------- The client's data ----------

  /** One exchange: the client offers the front of its data, and drops what the reply acknowledges. */
  function Exchange(c: Setup, s: Out, pending: seq<Element>, offer: nat, d: Answer): (Out, seq<Element>, Status)
    requires offer <= |pending| && |s.queue| + offer <= c.bufferSize
  {
    var filled := s.(queue := s.queue + pending[..offer]);
    var h := HandleBurst(c, filled, offer, d);
    (h.s, if h.bytes <= |pending| then pending[h.bytes..] else [], h.status)
  }

  /**
   * Starting from an empty queue, an accepted burst leaves it empty, and nothing is lost or repeated:
   * what the stream has consumed followed by what the client still holds is as before. After a refused
   * burst the offer is stuck in the queue.
   */
  lemma ExchangeConserves(c: Setup, s: Out, pending: seq<Element>, offer: nat, d: Answer)
    requires s.queue == [] && offer <= |pending| && offer <= c.bufferSize
    ensures
      var (u, rest, status) := Exchange(c, s, pending, offer, d);
      && u.consumed + rest == s.consumed + pending
      && (status == InvalidOperation || status == Okay)
      && (u.queue == [] <==> status == Okay || offer == 0)
  {
    var filled := s.(queue := s.queue + pending[..offer]);
    var h := HandleBurst(c, filled, offer, d);
    hide Usable, Played, AfterWrite;
    assert filled.queue == pending[..offer];
    assert h.bytes <= offer;
    if h.status == Okay {
      assert h.s.consumed == s.consumed + pending[..offer][..h.bytes];
      assert pending[..offer][..h.bytes] == pending[..h.bytes];
      assert pending == pending[..h.bytes] + pending[h.bytes..];
    }
  }

  /** The client's moves: exchanges of data, other commands, and the driver's reports in between. */
  datatype Move = Offer(size: nat, answer: Answer) | Other(action: Action)

  predicate Sane(m: Move)
  {
    m.Other? ==> !m.action.Fill? && !(m.action.Run? && m.action.command.Burst?)
  }

  function Play(c: Setup, s: Out, pending: seq<Element>, moves: seq<Move>): (Out, seq<Element>, bool)
    decreases |moves|
  {
    if |moves| == 0 then (s, pending, true)
    else match moves[0]
      case Other(action) => Play(c, Do(c, s, action).0, pending, moves[1..])
      case Offer(size, answer) =>
        var offer := Min(size, Min(|pending|, c.bufferSize));
        if |s.queue| + offer > c.bufferSize then (s, pending, false)
        else
          var (u, rest, status) := Exchange(c, s, pending, offer, answer);
          if status == Okay then Play(c, u, rest, moves[1..]) else (u, rest, false)
  }

  /** Over any run whose bursts are all accepted, the stream consumes a prefix of the client's data. */
  lemma {:induction false} NoDataLost(c: Setup, s: Out, pending: seq<Element>, moves: seq<Move>)
    requires s.queue == [] && forall m | m in moves :: Sane(m)
    ensures
      var (u, rest, _) := Play(c, s, pending, moves);
      u.consumed + rest == s.consumed + pending
    decreases |moves|
  {
    hide Exchange, Do;
    if |moves| > 0 {
      match moves[0]
      case Other(action) =>
        assert Sane(moves[0]);
        OtherKeepsData(c, s, action);
        NoDataLost(c, Do(c, s, action).0, pending, moves[1..]);
      case Offer(size, answer) =>
        var offer := Min(size, Min(|pending|, c.bufferSize));
        ExchangeConserves(c, s, pending, offer, answer);
        var (u, rest, status) := Exchange(c, s, pending, offer, answer);
        if status == Okay {
          NoDataLost(c, u, rest, moves[1..]);
        }
    }
  }

  lemma OtherKeepsData(c: Setup, s: Out, action: Action)
    requires !action.Fill? && !(action.Run? && action.command.Burst?)
    ensures Do(c, s, action).0.queue == s.queue && Do(c, s, action).0.consumed == s.consumed
  {
  }
}
