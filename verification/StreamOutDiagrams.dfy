/**
 * The published state diagrams of output streams, and exactly when a stream keeps to them: one diagram
 * for streams with callbacks (stream-out-async-sm.gv), one for streams without (stream-out-sm.gv).
 */
module StreamOutDiagrams {
  import opened StreamCommands
  import opened StreamOuts

  // ---------- The diagrams ----------

  /** `En` and `EnSent` are the two clusters of the diagram with callbacks, for early-notify drains. */
  datatype Variant = Plain | En | EnSent

  datatype Node = Node(state: StreamState, variant: Variant)

  const FIRST := Node(STANDBY, Plain)

  /** `LSilent` labels the arrows that neither a command nor a callback announces. */
  datatype Label =
    | LStart | LBurst | LDrain(mode: DrainMode) | LStandby | LPause | LFlush
    | LTransferReady | LDrainReady | LError | LClose | LSilent

  /** Two states in the main part of a diagram. */
  predicate Main(from: Node, a: StreamState, to: Node, b: StreamState)
  {
    from == Node(a, Plain) && to == Node(b, Plain)
  }

  /** The arrows of stream-out-async-sm.gv. */
  predicate AsyncArrow(from: Node, tag: Label, to: Node)
  {
    match tag
    case LStart =>
      || Main(from, STANDBY, to, IDLE)
      || Main(from, TRANSFER_PAUSED, to, TRANSFERRING)
      || Main(from, PAUSED, to, ACTIVE)
      || Main(from, DRAIN_PAUSED, to, DRAINING)
      || (from == Node(DRAIN_PAUSED, En) && to == Node(DRAINING, En))
      || (from == Node(DRAIN_PAUSED, EnSent) && to == Node(DRAINING, EnSent))
    case LBurst =>
      || Main(from, STANDBY, to, PAUSED)
      || Main(from, IDLE, to, TRANSFERRING)
      || Main(from, IDLE, to, ACTIVE)
      || Main(from, ACTIVE, to, TRANSFERRING)
      || Main(from, ACTIVE, to, ACTIVE)
      || Main(from, PAUSED, to, PAUSED)
      || Main(from, DRAINING, to, TRANSFERRING)
      || Main(from, DRAINING, to, ACTIVE)
      || Main(from, DRAIN_PAUSED, to, TRANSFER_PAUSED)
      || (from == Node(DRAINING, En) && to == Node(TRANSFERRING, Plain))
      || (from == Node(DRAINING, En) && to == Node(ACTIVE, Plain))
      || (from == Node(DRAIN_PAUSED, En) && to == Node(TRANSFER_PAUSED, Plain))
      || (from == Node(DRAINING, EnSent) && to == Node(DRAINING, EnSent))
      || (from == Node(DRAIN_PAUSED, EnSent) && to == Node(DRAIN_PAUSED, EnSent))
    case LDrain(mode) =>
      || (mode == ALL && Main(from, ACTIVE, to, DRAINING))
      || (mode == EARLY_NOTIFY && from == Node(ACTIVE, Plain) && to == Node(DRAINING, En))
      || (mode == ALL && Main(from, TRANSFERRING, to, DRAINING))
      || (mode == EARLY_NOTIFY && from == Node(TRANSFERRING, Plain) && to == Node(DRAINING, En))
      || (mode == ALL && Main(from, TRANSFER_PAUSED, to, DRAIN_PAUSED))
    case LStandby => Main(from, IDLE, to, STANDBY)
    case LPause =>
      || Main(from, ACTIVE, to, PAUSED)
      || Main(from, TRANSFERRING, to, TRANSFER_PAUSED)
      || Main(from, DRAINING, to, DRAIN_PAUSED)
      || (from == Node(DRAINING, En) && to == Node(DRAIN_PAUSED, En))
      || (from == Node(DRAINING, EnSent) && to == Node(DRAIN_PAUSED, EnSent))
    case LFlush =>
      || Main(from, TRANSFER_PAUSED, to, IDLE)
      || Main(from, PAUSED, to, IDLE)
      || Main(from, DRAIN_PAUSED, to, IDLE)
      || (from == Node(DRAIN_PAUSED, En) && to == Node(IDLE, Plain))
      || (from == Node(DRAIN_PAUSED, EnSent) && to == Node(IDLE, Plain))
    case LTransferReady =>
      || Main(from, TRANSFERRING, to, ACTIVE)
      || (from == Node(DRAINING, EnSent) && to == Node(DRAINING, EnSent))
    case LDrainReady =>
      || Main(from, DRAINING, to, IDLE)
      || (from == Node(DRAINING, En) && to == Node(DRAINING, EnSent))
      || (from == Node(DRAINING, EnSent) && to == Node(TRANSFERRING, Plain))
      || (from == Node(DRAINING, EnSent) && to == Node(IDLE, Plain))
    case LError => to == Node(ERROR, Plain)
    case LClose => to == Node(CLOSED, Plain)
    case LSilent => false
  }

  /** The arrows of stream-out-sm.gv; empty buffer and hardware failure are the silent ones. */
  predicate SyncArrow(from: Node, tag: Label, to: Node)
  {
    match tag
    case LStart =>
      || Main(from, STANDBY, to, IDLE)
      || Main(from, PAUSED, to, ACTIVE)
      || Main(from, DRAIN_PAUSED, to, DRAINING)
    case LBurst =>
      || Main(from, STANDBY, to, PAUSED)
      || Main(from, IDLE, to, ACTIVE)
      || Main(from, ACTIVE, to, ACTIVE)
      || Main(from, PAUSED, to, PAUSED)
      || Main(from, DRAINING, to, ACTIVE)
      || Main(from, DRAIN_PAUSED, to, PAUSED)
    case LDrain(_) =>
      || Main(from, ACTIVE, to, DRAINING)
      || Main(from, ACTIVE, to, IDLE)
    case LStandby => Main(from, IDLE, to, STANDBY)
    case LPause =>
      || Main(from, ACTIVE, to, PAUSED)
      || Main(from, DRAINING, to, DRAIN_PAUSED)
    case LFlush =>
      || Main(from, PAUSED, to, IDLE)
      || Main(from, DRAIN_PAUSED, to, IDLE)
    case LTransferReady => false
    case LDrainReady => false
    case LError => false
    case LClose => to == Node(CLOSED, Plain)
    case LSilent =>
      || Main(from, DRAINING, to, IDLE)
      || Main(from, IDLE, to, ERROR)
      || Main(from, ACTIVE, to, ERROR)
      || Main(from, DRAINING, to, ERROR)
  }

  predicate Arrow(c: Setup, from: Node, tag: Label, to: Node)
  {
    if c.hasCallback then AsyncArrow(from, tag, to) else SyncArrow(from, tag, to)
  }

  ghost predicate HasArrow(c: Setup, from: Node, tag: Label)
  {
    exists to :: Arrow(c, from, tag, to)
  }

  // ---------- Following a diagram ----------

  predicate IsDraining(state: StreamState)
  {
    state == DRAINING || state == DRAIN_PAUSED
  }

  /** The only node with that state that an arrow with that label can lead to. */
  function Successor(c: Setup, from: Node, tag: Label, state: StreamState): Node
  {
    if !c.hasCallback || !IsDraining(state) then Node(state, Plain)
    else match tag
      case LDrain(mode) => Node(state, if mode == EARLY_NOTIFY then En else Plain)
      case LDrainReady => Node(state, EnSent)
      case _ => Node(state, from.variant)
  }

  /** What is seen of the stream determines where the diagram is. */
  lemma SuccessorIsUnique(c: Setup, from: Node, tag: Label, to: Node)
    requires Arrow(c, from, tag, to)
    ensures to == Successor(c, from, tag, to.state)
  {
  }

  /** Something seen of the stream: an announced or silent change, and the state after it. */
  datatype Seen = Seen(tag: Label, state: StreamState)

  function Track(c: Setup, n: Node, steps: seq<Seen>): Node
    decreases |steps|
  {
    if |steps| == 0 then n else Track(c, Successor(c, n, steps[0].tag, steps[0].state), steps[1..])
  }

  predicate Walks(c: Setup, n: Node, steps: seq<Seen>)
    decreases |steps|
  {
    |steps| == 0 ||
    (Arrow(c, n, steps[0].tag, Successor(c, n, steps[0].tag, steps[0].state)) &&
     Walks(c, Successor(c, n, steps[0].tag, steps[0].state), steps[1..]))
  }

  function LabelOf(command: Command): Label
  {
    match command
    case HalReservedExit(_) => LClose
    case GetStatus => LSilent
    case Start => LStart
    case Burst(_) => LBurst
    case Drain(mode) => LDrain(mode)
    case Standby => LStandby
    case Pause => LPause
    case Flush => LFlush
  }

  /** A change that nothing announces is seen only if the state differs. */
  function Silently(from: StreamState, to: StreamState): seq<Seen>
  {
    if from == to then [] else [Seen(LSilent, to)]
  }

  /**
   * What is seen of a command: nothing when it is refused, has a bad argument or asks for the status; a
   * silent change when it fails, since no error callback is ever sent; otherwise the command.
   */
  function CommandSeen(c: Setup, s: Out, command: Command, d: Answer): seq<Seen>
  {
    var h := Handle(c, s, command, d);
    if command.HalReservedExit? then
      if command.cookie == c.exitCookie then [Seen(LClose, CLOSED)] else []
    else if h.status == InvalidOperation || !InDiagram(command) then []
    else if h.s.state == ERROR then Silently(s.state, ERROR)
    else [Seen(LabelOf(command), h.s.state)]
  }

  /** What is seen of one cycle of the worker. */
  function CycleSeen(c: Setup, s: Out, command: Command, d: Answer): seq<Seen>
  {
    var u := Elapse(c, s, d);
    Silently(s.state, u.state) +
    (if !d.commandRead then Silently(u.state, ERROR)
     else
       CommandSeen(c, u, command, d) +
       (if Silent(command) || d.replyWritten then [] else Silently(Handle(c, u, command, d).s.state, ERROR)))
  }

  /** What is seen of one action: a callback is announced by its event. */
  function ActionSeen(c: Setup, s: Out, a: Action): seq<Seen>
  {
    match a
    case Run(command, d) => CycleSeen(c, s, command, d)
    case Fill(_) => []
    case BufferState =>
      var (u, events) := OnBufferStateChange(c, s);
      if events == [] then Silently(s.state, u.state) else [Seen(LTransferReady, u.state)]
    case ClipState(left, hasNext) =>
      var (u, events) := OnClipStateChange(c, s, left, hasNext);
      if events == [] then Silently(s.state, u.state) else [Seen(LDrainReady, u.state)]
  }

  /** A command of the diagrams with a valid argument. */
  predicate InDiagram(command: Command)
  {
    match command
    case HalReservedExit(_) => false
    case GetStatus => false
    case Burst(count) => count >= 0
    case Drain(mode) => mode != UNSPECIFIED
    case _ => true
  }

  /** A stream and the place of the diagram it has reached. */
  datatype Stage = Stage(s: Out, n: Node)

  datatype Trail = On(stage: Stage) | Off

  /** Follows a run from the start along the diagram, as long as the diagram has the arrows for it. */
  function Follow(c: Setup, actions: seq<Action>): Trail
  {
    if |actions| == 0 then On(Stage(START, FIRST))
    else
      var last := actions[|actions| - 1];
      match Follow(c, actions[..|actions| - 1])
      case Off => Off
      case On(Stage(s, n)) =>
        if Walks(c, n, ActionSeen(c, s, last)) then On(Stage(Do(c, s, last).0, Track(c, n, ActionSeen(c, s, last))))
        else Off
  }

  /** Where the diagram is after a run, whether or not it had arrows for it. */
  function Place(c: Setup, actions: seq<Action>): Node
  {
    if |actions| == 0 then FIRST
    else
      var before := actions[..|actions| - 1];
      Track(c, Place(c, before), ActionSeen(c, After(c, START, before).0, actions[|actions| - 1]))
  }

  // ---------- When a stream departs from its diagram ----------

  /** The drain that the diagram's state stands for. */
  function PendingOf(n: Node): DrainState
  {
    if !IsDraining(n.state) then NONE
    else match n.variant
      case Plain => FULL
      case En => EN
      case EnSent => EN_SENT
  }

  /** The pending drain is not the one the stream is draining for: it was left behind earlier. */
  predicate LeftBehind(s: Out, n: Node)
  {
    s.drain != NONE && s.drain != PendingOf(n)
  }

  predicate AsksDriver(state: StreamState, command: Command, d: Answer)
  {
    match command
    case HalReservedExit(_) => false
    case GetStatus => false
    case Start => state == STANDBY || state == PAUSED || state == DRAIN_PAUSED || state == TRANSFER_PAUSED
    case Burst(count) =>
      count >= 0 && state != ERROR && state != TRANSFERRING && state != TRANSFER_PAUSED && d.connected
    case Drain(mode) => mode != UNSPECIFIED && (state == ACTIVE || state == TRANSFERRING)
    case Standby => state == IDLE
    case Pause => state == ACTIVE || state == DRAINING || state == TRANSFERRING
    case Flush => state == PAUSED || state == DRAIN_PAUSED || state == TRANSFER_PAUSED
  }

  /** A silent failure: never in the diagram with callbacks, and from three states in the other. */
  predicate FailureDeparts(c: Setup, state: StreamState)
  {
    state != ERROR && (c.hasCallback || (state != IDLE && state != ACTIVE && state != DRAINING))
  }

  predicate CommandDeparts(c: Setup, s: Out, n: Node, command: Command, d: Answer)
  {
    if AsksDriver(s.state, command, d) && !d.driverOk then FailureDeparts(c, s.state)
    else match command
      case Burst(count) =>
        count >= 0 &&
        (|| s.state == CLOSED
         || (c.hasCallback && IsDraining(s.state) && s.drain == EN_SENT && LeftBehind(s, n))
         || (!c.hasCallback && s.state == DRAINING && s.drain == EN_SENT))
      case Drain(mode) =>
        c.hasCallback &&
        (|| (s.state == ACTIVE && mode != UNSPECIFIED && c.forceSynchronousDrain)
         || (s.state == TRANSFER_PAUSED && mode == EARLY_NOTIFY))
      case _ => false
  }

  predicate CycleDeparts(c: Setup, s: Out, n: Node, command: Command, d: Answer)
  {
    var u := Elapse(c, s, d);
    if !d.commandRead then FailureDeparts(c, u.state)
    else
      || CommandDeparts(c, u, if u == s then n else Node(IDLE, Plain), command, d)
      || (!Silent(command) && !d.replyWritten && FailureDeparts(c, Handle(c, u, command, d).s.state))
  }

  /** A buffer report while a drain is announced, unless the diagram is in that state too. */
  predicate BufferDeparts(c: Setup, s: Out, n: Node)
  {
    c.hasCallback && s.state != TRANSFERRING && s.drain == EN_SENT && n != Node(DRAINING, EnSent)
  }

  predicate ClipDeparts(c: Setup, s: Out, n: Node, left: nat, hasNext: bool)
  {
    if s.drain == NONE then false
    else if left > 0 then c.hasCallback && s.drain == EN && n != Node(DRAINING, En)
    else if c.hasCallback && s.drain != EN then
      n.state != DRAINING || (n.variant == Plain && hasNext)
    else if c.hasCallback then s.state != if hasNext then TRANSFERRING else IDLE
    else hasNext || (s.state != IDLE && s.state != DRAINING)
  }

  /** The condition, on what is there before the action, under which it has no arrow. */
  predicate Departs(c: Setup, s: Out, n: Node, a: Action)
  {
    match a
    case Run(command, d) => CycleDeparts(c, s, n, command, d)
    case Fill(_) => false
    case BufferState => BufferDeparts(c, s, n)
    case ClipState(left, hasNext) => ClipDeparts(c, s, n, left, hasNext)
  }

  /** The stream and the diagram agree; the diagram's early-notify states are recorded by the stream. */
  predicate Agree(c: Setup, s: Out, n: Node)
  {
    && n.state == s.state
    && (n.variant != Plain ==> c.hasCallback && IsDraining(n.state) && s.drain == PendingOf(n))
    && (!c.hasCallback ==> s.state != TRANSFERRING && s.state != TRANSFER_PAUSED)
  }

  lemma WalkAppend(c: Setup, n: Node, a: seq<Seen>, b: seq<Seen>)
    requires |a| <= 1
    ensures Walks(c, n, a + b) <==> Walks(c, n, a) && Walks(c, Track(c, n, a), b)
    ensures Track(c, n, a + b) == Track(c, Track(c, n, a), b)
  {
    if |a| == 0 {
      assert a + b == b;
    } else {
      assert (a + b)[1..] == b && a[1..] == [];
    }
  }

  lemma WalkOne(c: Setup, n: Node, seen: Seen)
    ensures Walks(c, n, [seen]) <==> Arrow(c, n, seen.tag, Successor(c, n, seen.tag, seen.state))
    ensures Track(c, n, [seen]) == Successor(c, n, seen.tag, seen.state)
  {
    assert [seen][1..] == [];
  }

  lemma FailureWalks(c: Setup, s: Out, n: Node)
    requires Agree(c, s, n)
    ensures Walks(c, n, Silently(s.state, ERROR)) <==> !FailureDeparts(c, s.state)
    ensures Walks(c, n, Silently(s.state, ERROR)) ==> Agree(c, s.(state := ERROR), Track(c, n, Silently(s.state, ERROR)))
  {
    WalkOne(c, n, Seen(LSilent, ERROR));
  }

  /** What is claimed of one command: it has its arrow exactly when the condition does not hold. */
  ghost predicate CommandClaim(c: Setup, s: Out, n: Node, command: Command, d: Answer)
  {
    var seen := CommandSeen(c, s, command, d);
    && |seen| <= 1
    && (Walks(c, n, seen) <==> !CommandDeparts(c, s, n, command, d))
    && (Walks(c, n, seen) ==> Agree(c, Handle(c, s, command, d).s, Track(c, n, seen)))
  }

  lemma BurstOutcome(c: Setup, s: Out, count: int, d: Answer)
    ensures
      var h := HandleBurst(c, s, count, d);
      if count < 0 then h == Handled(s, BadValue, 0)
      else if s.state == ERROR || s.state == TRANSFERRING || s.state == TRANSFER_PAUSED then h == StreamOuts.Refused(s)
      else
        && h.status == Okay && h.s.drain == s.drain
        && (if d.connected && !d.driverOk then h.s.state == ERROR
            else h.s.state == AfterWrite(c, s, true) || h.s.state == AfterWrite(c, s, false))
  {
    hide Usable, Played, AfterWrite;
  }

  lemma BurstWalks(c: Setup, s: Out, n: Node, count: int, d: Answer)
    requires Agree(c, s, n)
    ensures CommandClaim(c, s, n, Burst(count), d)
  {
    hide HandleBurst, Track, Walks;
    var seen := CommandSeen(c, s, Burst(count), d);
    FailureWalks(c, s, n);
    NothingSeen(c, n);
    BurstOutcome(c, s, count, d);
    if |seen| == 1 { WalkOne(c, n, seen[0]); }
    if c.hasCallback {
      hide SyncArrow;
      assert seen == [] || seen == [seen[0]];
    } else {
      hide AsyncArrow;
      assert seen == [] || seen == [seen[0]];
    }
  }

  lemma DrainWalks(c: Setup, s: Out, n: Node, mode: DrainMode, d: Answer)
    requires Agree(c, s, n)
    ensures CommandClaim(c, s, n, Drain(mode), d)
  {
    var seen := CommandSeen(c, s, Drain(mode), d);
    FailureWalks(c, s, n);
    if |seen| == 1 { WalkOne(c, n, seen[0]); }
  }

  lemma StartWalks(c: Setup, s: Out, n: Node, command: Command, d: Answer)
    requires Agree(c, s, n) && (command.Start? || command.Standby?)
    ensures CommandClaim(c, s, n, command, d)
  {
    var seen := CommandSeen(c, s, command, d);
    FailureWalks(c, s, n);
    if |seen| == 1 { WalkOne(c, n, seen[0]); }
  }

  lemma PauseWalks(c: Setup, s: Out, n: Node, command: Command, d: Answer)
    requires Agree(c, s, n) && (command.Pause? || command.Flush?)
    ensures CommandClaim(c, s, n, command, d)
  {
    var seen := CommandSeen(c, s, command, d);
    FailureWalks(c, s, n);
    if |seen| == 1 { WalkOne(c, n, seen[0]); }
  }

  /** A command keeps to the diagram exactly when the condition does not hold. */
  lemma CommandWalks(c: Setup, s: Out, n: Node, command: Command, d: Answer)
    requires Agree(c, s, n)
    ensures CommandClaim(c, s, n, command, d)
  {
    match command
    case Burst(count) => BurstWalks(c, s, n, count, d);
    case Drain(mode) => DrainWalks(c, s, n, mode, d);
    case Start => StartWalks(c, s, n, command, d);
    case Standby => StartWalks(c, s, n, command, d);
    case Pause => PauseWalks(c, s, n, command, d);
    case Flush => PauseWalks(c, s, n, command, d);
    case GetStatus =>
    case HalReservedExit(_) => WalkOne(c, n, Seen(LClose, CLOSED));
  }

  lemma ElapseWalks(c: Setup, s: Out, n: Node, d: Answer)
    requires Agree(c, s, n)
    ensures
      var u := Elapse(c, s, d);
      var seen := Silently(s.state, u.state);
      && |seen| <= 1 && Walks(c, n, seen)
      && Track(c, n, seen) == (if u == s then n else Node(IDLE, Plain))
      && Agree(c, u, Track(c, n, seen))
  {
    WalkOne(c, n, Seen(LSilent, IDLE));
  }

  lemma CycleWalks(c: Setup, s: Out, n: Node, command: Command, d: Answer)
    requires Agree(c, s, n)
    ensures
      var seen := CycleSeen(c, s, command, d);
      && (Walks(c, n, seen) <==> !CycleDeparts(c, s, n, command, d))
      && (Walks(c, n, seen) ==> Agree(c, Cycle(c, s, command, d).0, Track(c, n, seen)))
  {
    hide Elapse, Handle, Walks, Track, Agree, FailureDeparts, CommandDeparts, CommandSeen, Silently;
    var u := Elapse(c, s, d);
    var first := Silently(s.state, u.state);
    ElapseWalks(c, s, n, d);
    var m := Track(c, n, first);
    if !d.commandRead {
      WalkAppend(c, n, first, Silently(u.state, ERROR));
      FailureWalks(c, u, m);
    } else {
      var h := Handle(c, u, command, d);
      var second := CommandSeen(c, u, command, d);
      var third := if Silent(command) || d.replyWritten then [] else Silently(h.s.state, ERROR);
      WalkAppend(c, n, first, second + third);
      CommandWalks(c, u, m, command, d);
      WalkAppend(c, m, second, third);
      assert first + second + third == first + (second + third);
      if Walks(c, m, second) {
        FailureWalks(c, h.s, Track(c, m, second));
        NothingSeen(c, Track(c, m, second));
      }
    }
  }

  lemma NothingSeen(c: Setup, n: Node)
    ensures Walks(c, n, []) && Track(c, n, []) == n
  {
  }

  lemma BufferWalks(c: Setup, s: Out, n: Node)
    requires Agree(c, s, n)
    ensures
      var seen := ActionSeen(c, s, BufferState);
      && (Walks(c, n, seen) <==> !BufferDeparts(c, s, n))
      && (Walks(c, n, seen) ==> Agree(c, OnBufferStateChange(c, s).0, Track(c, n, seen)))
  {
    var seen := ActionSeen(c, s, BufferState);
    if |seen| == 1 { WalkOne(c, n, seen[0]); }
  }

  lemma ClipWalks(c: Setup, s: Out, n: Node, left: nat, hasNext: bool)
    requires Agree(c, s, n)
    ensures
      var seen := ActionSeen(c, s, ClipState(left, hasNext));
      && (Walks(c, n, seen) <==> !ClipDeparts(c, s, n, left, hasNext))
      && (Walks(c, n, seen) ==> Agree(c, OnClipStateChange(c, s, left, hasNext).0, Track(c, n, seen)))
  {
    var seen := ActionSeen(c, s, ClipState(left, hasNext));
    if |seen| == 1 { WalkOne(c, n, seen[0]); }
  }

  /**
   * One command, callback or failure, from any state in which stream and diagram agree: the published
   * diagram has the arrows for what is seen if and only if the condition `Departs` does not hold.
   */
  lemma ActionsFollowDiagram(c: Setup, s: Out, n: Node, a: Action)
    requires Agree(c, s, n)
    ensures
      var seen := ActionSeen(c, s, a);
      && (Walks(c, n, seen) <==> !Departs(c, s, n, a))
      && (Walks(c, n, seen) ==> Agree(c, Do(c, s, a).0, Track(c, n, seen)))
  {
    hide CycleSeen, CycleDeparts, Cycle, Walks, Track, Agree;
    match a
    case Run(command, d) => CycleWalks(c, s, n, command, d);
    case Fill(_) => NothingSeen(c, n); FillAgrees(c, s, n, a);
    case BufferState => BufferWalks(c, s, n);
    case ClipState(left, hasNext) => ClipWalks(c, s, n, left, hasNext);
  }

  lemma FillAgrees(c: Setup, s: Out, n: Node, a: Action)
    requires Agree(c, s, n) && a.Fill?
    ensures Agree(c, Do(c, s, a).0, n)
  {
  }

  /** No action of the run departs. */
  predicate NeverDeparts(c: Setup, actions: seq<Action>)
  {
    |actions| == 0 ||
    var before := actions[..|actions| - 1];
    NeverDeparts(c, before) && !Departs(c, After(c, START, before).0, Place(c, before), actions[|actions| - 1])
  }

  /**
   * A whole run from the start follows its diagram, arrow by arrow, if and only if no action departs;
   * and then stream and diagram agree on the state.
   */
  lemma {:induction false} RunsFollowDiagram(c: Setup, actions: seq<Action>)
    ensures Follow(c, actions).On? <==> NeverDeparts(c, actions)
    ensures Follow(c, actions).On? ==>
      && Follow(c, actions).stage == Stage(After(c, START, actions).0, Place(c, actions))
      && Agree(c, Follow(c, actions).stage.s, Follow(c, actions).stage.n)
  {
    hide Do, ActionSeen, Departs, Walks, Track;
    if |actions| > 0 {
      var before := actions[..|actions| - 1];
      RunsFollowDiagram(c, before);
      if Follow(c, before).On? {
        ActionsFollowDiagram(c, After(c, START, before).0, Place(c, before), actions[|actions| - 1]);
      }
    }
  }

  // ---------- Refusals ----------

  /**
   * A command is refused exactly when no arrow with its label leaves the diagram's state, and then changes
   * nothing. The only exceptions: an early-notify drain while a transfer is paused, and a burst after
   * closing, are accepted without an arrow.
   */
  lemma CommandsFollowDiagram(c: Setup, s: Out, n: Node, command: Command, d: Answer)
    requires Agree(c, s, n) && InDiagram(command)
    ensures
      var h := Handle(c, s, command, d);
      var beyond :=
        || (c.hasCallback && s.state == TRANSFER_PAUSED && command == Drain(EARLY_NOTIFY))
        || (s.state == CLOSED && command.Burst?);
      && ((h.status == InvalidOperation <==> !HasArrow(c, n, LabelOf(command))) <==> !beyond)
      && (h.status == InvalidOperation ==> h.s == s && h.bytes == 0)
  {
    hide Handle, Refusing, HasArrow;
    RefusedByState(c, s, command, d);
    match command
    case Burst(count) => BurstArrows(c, s, n, count);
    case Drain(mode) => DrainArrows(c, s, n, mode);
    case _ => OtherArrows(c, s, n, command);
  }

  /** The states in which the code refuses the command. */
  predicate Refusing(state: StreamState, command: Command)
  {
    match command
    case Start => state != STANDBY && state != PAUSED && state != DRAIN_PAUSED && state != TRANSFER_PAUSED
    case Burst(_) => state == ERROR || state == TRANSFERRING || state == TRANSFER_PAUSED
    case Drain(_) => state != ACTIVE && state != TRANSFERRING && state != TRANSFER_PAUSED
    case Standby => state != IDLE
    case Pause => state != ACTIVE && state != DRAINING && state != TRANSFERRING
    case Flush => state != PAUSED && state != DRAIN_PAUSED && state != TRANSFER_PAUSED
    case _ => false
  }

  /**
   * What the status of a reply means: refused by the state; a bad argument, an exit, or a driver that fails a
   * command other than a burst or a standby; and otherwise success. The driver's failure always leads to the
   * error state, and nothing else does.
   */
  lemma StatusesMean(c: Setup, s: Out, command: Command, d: Answer)
    ensures
      var h := Handle(c, s, command, d);
      var failed := AsksDriver(s.state, command, d) && !d.driverOk;
      && (h.status == InvalidOperation <==> InDiagram(command) && Refusing(s.state, command))
      && (h.status == BadValue <==>
            || (!InDiagram(command) && !command.GetStatus?)
            || (failed && !command.Burst? && !command.Standby?))
      && h.status != NotEnoughData
      && (failed ==> h.s.state == ERROR)
      && (h.s.state == ERROR ==> failed || s.state == ERROR)
  {
    hide Usable, Played;
  }

  lemma RefusedByState(c: Setup, s: Out, command: Command, d: Answer)
    requires InDiagram(command)
    ensures
      var h := Handle(c, s, command, d);
      && (h.status == InvalidOperation <==> Refusing(s.state, command))
      && (h.status == InvalidOperation ==> h.s == s && h.bytes == 0)
  {
    hide Usable, Played, AfterWrite;
  }

  lemma BurstArrows(c: Setup, s: Out, n: Node, count: nat)
    requires Agree(c, s, n)
    ensures HasArrow(c, n, LBurst) <==> !Refusing(s.state, Burst(count)) && s.state != CLOSED
    ensures s.state == CLOSED ==> !Refusing(s.state, Burst(count))
  {
    if Refusing(s.state, Burst(count)) || s.state == CLOSED {
      forall to ensures !Arrow(c, n, LBurst, to) {}
    } else {
      var state := match s.state
        case DRAINING => if n.variant == EnSent then DRAINING else ACTIVE
        case DRAIN_PAUSED => if !c.hasCallback then PAUSED else if n.variant == EnSent then DRAIN_PAUSED else TRANSFER_PAUSED
        case IDLE => ACTIVE
        case ACTIVE => ACTIVE
        case _ => PAUSED;
      assert Arrow(c, n, LBurst, Node(state, if n.variant == EnSent then EnSent else Plain));
    }
  }

  lemma DrainArrows(c: Setup, s: Out, n: Node, mode: DrainMode)
    requires Agree(c, s, n) && mode != UNSPECIFIED
    ensures HasArrow(c, n, LDrain(mode)) <==>
      !Refusing(s.state, Drain(mode)) && !(c.hasCallback && s.state == TRANSFER_PAUSED && mode == EARLY_NOTIFY)
    ensures s.state == TRANSFER_PAUSED ==> !Refusing(s.state, Drain(mode))
  {
    var beyond := c.hasCallback && s.state == TRANSFER_PAUSED && mode == EARLY_NOTIFY;
    if Refusing(s.state, Drain(mode)) || beyond {
      forall to ensures !Arrow(c, n, LDrain(mode), to) {}
    } else {
      var state := if s.state == TRANSFER_PAUSED then DRAIN_PAUSED else DRAINING;
      assert Arrow(c, n, LDrain(mode), Node(state, if c.hasCallback && mode == EARLY_NOTIFY then En else Plain));
    }
  }

  lemma OtherArrows(c: Setup, s: Out, n: Node, command: Command)
    requires Agree(c, s, n) && InDiagram(command) && !command.Burst? && !command.Drain?
    ensures HasArrow(c, n, LabelOf(command)) <==> !Refusing(s.state, command)
  {
    if Refusing(s.state, command) {
      forall to ensures !Arrow(c, n, LabelOf(command), to) {}
    } else {
      var h := Handle(c, s, command, Good(0));
      var variant := if IsDraining(h.s.state) then n.variant else Plain;
      assert Arrow(c, n, LabelOf(command), Node(h.s.state, variant));
    }
  }

  // ---------- How a drain comes to be left behind ----------

  lemma LeftBehindByCommand(c: Setup, s: Out, n: Node, command: Command, d: Answer)
    requires c.hasCallback && Agree(c, s, n) && !LeftBehind(s, n) && !CommandDeparts(c, s, n, command, d)
    requires LeftBehind(Handle(c, s, command, d).s, Track(c, n, CommandSeen(c, s, command, d)))
    ensures IsDraining(s.state) && (command.Flush? || command.Burst? || command.HalReservedExit?)
  {
    hide HandleBurst, Arrow, Walks;
    if command.Burst? { BurstOutcome(c, s, command.fmqByteCount, d); }
  }

  lemma CycleIsCommand(c: Setup, s: Out, n: Node, command: Command, d: Answer)
    requires c.hasCallback && Agree(c, s, n) && !CycleDeparts(c, s, n, command, d)
    ensures !d.commandRead ==> CycleSeen(c, s, command, d) == [] && Cycle(c, s, command, d).0 == s
    ensures d.commandRead ==>
      && CycleSeen(c, s, command, d) == CommandSeen(c, s, command, d)
      && Cycle(c, s, command, d).0 == Handle(c, s, command, d).s
      && !CommandDeparts(c, s, n, command, d)
  {
    hide Handle, CommandSeen, CommandDeparts;
    var seen := CommandSeen(c, s, command, d);
    assert [] + (seen + []) == seen;
  }

  /** With callbacks, only a flush, a burst that ends the draining, or closing leaves a drain behind. */
  lemma LeftBehindBy(c: Setup, s: Out, n: Node, a: Action)
    requires c.hasCallback && Agree(c, s, n) && !LeftBehind(s, n) && !Departs(c, s, n, a)
    requires LeftBehind(Do(c, s, a).0, Track(c, n, ActionSeen(c, s, a)))
    ensures a.Run? && IsDraining(s.state)
    ensures a.command.Flush? || a.command.Burst? || a.command.HalReservedExit?
  {
    hide Cycle, CycleSeen, CycleDeparts;
    if a.Run? {
      hide Handle, CommandSeen, CommandDeparts, LeftBehind, OnBufferStateChange, OnClipStateChange;
      CycleIsCommand(c, s, n, a.command, a.answer);
      if a.answer.commandRead {
        LeftBehindByCommand(c, s, n, a.command, a.answer);
      } else {
        NothingSeen(c, n);
      }
    }
  }

  // ---------- Every kind of departure happens ----------

  /** The run follows the diagram up to its last action, which has no arrow. */
  ghost predicate DepartsLast(c: Setup, run: seq<Action>)
  {
    |run| > 0 && Follow(c, run[..|run| - 1]).On? && Follow(c, run).Off?
  }

  /** The command, with a driver that does as asked and nothing in the queue. */
  function Cmd(command: Command): Action
  {
    Run(command, Good(0))
  }

  /** A stream that has played nothing yet, and its place in the diagram. */
  function At(state: StreamState, drain: DrainState, variant: Variant): Stage
  {
    Stage(Out(state, drain, 0, [], []), Node(state, variant))
  }

  lemma EmptyBurst(c: Setup, state: StreamState, drain: DrainState, count: nat)
    requires state != ERROR && state != TRANSFERRING && state != TRANSFER_PAUSED
    ensures
      var s := Out(state, drain, 0, [], []);
      HandleBurst(c, s, count, Good(0)) == Handled(s.(state := AfterWrite(c, s, count == 0)), Okay, 0)
  {
    hide Usable, AfterWrite;
    var s := Out(state, drain, 0, [], []);
    assert Played(c, 0, count, Good(0)) == 0;
    var w := Write(c, s, count, Good(0));
    assert w.s.consumed == [];
  }

  lemma EmptyBurstSeen(c: Setup, state: StreamState, drain: DrainState, variant: Variant, count: nat)
    requires state != ERROR && state != TRANSFERRING && state != TRANSFER_PAUSED
    requires c.hasCallback || state != DRAINING
    ensures
      var s := Out(state, drain, 0, [], []);
      var to := AfterWrite(c, s, count == 0);
      var seen := ActionSeen(c, s, Cmd(Burst(count)));
      && Do(c, s, Cmd(Burst(count))).0 == s.(state := to)
      && (to != ERROR ==> Track(c, Node(state, variant), seen) == Successor(c, Node(state, variant), LBurst, to))
  {
    EmptyBurst(c, state, drain, count);
    hide HandleBurst, AfterWrite;
    var s := Out(state, drain, 0, [], []);
    var seen := ActionSeen(c, s, Cmd(Burst(count)));
    if AfterWrite(c, s, count == 0) != ERROR {
      assert seen == [Seen(LBurst, AfterWrite(c, s, count == 0))];
      WalkOne(c, Node(state, variant), seen[0]);
    }
  }

  lemma Begin(c: Setup)
    ensures Follow(c, []) == On(At(STANDBY, NONE, Plain))
  {
  }

  /** One more action that keeps to the diagram. */
  lemma Go(c: Setup, run: seq<Action>, g: Stage, a: Action, h: Stage) returns (more: seq<Action>)
    requires Follow(c, run) == On(g) && !Departs(c, g.s, g.n, a)
    requires h == Stage(Do(c, g.s, a).0, Track(c, g.n, ActionSeen(c, g.s, a)))
    ensures more == run + [a] && Follow(c, more) == On(h)
  {
    hide Departs, ActionSeen, Do, Track, Walks;
    more := run + [a];
    assert more[..|more| - 1] == run;
    RunsFollowDiagram(c, run);
    ActionsFollowDiagram(c, g.s, g.n, a);
  }

  /** The last action of a departing run. */
  lemma Stop(c: Setup, run: seq<Action>, g: Stage, a: Action) returns (more: seq<Action>)
    requires Follow(c, run) == On(g) && Departs(c, g.s, g.n, a)
    ensures more == run + [a] && DepartsLast(c, more)
  {
    hide Departs, ActionSeen, Do, Track, Walks;
    more := run + [a];
    assert more[..|more| - 1] == run;
    RunsFollowDiagram(c, run);
    ActionsFollowDiagram(c, g.s, g.n, a);
  }

  /** A burst on a stream that has played nothing. */
  lemma GoBurst(c: Setup, run: seq<Action>, g: Stage, count: nat) returns (more: seq<Action>, h: Stage)
    requires Follow(c, run) == On(g) && g == At(g.s.state, g.s.drain, g.n.variant)
    requires g.s.state in {STANDBY, IDLE, ACTIVE, PAUSED} || (c.hasCallback && g.s.state == DRAINING && g.n.variant == En && g.s.drain == EN)
    ensures more == run + [Cmd(Burst(count))] && Follow(c, more) == On(h)
    ensures h == At(AfterWrite(c, g.s, count == 0), g.s.drain, Plain)
  {
    EmptyBurstSeen(c, g.s.state, g.s.drain, g.n.variant, count);
    h := At(AfterWrite(c, g.s, count == 0), g.s.drain, Plain);
    more := Go(c, run, g, Cmd(Burst(count)), h);
  }

  lemma ToIdle(c: Setup) returns (run: seq<Action>)
    ensures run == [Cmd(Start)] && Follow(c, run) == On(At(IDLE, NONE, Plain))
  {
    Begin(c);
    hide Follow;
    run := Go(c, [], At(STANDBY, NONE, Plain), Cmd(Start), At(IDLE, NONE, Plain));
  }

  /** Up to an active stream. */
  lemma ToActive(c: Setup) returns (run: seq<Action>)
    ensures run == [Cmd(Start), Cmd(Burst(0))] && Follow(c, run) == On(At(ACTIVE, NONE, Plain))
  {
    hide Follow, ActionSeen, Do;
    run := ToIdle(c);
    var h;
    run, h := GoBurst(c, run, At(IDLE, NONE, Plain), 0);
  }

  /** Up to a stream with callbacks that drains. */
  lemma ToDraining(c: Setup, mode: DrainMode) returns (run: seq<Action>)
    requires c.hasCallback && !c.forceSynchronousDrain && mode != UNSPECIFIED
    ensures run == [Cmd(Start), Cmd(Burst(0)), Cmd(Drain(mode))]
    ensures Follow(c, run) == On(if mode == ALL then At(DRAINING, FULL, Plain) else At(DRAINING, EN, En))
  {
    run := ToActive(c);
    var h := if mode == ALL then At(DRAINING, FULL, Plain) else At(DRAINING, EN, En);
    run := Go(c, run, At(ACTIVE, NONE, Plain), Cmd(Drain(mode)), h);
  }

  /** Up to the first notification of an early-notify drain. */
  lemma ToNotified(c: Setup) returns (run: seq<Action>)
    requires c.hasCallback && !c.forceSynchronousDrain
    ensures run == [Cmd(Start), Cmd(Burst(0)), Cmd(Drain(EARLY_NOTIFY)), ClipState(5, false)]
    ensures Follow(c, run) == On(At(DRAINING, EN_SENT, EnSent))
  {
    run := ToDraining(c, EARLY_NOTIFY);
    run := Go(c, run, At(DRAINING, EN, En), ClipState(5, false), At(DRAINING, EN_SENT, EnSent));
  }

  lemma NoticePending()
    ensures PendingOf(Node(DRAINING, EnSent)) == EN_SENT
  {
  }

  /** Pausing and flushing a draining stream leaves its drain behind. */
  lemma PauseAndFlush(c: Setup, run: seq<Action>, drain: DrainState, variant: Variant) returns (more: seq<Action>)
    requires c.hasCallback && Follow(c, run) == On(At(DRAINING, drain, variant))
    requires drain == PendingOf(Node(DRAINING, variant))
    ensures more == run + [Cmd(Pause), Cmd(Flush)] && Follow(c, more) == On(At(IDLE, drain, Plain))
  {
    hide Follow;
    more := Go(c, run, At(DRAINING, drain, variant), Cmd(Pause), At(DRAIN_PAUSED, drain, variant));
    more := Go(c, more, At(DRAIN_PAUSED, drain, variant), Cmd(Flush), At(IDLE, drain, Plain));
  }

  /** A partial write, and a pause of the transfer. */
  lemma PartialAndPause(c: Setup, run: seq<Action>, drain: DrainState) returns (more: seq<Action>)
    requires c.hasCallback && Follow(c, run) == On(At(IDLE, drain, Plain))
    ensures more == run + [Cmd(Burst(1)), Cmd(Pause)] && Follow(c, more) == On(At(TRANSFER_PAUSED, drain, Plain))
  {
    hide Follow;
    var h;
    more, h := GoBurst(c, run, At(IDLE, drain, Plain), 1);
    more := Go(c, more, At(TRANSFERRING, drain, Plain), Cmd(Pause), At(TRANSFER_PAUSED, drain, Plain));
  }

  lemma DrainAndBurst(c: Setup, run: seq<Action>) returns (more: seq<Action>)
    requires c.hasCallback && Follow(c, run) == On(At(TRANSFER_PAUSED, EN_SENT, Plain))
    ensures more == run + [Cmd(Drain(ALL)), Cmd(Burst(1))] && DepartsLast(c, more)
  {
    hide Follow, DepartsLast;
    more := Go(c, run, At(TRANSFER_PAUSED, EN_SENT, Plain), Cmd(Drain(ALL)), At(DRAIN_PAUSED, EN_SENT, Plain));
    more := Stop(c, more, At(DRAIN_PAUSED, EN_SENT, Plain), Cmd(Burst(1)));
  }

  /** With callbacks: a notice left behind by a flush holds a later, plain draining in place. */
  lemma LeftBehindNoticeHoldsBurst(c: Setup) returns (run: seq<Action>)
    requires c.hasCallback && !c.forceSynchronousDrain
    ensures DepartsLast(c, run)
    ensures run ==
      [Cmd(Start), Cmd(Burst(0)), Cmd(Drain(EARLY_NOTIFY)), ClipState(5, false)] +
      [Cmd(Pause), Cmd(Flush)] + [Cmd(Burst(1)), Cmd(Pause)] + [Cmd(Drain(ALL)), Cmd(Burst(1))]
  {
    hide *;
    var before := ToNotified(c);
    assert EN_SENT == PendingOf(Node(DRAINING, EnSent)) by { NoticePending(); }
    before := PauseAndFlush(c, before, EN_SENT, EnSent);
    before := PartialAndPause(c, before, EN_SENT);
    run := DrainAndBurst(c, before);
  }

  /** With callbacks: a forced synchronous drain goes straight to idle. */
  lemma ForcedDrainDeparts(c: Setup, mode: DrainMode) returns (run: seq<Action>)
    requires c.hasCallback && c.forceSynchronousDrain && mode != UNSPECIFIED
    ensures DepartsLast(c, run) && run == [Cmd(Start), Cmd(Burst(0)), Cmd(Drain(mode))]
  {
    run := ToActive(c);
    run := Stop(c, run, At(ACTIVE, NONE, Plain), Cmd(Drain(mode)));
  }

  /** Without callbacks: a burst after an announced clip change stays in draining. */
  lemma SyncBurstStaysDraining(c: Setup) returns (run: seq<Action>)
    requires !c.hasCallback && !c.forceSynchronousDrain
    ensures DepartsLast(c, run)
    ensures run == [Cmd(Start), Cmd(Burst(0)), Cmd(Drain(EARLY_NOTIFY)), ClipState(5, false), Cmd(Burst(0))]
  {
    hide Follow, DepartsLast;
    run := ToActive(c);
    run := Go(c, run, At(ACTIVE, NONE, Plain), Cmd(Drain(EARLY_NOTIFY)), At(DRAINING, EN, Plain));
    run := Go(c, run, At(DRAINING, EN, Plain), ClipState(5, false), At(DRAINING, EN_SENT, Plain));
    run := Stop(c, run, At(DRAINING, EN_SENT, Plain), Cmd(Burst(0)));
  }

  /** With callbacks: an early-notify drain is accepted while a transfer is paused. */
  lemma PausedEarlyDrainDeparts(c: Setup) returns (run: seq<Action>)
    requires c.hasCallback
    ensures DepartsLast(c, run) && run == [Cmd(Start), Cmd(Burst(1)), Cmd(Pause), Cmd(Drain(EARLY_NOTIFY))]
  {
    hide Follow, DepartsLast;
    run := ToIdle(c);
    run := PartialAndPause(c, run, NONE);
    run := Stop(c, run, At(TRANSFER_PAUSED, NONE, Plain), Cmd(Drain(EARLY_NOTIFY)));
  }

  /** With callbacks: the driver fails, and the error state is entered without an error callback. */
  lemma AsyncFailureDeparts(c: Setup) returns (run: seq<Action>)
    requires c.hasCallback
    ensures DepartsLast(c, run) && run == [Run(Start, Good(0).(driverOk := false))]
  {
    Begin(c);
    run := Stop(c, [], At(STANDBY, NONE, Plain), Run(Start, Good(0).(driverOk := false)));
  }

  /** Without callbacks: the driver fails in standby, from where no failure is drawn. */
  lemma SyncFailureDeparts(c: Setup) returns (run: seq<Action>)
    requires !c.hasCallback
    ensures DepartsLast(c, run) && run == [Run(Start, Good(0).(driverOk := false))]
  {
    Begin(c);
    run := Stop(c, [], At(STANDBY, NONE, Plain), Run(Start, Good(0).(driverOk := false)));
  }

  /** With callbacks: a paused stream announces room in its buffer. */
  lemma PausedBufferDeparts(c: Setup) returns (run: seq<Action>)
    requires c.hasCallback && !c.forceSynchronousDrain
    ensures DepartsLast(c, run)
    ensures run == [Cmd(Start), Cmd(Burst(0)), Cmd(Drain(EARLY_NOTIFY)), ClipState(5, false), Cmd(Pause), BufferState]
  {
    hide Follow, DepartsLast;
    run := ToNotified(c);
    run := Go(c, run, At(DRAINING, EN_SENT, EnSent), Cmd(Pause), At(DRAIN_PAUSED, EN_SENT, EnSent));
    run := Stop(c, run, At(DRAIN_PAUSED, EN_SENT, EnSent), BufferState);
  }

  /** With callbacks: the clip ends before the early notification, silently. */
  lemma EarlyEndDeparts(c: Setup) returns (run: seq<Action>)
    requires c.hasCallback && !c.forceSynchronousDrain
    ensures DepartsLast(c, run)
    ensures run == [Cmd(Start), Cmd(Burst(0)), Cmd(Drain(EARLY_NOTIFY)), ClipState(0, false)]
  {
    hide Follow, DepartsLast;
    run := ToDraining(c, EARLY_NOTIFY);
    run := Stop(c, run, At(DRAINING, EN, En), ClipState(0, false));
  }

  /** With callbacks: a full drain ends with a next clip waiting. */
  lemma NextClipDeparts(c: Setup) returns (run: seq<Action>)
    requires c.hasCallback && !c.forceSynchronousDrain
    ensures DepartsLast(c, run) && run == [Cmd(Start), Cmd(Burst(0)), Cmd(Drain(ALL)), ClipState(0, true)]
  {
    hide Follow, DepartsLast;
    run := ToDraining(c, ALL);
    run := Stop(c, run, At(DRAINING, FULL, Plain), ClipState(0, true));
  }

  /** With callbacks: a flushed drain is announced in the idle state. */
  lemma FlushedDrainDeparts(c: Setup) returns (run: seq<Action>)
    requires c.hasCallback && !c.forceSynchronousDrain
    ensures DepartsLast(c, run)
    ensures run == [Cmd(Start), Cmd(Burst(0)), Cmd(Drain(ALL)), Cmd(Pause), Cmd(Flush), ClipState(0, false)]
  {
    hide Follow, DepartsLast;
    run := ToDraining(c, ALL);
    run := PauseAndFlush(c, run, FULL, Plain);
    run := Stop(c, run, At(IDLE, FULL, Plain), ClipState(0, false));
  }

  /** With callbacks: a drain ended by a burst is announced in the active state. */
  lemma BurstDrainDeparts(c: Setup) returns (run: seq<Action>)
    requires c.hasCallback && !c.forceSynchronousDrain
    ensures DepartsLast(c, run)
    ensures run == [Cmd(Start), Cmd(Burst(0)), Cmd(Drain(EARLY_NOTIFY)), Cmd(Burst(0)), ClipState(5, false)]
  {
    hide Follow, DepartsLast;
    run := ToDraining(c, EARLY_NOTIFY);
    var h;
    run, h := GoBurst(c, run, At(DRAINING, EN, En), 0);
    run := Stop(c, run, At(ACTIVE, EN, Plain), ClipState(5, false));
  }

  /** Without callbacks: a drain that ended by itself forces a stream out of standby. */
  lemma ElapsedDrainDeparts(c: Setup) returns (run: seq<Action>)
    requires !c.hasCallback && !c.forceSynchronousDrain
    ensures DepartsLast(c, run)
    ensures run == [Cmd(Start), Cmd(Burst(0)), Cmd(Drain(ALL)), Run(Standby, Good(0).(elapsed := true)), ClipState(0, false)]
  {
    hide Follow, DepartsLast;
    run := ToActive(c);
    run := Go(c, run, At(ACTIVE, NONE, Plain), Cmd(Drain(ALL)), At(DRAINING, FULL, Plain));
    ElapsedStandby(c);
    run := Go(c, run, At(DRAINING, FULL, Plain), Run(Standby, Good(0).(elapsed := true)), At(STANDBY, FULL, Plain));
    run := Stop(c, run, At(STANDBY, FULL, Plain), ClipState(0, false));
  }

  lemma ElapsedStandby(c: Setup)
    requires !c.hasCallback
    ensures
      var a := Run(Standby, Good(0).(elapsed := true));
      var s := Out(DRAINING, FULL, 0, [], []);
      Track(c, Node(DRAINING, Plain), ActionSeen(c, s, a)) == Node(STANDBY, Plain)
  {
    var a := Run(Standby, Good(0).(elapsed := true));
    var seen := ActionSeen(c, Out(DRAINING, FULL, 0, [], []), a);
    assert seen == [Seen(LSilent, IDLE)] + [Seen(LStandby, STANDBY)];
    WalkAppend(c, Node(DRAINING, Plain), [Seen(LSilent, IDLE)], [Seen(LStandby, STANDBY)]);
    WalkOne(c, Node(DRAINING, Plain), Seen(LSilent, IDLE));
    WalkOne(c, Node(IDLE, Plain), Seen(LStandby, STANDBY));
  }

  /** With callbacks: a paused drain is announced. */
  lemma PausedClipDeparts(c: Setup) returns (run: seq<Action>)
    requires c.hasCallback && !c.forceSynchronousDrain
    ensures DepartsLast(c, run)
    ensures run == [Cmd(Start), Cmd(Burst(0)), Cmd(Drain(ALL)), Cmd(Pause), ClipState(0, false)]
  {
    hide Follow, DepartsLast;
    run := ToDraining(c, ALL);
    run := Go(c, run, At(DRAINING, FULL, Plain), Cmd(Pause), At(DRAIN_PAUSED, FULL, Plain));
    run := Stop(c, run, At(DRAIN_PAUSED, FULL, Plain), ClipState(0, false));
  }

  /** With callbacks: a drain ended by a burst stops the stream, and no callback says so. */
  lemma SilentEndDeparts(c: Setup) returns (run: seq<Action>)
    requires c.hasCallback && !c.forceSynchronousDrain
    ensures DepartsLast(c, run)
    ensures run == [Cmd(Start), Cmd(Burst(0)), Cmd(Drain(EARLY_NOTIFY)), Cmd(Burst(0)), ClipState(0, false)]
  {
    hide Follow, DepartsLast;
    run := ToDraining(c, EARLY_NOTIFY);
    var h;
    run, h := GoBurst(c, run, At(DRAINING, EN, En), 0);
    run := Stop(c, run, At(ACTIVE, EN, Plain), ClipState(0, false));
  }

  /** With callbacks: a notice left behind by a flush announces room in an idle stream. */
  lemma FlushedNoticeDeparts(c: Setup) returns (run: seq<Action>)
    requires c.hasCallback && !c.forceSynchronousDrain
    ensures DepartsLast(c, run)
    ensures run ==
      [Cmd(Start), Cmd(Burst(0)), Cmd(Drain(EARLY_NOTIFY)), ClipState(5, false)] + [Cmd(Pause), Cmd(Flush)] + [BufferState]
  {
    hide Follow, DepartsLast;
    run := ToNotified(c);
    run := PauseAndFlush(c, run, EN_SENT, EnSent);
    run := Stop(c, run, At(IDLE, EN_SENT, Plain), BufferState);
  }
}
