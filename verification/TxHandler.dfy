/** The command queue of the HCI router.

    Commands are posted to a worker with a FIFO of tasks.  The worker keeps a queue of commands of
    which only the first has been sent; an event for that command makes the router fetch its
    callback, run it, and report completion, all through the same FIFO. */
module TxHandlers {
  import opened Basics

  /** A command as posted.  `id` tells posts apart; a command sent on behalf of a client that left
      the callback empty has `hasCallback` false. */
  datatype Command = Command(id: nat, opcode: nat, hasCallback: bool)

  datatype TxTask =
    | SendOrQueueCommand(command: Command)
    | GetCommandCallback(opcode: nat)
    | OnCommandCallbackCompleted
    | SendToTransport(packet: nat)

  /** What the worker hands to the transport. */
  datatype Sent = SentCommand(command: Command) | SentPacket(packet: nat)

  /** The thread that handles an event; it holds the router's mutex from the arrival of the event
      to the end, so there is one at a time. */
  datatype Handler =
    | Free
    | AwaitingCallback(opcode: nat)                   // blocked on the future for this event
    | GotCallback(opcode: nat, result: Option<Command>) // the promise is set
    | CallbackDone(command: Command)                  // the callback ran, completion to be posted

  const MAX_QUEUE_SIZE: nat := 10

  datatype State = State(
    tasks: seq<TxTask>,
    queue: seq<Command>,
    busy: bool,
    handler: Handler,
    votes: int,
    wakelock: bool,
    unvoted: nat,              // posters that have queued a task and not yet voted
    // History
    posted: seq<Command>,      // commands posted, in order
    wire: seq<Sent>,           // what was sent, in order
    completed: seq<Command>,   // commands popped at completion, in order
    handedOut: seq<Command>,   // commands whose callbacks were run, in order
    answered: seq<nat>,        // the opcodes of the events that ran them
    packets: seq<nat>)         // other packets posted, in order

  const START := State([], [], false, Free, 0, false, 0, [], [], [], [], [], [])

  datatype Action =
    | PostCommand(command: Command)
    | PostPacket(packet: nat)
    | Vote
    | EventArrives(opcode: nat)
    | HandlerContinues
    | RunTask

  predicate Enabled(s: State, a: Action) {
    match a
    case PostCommand(_) => |s.tasks| < MAX_QUEUE_SIZE
    case PostPacket(_) => |s.tasks| < MAX_QUEUE_SIZE
    case Vote => 0 < s.unvoted
    case EventArrives(_) => s.handler.Free? && |s.tasks| < MAX_QUEUE_SIZE
    case HandlerContinues =>
      s.handler.GotCallback? || (s.handler.CallbackDone? && |s.tasks| < MAX_QUEUE_SIZE)
    case RunTask => s.tasks != []
  }

  function Post(s: State, task: TxTask): State {
    s.(tasks := s.tasks + [task], unvoted := s.unvoted + 1)
  }

  /** SendOrQueueCommand on the worker. */
  function SendOrQueue(s: State, c: Command): State {
    if s.queue != [] then s.(queue := s.queue + [c])
    else s.(queue := [c], busy := true, wire := s.wire + [SentCommand(c)])
  }

  /** GetCommandCallback on the worker: the callback of the command in flight, if the event is for it. */
  function GetCallback(s: State, opcode: nat): Option<Command> {
    if s.queue == [] || s.queue[0].opcode != opcode then None else Some(s.queue[0])
  }

  /** OnCommandCallbackCompleted on the worker. */
  function Complete(s: State): State {
    if s.queue == [] then s
    else
      var rest := s.queue[1..];
      s.(queue := rest, busy := rest != [], completed := s.completed + [s.queue[0]],
         wire := if rest == [] then s.wire else s.wire + [SentCommand(rest[0])])
  }

  function Dispatch(s: State, task: TxTask): State {
    match task
    case SendOrQueueCommand(c) => SendOrQueue(s, c)
    case GetCommandCallback(opcode) => s.(handler := GotCallback(opcode, GetCallback(s, opcode)))
    case OnCommandCallbackCompleted => Complete(s)
    case SendToTransport(p) => s.(wire := s.wire + [SentPacket(p)])
  }

  function Unvote(s: State): State {
    s.(votes := s.votes - 1, wakelock := 0 < s.votes - 1)
  }

  function Step(s: State, a: Action): State
    requires Enabled(s, a)
  {
    match a
    case PostCommand(c) => Post(s, SendOrQueueCommand(c)).(posted := s.posted + [c])
    case PostPacket(p) => Post(s, SendToTransport(p)).(packets := s.packets + [p])
    case Vote =>
      s.(unvoted := s.unvoted - 1, votes := s.votes + 1, wakelock := s.wakelock || s.votes == 0)
    case EventArrives(opcode) =>
      Post(s, GetCommandCallback(opcode)).(handler := AwaitingCallback(opcode))
    case HandlerContinues =>
      (match s.handler
       case GotCallback(opcode, result) =>
         if result.Some? && result.value.hasCallback then
           s.(handler := CallbackDone(result.value), handedOut := s.handedOut + [result.value],
              answered := s.answered + [opcode])
         else s.(handler := Free)
       case _ => Post(s, OnCommandCallbackCompleted).(handler := Free))
    case RunTask => Unvote(Dispatch(s.(tasks := s.tasks[1..]), s.tasks[0]))
  }

  predicate CanRun(s: State, run: seq<Action>)
    decreases |run|
  {
    run == [] || (Enabled(s, run[0]) && CanRun(Step(s, run[0]), run[1..]))
  }

  function After(s: State, run: seq<Action>): State
    requires CanRun(s, run)
    decreases |run|
  {
    if run == [] then s else After(Step(s, run[0]), run[1..])
  }

  // ---------------------------------------------------------------------------------------------
  // What every interleaving keeps
  // ---------------------------------------------------------------------------------------------

  /** The commands among the tasks still to run, in order. */
  ghost function CommandsIn(tasks: seq<TxTask>): seq<Command> {
    if tasks == [] then []
    else (if tasks[0].SendOrQueueCommand? then [tasks[0].command] else []) + CommandsIn(tasks[1..])
  }

  ghost predicate IsSignal(t: TxTask) {
    t.GetCommandCallback? || t.OnCommandCallbackCompleted?
  }

  /** The tasks that belong to the handling of events, in order. */
  ghost function SignalsIn(tasks: seq<TxTask>): seq<TxTask> {
    if tasks == [] then []
    else (if IsSignal(tasks[0]) then [tasks[0]] else []) + SignalsIn(tasks[1..])
  }

  /** The commands sent, in order. */
  ghost function CommandsSent(wire: seq<Sent>): seq<Command> {
    if wire == [] then []
    else
      var last := wire[|wire| - 1];
      CommandsSent(wire[..|wire| - 1]) + (if last.SentCommand? then [last.command] else [])
  }

  /** The other packets among the tasks, and those sent, in order. */
  ghost function PacketsIn(tasks: seq<TxTask>): seq<nat> {
    if tasks == [] then []
    else (if tasks[0].SendToTransport? then [tasks[0].packet] else []) + PacketsIn(tasks[1..])
  }

  ghost function PacketsSent(wire: seq<Sent>): seq<nat> {
    if wire == [] then []
    else
      var last := wire[|wire| - 1];
      PacketsSent(wire[..|wire| - 1]) + (if last.SentPacket? then [last.packet] else [])
  }

  ghost function First(queue: seq<Command>): seq<Command> {
    if queue == [] then [] else [queue[0]]
  }

  /** A completion is under way: its callback ran and the command has not been popped yet. */
  ghost predicate Completing(s: State) {
    s.handler.CallbackDone? || OnCommandCallbackCompleted in SignalsIn(s.tasks)
  }

  /** No command is lost, duplicated or reordered, and only the first of the queue has been sent. */
  ghost predicate Conserved(s: State) {
    && s.posted == s.completed + s.queue + CommandsIn(s.tasks)
    && CommandsSent(s.wire) == s.completed + First(s.queue)
    && (s.busy <==> s.queue != [])
  }

  /** No other packet is lost, duplicated or reordered. */
  ghost predicate PacketsConserved(s: State) {
    s.packets == PacketsSent(s.wire) + PacketsIn(s.tasks)
  }

  /** Every callback was run for an event with its command's opcode. */
  ghost predicate Answers(s: State) {
    |s.answered| == |s.handedOut| && forall i :: 0 <= i < |s.answered| ==> s.handedOut[i].opcode == s.answered[i]
  }

  /** The handler and the tasks it has posted. */
  ghost predicate Protocol(s: State) {
    var signals := SignalsIn(s.tasks);
    && (match s.handler
        case Free => signals == [] || signals == [OnCommandCallbackCompleted]
        case AwaitingCallback(opcode) =>
          signals == [GetCommandCallback(opcode)] ||
          signals == [OnCommandCallbackCompleted, GetCommandCallback(opcode)]
        case GotCallback(opcode, result) =>
          && signals == []
          && (result.Some? ==> s.queue != [] && result.value == s.queue[0] && result.value.opcode == opcode)
        case CallbackDone(command) => signals == [] && s.queue != [] && command == s.queue[0])
    && (Completing(s) ==> s.queue != [] && s.queue[0].hasCallback)
    && s.handedOut == s.completed + (if Completing(s) then First(s.queue) else [])
  }

  ghost predicate Awake(s: State) {
    s.votes == |s.tasks| - s.unvoted && (s.wakelock <==> 0 < s.votes)
  }

  ghost predicate Core(s: State) {
    Conserved(s) && Protocol(s) && Awake(s)
  }

  ghost predicate Inv(s: State) {
    Core(s) && PacketsConserved(s) && Answers(s)
  }

  lemma {:induction false} CommandsInAppend(tasks: seq<TxTask>, t: TxTask)
    ensures CommandsIn(tasks + [t]) ==
            CommandsIn(tasks) + (if t.SendOrQueueCommand? then [t.command] else [])
  {
    if tasks == [] {
      assert [t][1..] == [] && tasks + [t] == [t];
    } else {
      CommandsInAppend(tasks[1..], t);
      assert (tasks + [t])[0] == tasks[0] && (tasks + [t])[1..] == tasks[1..] + [t];
    }
  }

  lemma {:induction false} SignalsInAppend(tasks: seq<TxTask>, t: TxTask)
    ensures SignalsIn(tasks + [t]) == SignalsIn(tasks) + (if IsSignal(t) then [t] else [])
  {
    hide IsSignal;
    var last := if IsSignal(t) then [t] else [];
    if |tasks| == 0 {
      assert tasks + [t] == [t] && [t][1..] == [];
      assert SignalsIn([t]) == last + [];
    } else {
      var first := if IsSignal(tasks[0]) then [tasks[0]] else [];
      var rest := SignalsIn(tasks[1..]);
      SignalsInAppend(tasks[1..], t);
      assert (tasks + [t])[1..] == tasks[1..] + [t];
      assert SignalsIn(tasks + [t]) == first + (rest + last);
      assert SignalsIn(tasks) == first + rest;
    }
  }

  lemma {:induction false} PacketsInAppend(tasks: seq<TxTask>, t: TxTask)
    ensures PacketsIn(tasks + [t]) == PacketsIn(tasks) + (if t.SendToTransport? then [t.packet] else [])
  {
    var last := if t.SendToTransport? then [t.packet] else [];
    if |tasks| == 0 {
      assert tasks + [t] == [t] && [t][1..] == [];
      assert PacketsIn([t]) == last + [];
    } else {
      var first := if tasks[0].SendToTransport? then [tasks[0].packet] else [];
      var rest := PacketsIn(tasks[1..]);
      PacketsInAppend(tasks[1..], t);
      assert (tasks + [t])[1..] == tasks[1..] + [t];
      assert PacketsIn(tasks + [t]) == first + (rest + last);
      assert PacketsIn(tasks) == first + rest;
    }
  }

  lemma PacketsSentAppend(wire: seq<Sent>, w: Sent)
    ensures PacketsSent(wire + [w]) == PacketsSent(wire) + (if w.SentPacket? then [w.packet] else [])
  {
    assert (wire + [w])[..|wire|] == wire;
  }

  /** Every step keeps the packets in order. */
  lemma StepKeepsPackets(s: State, a: Action)
    requires PacketsConserved(s) && Enabled(s, a)
    ensures PacketsConserved(Step(s, a))
  {
    hide PacketsSent;
    match a
    case PostCommand(c) => PacketsInAppend(s.tasks, SendOrQueueCommand(c));
    case PostPacket(p) => PacketsInAppend(s.tasks, SendToTransport(p));
    case EventArrives(opcode) => PacketsInAppend(s.tasks, GetCommandCallback(opcode));
    case HandlerContinues => PacketsInAppend(s.tasks, OnCommandCallbackCompleted);
    case Vote =>
    case RunTask => TaskKeepsPackets(s);
  }

  lemma TaskKeepsPackets(s: State)
    requires PacketsConserved(s) && s.tasks != []
    ensures PacketsConserved(Step(s, RunTask))
  {
    hide PacketsSent;
    match s.tasks[0]
    case SendOrQueueCommand(c) => PacketsSentAppend(s.wire, SentCommand(c));
    case OnCommandCallbackCompleted =>
      if |s.queue| > 1 { PacketsSentAppend(s.wire, SentCommand(s.queue[1..][0])); }
    case SendToTransport(p) => PacketsSentAppend(s.wire, SentPacket(p));
    case _ =>
  }

  lemma CommandsSentAppend(wire: seq<Sent>, w: Sent)
    ensures CommandsSent(wire + [w]) == CommandsSent(wire) + (if w.SentCommand? then [w.command] else [])
  {
    assert (wire + [w])[..|wire|] == wire;
  }

  /** The effect of posting a task on what the invariant looks at. */
  lemma PostKeeps(s: State, task: TxTask)
    requires Core(s)
    ensures
      var t := Post(s, task);
      && Awake(t)
      && (task.SendOrQueueCommand? ==> CommandsIn(t.tasks) == CommandsIn(s.tasks) + [task.command])
      && (!task.SendOrQueueCommand? ==> CommandsIn(t.tasks) == CommandsIn(s.tasks))
      && (IsSignal(task) ==> SignalsIn(t.tasks) == SignalsIn(s.tasks) + [task])
      && (!IsSignal(task) ==> SignalsIn(t.tasks) == SignalsIn(s.tasks))
  {
    CommandsInAppend(s.tasks, task);
    SignalsInAppend(s.tasks, task);
  }

  lemma PostCommandKeepsCore(s: State, c: Command)
    requires Core(s) && Enabled(s, PostCommand(c))
    ensures Core(Step(s, PostCommand(c)))
  {
    hide CommandsIn, SignalsIn, CommandsSent;
    PostKeeps(s, SendOrQueueCommand(c));
    var before := s.completed + s.queue;
    assert before + (CommandsIn(s.tasks) + [c]) == before + CommandsIn(s.tasks) + [c];
  }

  lemma PostPacketKeepsCore(s: State, p: nat)
    requires Core(s) && Enabled(s, PostPacket(p))
    ensures Core(Step(s, PostPacket(p)))
  {
    hide CommandsIn, SignalsIn, CommandsSent;
    PostKeeps(s, SendToTransport(p));
  }

  lemma EventKeepsCore(s: State, opcode: nat)
    requires Core(s) && Enabled(s, EventArrives(opcode))
    ensures Core(Step(s, EventArrives(opcode)))
  {
    hide CommandsIn, SignalsIn, CommandsSent;
    PostKeeps(s, GetCommandCallback(opcode));
  }

  lemma HandlerStepKeepsCore(s: State)
    requires Core(s) && Enabled(s, HandlerContinues)
    ensures Core(Step(s, HandlerContinues))
  {
    hide CommandsIn, SignalsIn, CommandsSent;
    PostKeeps(s, OnCommandCallbackCompleted);
  }

  /** The effect of taking a task on what the invariant looks at. */
  lemma TakeTask(s: State)
    requires s.tasks != []
    ensures
      var task, rest := s.tasks[0], s.tasks[1..];
      && (task.SendOrQueueCommand? ==> CommandsIn(s.tasks) == [task.command] + CommandsIn(rest))
      && (!task.SendOrQueueCommand? ==> CommandsIn(s.tasks) == CommandsIn(rest))
      && (IsSignal(task) ==> SignalsIn(s.tasks) == [task] + SignalsIn(rest))
      && (!IsSignal(task) ==> SignalsIn(s.tasks) == SignalsIn(rest))
  {
  }

  lemma CommandTaskKeepsCore(s: State)
    requires Core(s) && s.tasks != [] && s.tasks[0].SendOrQueueCommand?
    ensures Core(Step(s, RunTask))
  {
    hide CommandsIn, SignalsIn, CommandsSent;
    TakeTask(s);
    var c, rest := s.tasks[0].command, CommandsIn(s.tasks[1..]);
    CommandsSentAppend(s.wire, SentCommand(c));
    assert s.queue == [] ==> s.completed + First(s.queue) == s.completed;
    assert s.completed + s.queue + ([c] + rest) == s.completed + (s.queue + [c]) + rest;
  }

  lemma GetTaskKeepsCore(s: State)
    requires Core(s) && s.tasks != [] && s.tasks[0].GetCommandCallback?
    ensures Core(Step(s, RunTask))
  {
    hide CommandsIn, SignalsIn, CommandsSent;
    TakeTask(s);
    var rest := SignalsIn(s.tasks[1..]);
    assert ([s.tasks[0]] + rest)[1..] == rest;
  }

  lemma CompletedTaskKeepsProtocol(s: State)
    requires Protocol(s) && s.tasks != [] && s.tasks[0].OnCommandCallbackCompleted?
    ensures s.queue != [] && s.queue[0].hasCallback && Protocol(Step(s, RunTask))
  {
    hide CommandsIn, SignalsIn, CommandsSent;
    TakeTask(s);
    var rest := SignalsIn(s.tasks[1..]);
    assert ([s.tasks[0]] + rest)[1..] == rest;
    assert s.tasks[0] in [s.tasks[0]] + rest;
  }

  lemma CompletedTaskKeepsConserved(s: State)
    requires Conserved(s) && s.tasks != [] && s.tasks[0].OnCommandCallbackCompleted? && s.queue != []
    ensures Conserved(Step(s, RunTask))
  {
    var queue, done := s.queue[1..], s.completed + [s.queue[0]];
    TakeTask(s);
    if queue != [] {
      CommandsSentAppend(s.wire, SentCommand(queue[0]));
    }
    hide CommandsIn, CommandsSent;
    assert done + queue == s.completed + s.queue;
    assert queue == [] ==> done + First(queue) == done;
  }

  lemma CompletedTaskKeepsCore(s: State)
    requires Core(s) && s.tasks != [] && s.tasks[0].OnCommandCallbackCompleted?
    ensures Core(Step(s, RunTask))
  {
    CompletedTaskKeepsProtocol(s);
    CompletedTaskKeepsConserved(s);
    hide Conserved, Protocol, SignalsIn, CommandsSent, CommandsIn;
  }

  lemma PacketTaskKeepsCore(s: State)
    requires Core(s) && s.tasks != [] && s.tasks[0].SendToTransport?
    ensures Core(Step(s, RunTask))
  {
    hide CommandsIn, SignalsIn, CommandsSent;
    TakeTask(s);
    CommandsSentAppend(s.wire, SentPacket(s.tasks[0].packet));
  }

  lemma StepKeepsCore(s: State, a: Action)
    requires Core(s) && Enabled(s, a)
    ensures Core(Step(s, a))
  {
    if a == Vote {
    } else {
      hide Core, Step;
      match a {
        case PostCommand(c) => PostCommandKeepsCore(s, c);
        case PostPacket(p) => PostPacketKeepsCore(s, p);
        case EventArrives(opcode) => EventKeepsCore(s, opcode);
        case HandlerContinues => HandlerStepKeepsCore(s);
        case RunTask =>
          match s.tasks[0] {
            case SendOrQueueCommand(_) => CommandTaskKeepsCore(s);
            case GetCommandCallback(_) => GetTaskKeepsCore(s);
            case OnCommandCallbackCompleted => CompletedTaskKeepsCore(s);
            case SendToTransport(_) => PacketTaskKeepsCore(s);
          }
      }
    }
  }

  lemma StepKeepsAnswers(s: State, a: Action)
    requires Protocol(s) && Answers(s) && Enabled(s, a)
    ensures Answers(Step(s, a))
  {
    hide SignalsIn, Completing;
  }

  lemma StepKeepsInv(s: State, a: Action)
    requires Inv(s) && Enabled(s, a)
    ensures Inv(Step(s, a))
  {
    hide PacketsConserved, Answers, Conserved, Protocol, Awake, Step;
    StepKeepsPackets(s, a);
    StepKeepsAnswers(s, a);
    StepKeepsCore(s, a);
  }

  lemma {:induction false} RunKeepsInv(s: State, run: seq<Action>)
    requires Inv(s) && CanRun(s, run)
    ensures Inv(After(s, run))
    decreases |run|
  {
    hide Inv, Step, Enabled;
    if run != [] {
      StepKeepsInv(s, run[0]);
      RunKeepsInv(Step(s, run[0]), run[1..]);
    }
  }

  /** In every interleaving, commands are sent in the order they were posted, at most one of them is
      sent and not completed, and the handler is busy exactly while the queue is not empty. */
  lemma CommandsInOrder(run: seq<Action>)
    requires CanRun(START, run)
    ensures
      var s := After(START, run);
      var sent := CommandsSent(s.wire);
      && sent <= s.posted
      && s.completed <= sent && |sent| <= |s.completed| + 1
      && s.posted == s.completed + s.queue + CommandsIn(s.tasks)
      && (s.busy <==> s.queue != []) && (s.busy <==> sent != s.completed)
  {
    RunKeepsInv(START, run);
  }

  /** The command popped at completion is the one whose callback was run, one for one, and it is the
      command in flight. */
  lemma CompletionMatchesCallback(run: seq<Action>)
    requires CanRun(START, run)
    ensures
      var s := After(START, run);
      && s.completed <= s.handedOut <= CommandsSent(s.wire)
      && (s.handler.CallbackDone? ==> s.handedOut == s.completed + [s.handler.command])
      && (s.handler.CallbackDone? ==> s.queue != [] && s.handler.command == s.queue[0])
  {
    RunKeepsInv(START, run);
  }

  /** The worker accepts a post exactly while fewer than ten tasks wait, so there are never more than ten. */
  lemma AtMostTenTasks(run: seq<Action>, c: Command, p: nat)
    requires CanRun(START, run)
    ensures
      var s := After(START, run);
      && |s.tasks| <= 10
      && (Enabled(s, PostCommand(c)) <==> |s.tasks| < 10)
      && (Enabled(s, PostPacket(p)) <==> |s.tasks| < 10)
  {
    TasksBounded(START, run);
  }

  lemma {:induction false} TasksBounded(s: State, run: seq<Action>)
    requires |s.tasks| <= 10 && CanRun(s, run)
    ensures |After(s, run).tasks| <= 10
    decreases |run|
  {
    if run != [] {
      TasksBounded(Step(s, run[0]), run[1..]);
    }
  }

  /** Every callback is run for an event with its command's opcode, one callback for one event. */
  lemma CallbackAnswersEvent(run: seq<Action>)
    requires CanRun(START, run)
    ensures
      var s := After(START, run);
      && s.completed <= s.handedOut && |s.answered| == |s.handedOut|
      && forall i :: 0 <= i < |s.answered| ==> s.handedOut[i].opcode == s.answered[i]
  {
    RunKeepsInv(START, run);
  }

  /** Packets other than commands reach the transport in the order they were posted, each of them once. */
  lemma PacketsInOrder(run: seq<Action>)
    requires CanRun(START, run)
    ensures
      var s := After(START, run);
      && PacketsSent(s.wire) <= s.packets
      && s.packets == PacketsSent(s.wire) + PacketsIn(s.tasks)
      && (s.tasks == [] ==> PacketsSent(s.wire) == s.packets)
  {
    RunKeepsInv(START, run);
  }

  /** Command `c` is in flight and nothing under way is for it. */
  ghost predicate Undisturbed(s: State, c: Command) {
    && Inv(s) && s.queue != [] && s.queue[0] == c
    && match s.handler
       case Free => SignalsIn(s.tasks) == []
       case AwaitingCallback(opcode) => opcode != c.opcode && SignalsIn(s.tasks) == [GetCommandCallback(opcode)]
       case GotCallback(_, result) => result.None?
       case CallbackDone(_) => false
  }

  lemma ForeignStep(s: State, a: Action, c: Command)
    requires Undisturbed(s, c) && Enabled(s, a) && a != EventArrives(c.opcode)
    ensures Undisturbed(Step(s, a), c)
    ensures Step(s, a).completed == s.completed && Step(s, a).handedOut == s.handedOut
  {
    StepKeepsInv(s, a);
    hide Inv, Undisturbed, Step;
    match a
    case HandlerContinues => ForeignHandler(s, c);
    case RunTask => ForeignTask(s, c);
    case _ => ForeignPost(s, a, c);
  }

  lemma ForeignPost(s: State, a: Action, c: Command)
    requires Undisturbed(s, c) && Enabled(s, a) && a != EventArrives(c.opcode) && Inv(Step(s, a))
    requires a.PostCommand? || a.PostPacket? || a.EventArrives? || a.Vote?
    ensures Undisturbed(Step(s, a), c)
    ensures Step(s, a).completed == s.completed && Step(s, a).handedOut == s.handedOut
  {
    hide CommandsIn, SignalsIn, CommandsSent, PacketsIn, PacketsSent, Inv;
    match a
    case PostCommand(d) => SignalsInAppend(s.tasks, SendOrQueueCommand(d));
    case PostPacket(p) => SignalsInAppend(s.tasks, SendToTransport(p));
    case EventArrives(opcode) => SignalsInAppend(s.tasks, GetCommandCallback(opcode));
    case _ =>
  }

  lemma ForeignHandler(s: State, c: Command)
    requires Undisturbed(s, c) && Enabled(s, HandlerContinues) && Inv(Step(s, HandlerContinues))
    ensures Undisturbed(Step(s, HandlerContinues), c)
    ensures Step(s, HandlerContinues).completed == s.completed && Step(s, HandlerContinues).handedOut == s.handedOut
  {
    hide CommandsIn, SignalsIn, CommandsSent, PacketsIn, PacketsSent, Answers, Awake, Conserved;
  }

  lemma ForeignTask(s: State, c: Command)
    requires Undisturbed(s, c) && s.tasks != [] && Inv(Step(s, RunTask))
    ensures Undisturbed(Step(s, RunTask), c)
    ensures Step(s, RunTask).completed == s.completed && Step(s, RunTask).handedOut == s.handedOut
  {
    hide CommandsIn, SignalsIn, CommandsSent, PacketsIn, PacketsSent, Answers, Awake, Conserved;
    TakeTask(s);
    var rest := SignalsIn(s.tasks[1..]);
    if IsSignal(s.tasks[0]) { assert ([s.tasks[0]] + rest)[0] == s.tasks[0] && ([s.tasks[0]] + rest)[1..] == rest; }
  }

  /** The run has no event with the opcode. */
  predicate NoEventFor(run: seq<Action>, opcode: nat) {
    forall i :: 0 <= i < |run| ==> run[i] != EventArrives(opcode)
  }

  /** Events for other commands change nothing: with nothing under way, a run without an event with the
      opcode of the command in flight neither runs a callback nor completes a command. */
  lemma {:induction false} ForeignEventsChangeNothing(s: State, run: seq<Action>, c: Command)
    requires Undisturbed(s, c) && CanRun(s, run) && NoEventFor(run, c.opcode)
    ensures Undisturbed(After(s, run), c)
    ensures After(s, run).completed == s.completed && After(s, run).handedOut == s.handedOut
    decreases |run|
  {
    hide Undisturbed, Step, Enabled;
    if run != [] {
      assert run[0] != EventArrives(c.opcode);
      ForeignStep(s, run[0], c);
      assert NoEventFor(run[1..], c.opcode);
      ForeignEventsChangeNothing(Step(s, run[0]), run[1..], c);
    }
  }

  /** Once every poster has voted, the router task wake lock is held exactly while a task is queued. */
  lemma WakelockCoversTasks(run: seq<Action>)
    requires CanRun(START, run) && After(START, run).unvoted == 0
    ensures After(START, run).wakelock <==> After(START, run).tasks != []
  {
    RunKeepsInv(START, run);
  }

  // ---------------------------------------------------------------------------------------------
  // A command without a callback blocks the queue
  // ---------------------------------------------------------------------------------------------

  ghost predicate StuckOn(s: State, c: Command) {
    Inv(s) && s.queue != [] && s.queue[0] == c && !c.hasCallback
  }

  lemma StuckStep(s: State, a: Action, c: Command)
    requires StuckOn(s, c) && Enabled(s, a)
    ensures StuckOn(Step(s, a), c) && Step(s, a).completed == s.completed
  {
    StepKeepsInv(s, a);
    hide Conserved, Awake, SignalsIn, CommandsIn, CommandsSent;
    if a.RunTask? && s.tasks[0].OnCommandCallbackCompleted? {
      CompletedTaskKeepsProtocol(s);
    }
  }

  /** A command in flight whose callback is empty is never completed, whatever happens, and neither
      is any command behind it. */
  lemma {:induction false} EmptyCallbackBlocks(s: State, run: seq<Action>, c: Command)
    requires StuckOn(s, c) && CanRun(s, run)
    ensures StuckOn(After(s, run), c) && After(s, run).completed == s.completed
    decreases |run|
  {
    hide StuckOn, Step, Enabled;
    if run != [] {
      StuckStep(s, run[0], c);
      EmptyCallbackBlocks(Step(s, run[0]), run[1..], c);
    }
  }

  /** A command in flight that has a callback is completed by an event for it. */
  lemma EventCompletes(s: State)
    requires Inv(s) && s.queue != [] && s.queue[0].hasCallback && s.tasks == [] && s.handler.Free?
    ensures
      var run := [EventArrives(s.queue[0].opcode), RunTask, HandlerContinues, HandlerContinues, RunTask];
      && CanRun(s, run)
      && After(s, run).completed == s.completed + [s.queue[0]]
      && After(s, run).queue == s.queue[1..]
  {
    var s1 := Step(s, EventArrives(s.queue[0].opcode));
    var s2 := Step(s1, RunTask);
    var s3 := Step(s2, HandlerContinues);
    var s4 := Step(s3, HandlerContinues);
    var s5 := Step(s4, RunTask);
    assert s5.completed == s.completed + [s.queue[0]] && s5.queue == s.queue[1..];
    var run5 := [RunTask];
    assert run5[1..] == [] && CanRun(s4, run5) && After(s4, run5) == s5;
    var run4 := [HandlerContinues, RunTask];
    assert run4[1..] == run5 && CanRun(s3, run4) && After(s3, run4) == s5;
    var run3 := [HandlerContinues, HandlerContinues, RunTask];
    assert run3[1..] == run4 && CanRun(s2, run3) && After(s2, run3) == s5;
    var run2 := [RunTask, HandlerContinues, HandlerContinues, RunTask];
    assert run2[1..] == run3 && CanRun(s1, run2) && After(s1, run2) == s5;
    var run1 := [EventArrives(s.queue[0].opcode), RunTask, HandlerContinues, HandlerContinues, RunTask];
    assert run1[1..] == run2 && CanRun(s, run1) && After(s, run1) == s5;
  }

  /** The run completes the command in flight. */
  ghost predicate Completes(s: State, run: seq<Action>)
    requires s.queue != []
  {
    CanRun(s, run) && s.completed + [s.queue[0]] <= After(s, run).completed
  }

  lemma CompletesBehind(s: State, a: Action, rest: seq<Action>)
    requires s.queue != [] && Enabled(s, a) && Step(s, a).queue != []
    requires Step(s, a).queue[0] == s.queue[0] && Step(s, a).completed == s.completed
    requires Completes(Step(s, a), rest)
    ensures Completes(s, [a] + rest)
  {
    assert ([a] + rest)[1..] == rest;
  }

  /** The worker reports a completion. */
  lemma CompletionTaskCompletes(s: State)
    requires Inv(s) && s.queue != [] && s.tasks != [] && s.tasks[0].OnCommandCallbackCompleted?
    ensures Completes(s, [RunTask])
  {
    assert [RunTask][1..] == [];
  }

  /** The callback has run: its completion is posted and handled. */
  lemma DoneCompletes(s: State)
    requires Inv(s) && s.queue != [] && s.tasks == [] && s.handler.CallbackDone?
    ensures Completes(s, [HandlerContinues] + [RunTask])
  {
    StepKeepsInv(s, HandlerContinues);
    var t := Step(s, HandlerContinues);
    CompletionTaskCompletes(t);
    CompletesBehind(s, HandlerContinues, [RunTask]);
  }

  /** Nothing is under way: an event for the command comes in. */
  lemma IdleCompletes(s: State)
    requires Inv(s) && s.queue != [] && s.queue[0].hasCallback && s.tasks == [] && s.handler.Free?
    ensures exists run :: Completes(s, run)
  {
    EventCompletes(s);
    var run := [EventArrives(s.queue[0].opcode), RunTask, HandlerContinues, HandlerContinues, RunTask];
    assert Completes(s, run);
  }

  /** The callback was looked up: it is run if it was found, and otherwise an event comes in. */
  lemma GotCompletes(s: State)
    requires Inv(s) && s.queue != [] && s.queue[0].hasCallback && s.tasks == [] && s.handler.GotCallback?
    ensures exists run :: Completes(s, run)
  {
    StepKeepsInv(s, HandlerContinues);
    var t := Step(s, HandlerContinues);
    if t.handler.Free? {
      IdleCompletes(t);
    } else {
      DoneCompletes(t);
    }
    var rest :| Completes(t, rest);
    CompletesBehind(s, HandlerContinues, rest);
  }

  lemma QuietCompletes(s: State)
    requires Inv(s) && s.queue != [] && s.queue[0].hasCallback && s.tasks == []
    ensures exists run :: Completes(s, run)
  {
    hide Completes, Conserved, Awake;
    match s.handler
    case Free => IdleCompletes(s);
    case GotCallback(_, _) => GotCompletes(s);
    case CallbackDone(_) => DoneCompletes(s);
  }

  lemma OtherTaskKeepsHead(s: State)
    requires s.queue != [] && s.tasks != [] && !s.tasks[0].OnCommandCallbackCompleted?
    ensures
      var t := Step(s, RunTask);
      t.queue != [] && t.queue[0] == s.queue[0] && t.completed == s.completed && |t.tasks| < |s.tasks|
  {
  }

  /** From any state the tasks still queued are run first. */
  lemma {:induction false} CallbackCompletes(s: State)
    requires Inv(s) && s.queue != [] && s.queue[0].hasCallback
    ensures exists run :: Completes(s, run)
    decreases |s.tasks|
  {
    hide Completes, Inv, Step;
    if s.tasks == [] {
      QuietCompletes(s);
    } else if s.tasks[0].OnCommandCallbackCompleted? {
      CompletionTaskCompletes(s);
    } else {
      StepKeepsInv(s, RunTask);
      OtherTaskKeepsHead(s);
      CallbackCompletes(Step(s, RunTask));
      var rest :| Completes(Step(s, RunTask), rest);
      CompletesBehind(s, RunTask, rest);
    }
  }

  /** In every reachable state, the command in flight can still be completed if and only if it has a
      callback. */
  lemma CompletableIffCallback(s: State)
    requires Inv(s) && s.queue != []
    ensures (exists run :: Completes(s, run)) <==> s.queue[0].hasCallback
  {
    hide Inv;
    if s.queue[0].hasCallback {
      CallbackCompletes(s);
    } else if run :| Completes(s, run) {
      EmptyCallbackBlocks(s, run, s.queue[0]);
    }
  }

  lemma TwoCommands(first: Command, second: Command)
    ensures
      var run := [PostCommand(first), RunTask, PostCommand(second), RunTask];
      && CanRun(START, run)
      && After(START, run).queue == [first, second] && After(START, run).completed == []
  {
    var s1 := Step(START, PostCommand(first));
    var s2 := Step(s1, RunTask);
    var s3 := Step(s2, PostCommand(second));
    var s4 := Step(s3, RunTask);
    assert s2.tasks == [] && s4.queue == [first, second] && s4.completed == [];
    var run1 := [PostCommand(first), RunTask, PostCommand(second), RunTask];
    var run2, run3, run4 := run1[1..], run1[2..], run1[3..];
    assert run4[1..] == [] && run3[1..] == run4 && run2[1..] == run3;
    assert run1[0] == PostCommand(first) && run2[0] == RunTask && run3[0] == PostCommand(second) && run4[0] == RunTask;
    hide Step, Enabled;
    assert CanRun(s3, run4) && After(s3, run4) == s4;
    assert CanRun(s2, run3) && After(s2, run3) == s4;
    assert CanRun(s1, run2) && After(s1, run2) == s4;
    assert CanRun(START, run1) && After(START, run1) == s4;
  }

  /** It happens: a command without a callback is sent, and another one waits behind it for ever. */
  lemma EmptyCallbackHappens(first: Command, second: Command)
    requires !first.hasCallback
    ensures
      var run := [PostCommand(first), RunTask, PostCommand(second), RunTask];
      && CanRun(START, run)
      && StuckOn(After(START, run), first)
      && After(START, run).queue == [first, second]
      && forall later | CanRun(After(START, run), later) :: After(After(START, run), later).completed == []
  {
    var run := [PostCommand(first), RunTask, PostCommand(second), RunTask];
    TwoCommands(first, second);
    var s4 := After(START, run);
    RunKeepsInv(START, run);
    forall later | CanRun(s4, later) ensures After(s4, later).completed == [] {
      EmptyCallbackBlocks(s4, later, first);
    }
  }

  // ---------------------------------------------------------------------------------------------
  // The handler object, proved against the steps above
  // ---------------------------------------------------------------------------------------------

  class TxHandler {
    var queue: seq<Command>
    var isBusy: bool
    var wakeLockVotes: int
    var routerTaskWakelock: bool
    /** Calls of SendToTransport, in order. */
    var wire: seq<Sent>
    ghost var completed: seq<Command>

    constructor ()
      ensures Holds(START)
    {
      queue, isBusy, wakeLockVotes, routerTaskWakelock, wire, completed := [], false, 0, false, [], [];
    }

    /** The fields are those of the state `s`. */
    ghost predicate Holds(s: State)
      reads this
    {
      && queue == s.queue && isBusy == s.busy && wire == s.wire && completed == s.completed
      && wakeLockVotes == s.votes && routerTaskWakelock == s.wakelock
    }

    /** What the worker does with one task; `callback` is what a task that fetches one promises. */
    method TxTaskDispatcher(task: TxTask, ghost s: State) returns (callback: Option<Command>)
      requires Holds(s) && s.tasks != [] && task == s.tasks[0]
      modifies this
      ensures Holds(Step(s, RunTask))
      ensures task.GetCommandCallback? ==> Step(s, RunTask).handler == GotCallback(task.opcode, callback)
    {
      callback := None;
      match task {
        case SendOrQueueCommand(c) => DoSendOrQueueCommand(c);
        case GetCommandCallback(opcode) => callback := DoGetCommandCallback(opcode);
        case OnCommandCallbackCompleted => DoOnCommandCallbackCompleted();
        case SendToTransport(p) => DoSendToTransport(SentPacket(p));
      }
      UnvoteRouterTaskWakelock();
    }

    method DoSendOrQueueCommand(c: Command)
      modifies this`queue, this`isBusy, this`wire
      ensures queue == old(queue) + [c]
      ensures old(queue) == [] ==> isBusy && wire == old(wire) + [SentCommand(c)]
      ensures old(queue) != [] ==> isBusy == old(isBusy) && wire == old(wire)
    {
      var isQueueBusy := queue != [];
      queue := queue + [c];
      if isQueueBusy {
        return;
      }
      SetBusy(true);
      DoSendToTransport(SentCommand(c));
    }

    method DoGetCommandCallback(opcode: nat) returns (callback: Option<Command>)
      ensures callback.Some? <==> queue != [] && queue[0].opcode == opcode
      ensures callback.Some? ==> callback.value == queue[0]
    {
      if queue == [] || queue[0].opcode != opcode {
        return None;
      }
      return Some(queue[0]);
    }

    method DoOnCommandCallbackCompleted()
      modifies this`queue, this`isBusy, this`wire, this`completed
      ensures old(queue) == [] ==> unchanged(this)
      ensures old(queue) != [] ==>
        && queue == old(queue)[1..] && completed == old(completed) + [old(queue)[0]]
        && (isBusy <==> 1 < |old(queue)|)
        && wire == old(wire) + (if 1 < |old(queue)| then [SentCommand(old(queue)[1])] else [])
    {
      if queue == [] {
        return;
      }
      completed := completed + [queue[0]];
      queue := queue[1..];
      var hasQueuedCommand := queue != [];
      SetBusy(hasQueuedCommand);
      if hasQueuedCommand {
        DoSendToTransport(SentCommand(queue[0]));
      }
    }

    method DoSendToTransport(packet: Sent)
      modifies this`wire
      ensures wire == old(wire) + [packet]
    {
      wire := wire + [packet];
    }

    method SetBusy(busy: bool)
      modifies this`isBusy
      ensures isBusy == busy
    {
      isBusy := busy;
    }

    method VoteRouterTaskWakelock(ghost s: State)
      requires Holds(s) && Enabled(s, Vote)
      modifies this`wakeLockVotes, this`routerTaskWakelock
      ensures Holds(Step(s, Vote))
    {
      if wakeLockVotes == 0 {
        routerTaskWakelock := true;
      }
      wakeLockVotes := wakeLockVotes + 1;
    }

    method UnvoteRouterTaskWakelock()
      modifies this`wakeLockVotes, this`routerTaskWakelock
      ensures wakeLockVotes == old(wakeLockVotes) - 1
      ensures routerTaskWakelock <==> 0 < wakeLockVotes
    {
      routerTaskWakelock := false;
      wakeLockVotes := wakeLockVotes - 1;
      if 0 < wakeLockVotes {
        routerTaskWakelock := true;
      }
    }
  }
}
