/** The state of the Bluetooth HAL as the router keeps it and as the client agent mirrors it. */
module HalStates {
  datatype HalState =
    | Shutdown
    | Init
    | PreFirmwareDownload
    | FirmwareDownloading
    | FirmwareDownloadCompleted
    | FirmwareReady
    | BtChipReady
    | Running
  {
    /** The numeric value of the enumerator. */
    function Value(): nat {
      match this
      case Shutdown => 0
      case Init => 1
      case PreFirmwareDownload => 2
      case FirmwareDownloading => 3
      case FirmwareDownloadCompleted => 4
      case FirmwareReady => 5
      case BtChipReady => 6
      case Running => 7
    }
  }

  /** The states that may follow a state. */
  function NextStates(state: HalState): set<HalState> {
    match state
    case Shutdown => {Shutdown, Init}
    case Init => {Shutdown, PreFirmwareDownload}
    case PreFirmwareDownload => {Shutdown, FirmwareDownloading}
    case FirmwareDownloading => {Shutdown, FirmwareDownloadCompleted}
    case FirmwareDownloadCompleted => {Shutdown, FirmwareReady}
    case FirmwareReady => {Shutdown, BtChipReady}
    case BtChipReady => {Shutdown, BtChipReady, Running}
    case Running => {Shutdown, BtChipReady}
  }

  /** What a registered client is told. */
  datatype Note =
    | ChipReady
    | ChipClosed
    | Enabled
    | Disabled
    | HalStateChanged(newState: HalState, oldState: HalState)
    | PacketSeen

  /** The agent: `logs` holds, for each registered client, what it was told since it registered. */
  datatype Agent = Agent(
    current: HalState,
    chipReady: bool,
    enabled: bool,
    logs: map<nat, seq<Note>>)

  /** ForEachClient: every registered client is told. */
  function Told(logs: map<nat, seq<Note>>, note: Note): map<nat, seq<Note>> {
    map c | c in logs :: logs[c] + [note]
  }

  function ToldIf(condition: bool, logs: map<nat, seq<Note>>, note: Note): map<nat, seq<Note>> {
    if condition then Told(logs, note) else logs
  }

  function Register(a: Agent, client: nat): (Agent, bool) {
    if client in a.logs then (a, false)
    else
      var catchUp := (if a.chipReady then [ChipReady] else []) + (if a.enabled then [Enabled] else []);
      (a.(logs := a.logs[client := catchUp]), true)
  }

  function Unregister(a: Agent, client: nat): (Agent, bool) {
    if client !in a.logs then (a, false) else (a.(logs := a.logs - {client}), true)
  }

  /** DispatchPacketToClients; `isReset` says that the packet reports a successful HCI_RESET. */
  function Dispatch(a: Agent, isReset: bool): Agent {
    var enabling := !a.enabled && a.current == Running && isReset;
    a.(enabled := a.enabled || enabling,
       logs := Told(ToldIf(enabling, a.logs, Enabled), PacketSeen))
  }

  /** The agent accepts a change only if its own state is not ahead of the router's old state. */
  predicate Accepts(a: Agent, oldState: HalState) {
    a.current.Value() <= oldState.Value()
  }

  function NotifyHalStateChange(a: Agent, newState: HalState, oldState: HalState): Agent {
    var b := match newState
      case BtChipReady =>
        Agent(newState, true, false,
              ToldIf(a.enabled, ToldIf(!a.chipReady, a.logs, ChipReady), Disabled))
      case Running =>
        Agent(newState, true, a.enabled, ToldIf(!a.chipReady, a.logs, ChipReady))
      case _ =>
        Agent(newState, false, false,
              ToldIf(a.enabled, ToldIf(a.chipReady, a.logs, ChipClosed), Disabled));
    b.(logs := Told(b.logs, HalStateChanged(newState, oldState)))
  }

  /** The router: `stack` says that the stack has handed over its callback; `stackLog` is what that
      callback was told. */
  datatype Router = Router(hal: HalState, stack: bool, agent: Agent, stackLog: seq<(HalState, HalState)>)

  const START := Router(Shutdown, false, Agent(Shutdown, false, false, map[]), [])

  /** A call returns, or the process aborts. */
  datatype Outcome = Returned(router: Router, result: bool) | InvalidTransition | AgentMismatch

  function UpdateHalState(r: Router, state: HalState): Outcome
    decreases state == BtChipReady
  {
    if state !in NextStates(r.hal) then InvalidTransition
    else if !Accepts(r.agent, r.hal) then AgentMismatch
    else
      var r1 := Router(state, r.stack, NotifyHalStateChange(r.agent, state, r.hal),
                       if r.stack then r.stackLog + [(state, r.hal)] else r.stackLog);
      if state == BtChipReady && r.hal == FirmwareReady && r.stack then UpdateHalState(r1, Running)
      else Returned(r1, true)
  }

  function Cleanup(r: Router): Outcome {
    var o := UpdateHalState(r, Shutdown);
    if o.Returned? then Returned(o.router.(stack := false), true) else o
  }

  /** Close: with accelerated BT ON a running chip is only reset. */
  function Close(r: Router, accelerated: bool): Outcome {
    if r.hal == Running && accelerated then Returned(r, true) else Cleanup(r)
  }

  function InitializeModules(r: Router, accelerated: bool, transportOk: bool): Outcome {
    if r.hal == Running then Returned(r, false)
    else if r.hal != Shutdown then Returned(r, true)
    else
      var o := UpdateHalState(r, Init);
      if !o.Returned? || transportOk then o
      else
        var c := Close(o.router, accelerated);
        if c.Returned? then Returned(c.router, false) else c
  }

  datatype Action =
    | DoInitialize(accelerated: bool, transportOk: bool)
    | DoPowerOn(accelerated: bool, transportOk: bool)     // from the constructor, without a stack
    | DoClose(accelerated: bool)
    | DoCleanup
    | DoUpdate(state: HalState)
    | DoRegister(client: nat)
    | DoUnregister(client: nat)
    | DoDispatch(isReset: bool)

  function Do(r: Router, a: Action): Outcome {
    match a
    case DoInitialize(accelerated, transportOk) =>
      InitializeModules(r.(stack := true), accelerated, transportOk)
    case DoPowerOn(accelerated, transportOk) => InitializeModules(r, accelerated, transportOk)
    case DoClose(accelerated) => Close(r, accelerated)
    case DoCleanup => Cleanup(r)
    case DoUpdate(state) => UpdateHalState(r, state)
    case DoRegister(client) =>
      var (agent, result) := Register(r.agent, client);
      Returned(r.(agent := agent), result)
    case DoUnregister(client) =>
      var (agent, result) := Unregister(r.agent, client);
      Returned(r.(agent := agent), result)
    case DoDispatch(isReset) => Returned(r.(agent := Dispatch(r.agent, isReset)), true)
  }

  /** The outcome of a run: that of its last call, or of the call that aborted the process. */
  function Run(r: Router, run: seq<Action>): Outcome
    decreases |run|
  {
    if run == [] then Returned(r, true)
    else
      var o := Do(r, run[0]);
      if o.Returned? then Run(o.router, run[1..]) else o
  }

  // ---------------------------------------------------------------------------------------------
  // The agent mirrors the router, and clients hear alternating notes
  // ---------------------------------------------------------------------------------------------

  /** Where a client stands that is told `on` and `off` in turns, beginning with `on`; None if the
      notes do not alternate. */
  datatype Phase = Off | On | Broken

  function PhaseAfter(log: seq<Note>, on: Note, off: Note): Phase {
    if log == [] then Off
    else
      var last := log[|log| - 1];
      Turn(PhaseAfter(log[..|log| - 1], on, off), last == on, last == off)
  }

  function Turn(before: Phase, isOn: bool, isOff: bool): Phase {
    if isOn then (if before == Off then On else Broken)
    else if isOff then (if before == On then Off else Broken)
    else before
  }

  function InPhase(flag: bool): Phase {
    if flag then On else Off
  }

  ghost predicate LogsAgree(logs: map<nat, seq<Note>>, chipReady: bool, enabled: bool) {
    forall c :: c in logs ==>
      && PhaseAfter(logs[c], ChipReady, ChipClosed) == InPhase(chipReady)
      && PhaseAfter(logs[c], Enabled, Disabled) == InPhase(enabled)
  }

  ghost predicate Inv(r: Router) {
    && r.agent.current == r.hal
    && (r.agent.chipReady <==> r.hal == BtChipReady || r.hal == Running)
    && (r.agent.enabled ==> r.hal == Running)
    && LogsAgree(r.agent.logs, r.agent.chipReady, r.agent.enabled)
  }

  lemma PhaseAppend(log: seq<Note>, note: Note, on: Note, off: Note)
    ensures PhaseAfter(log + [note], on, off) == Turn(PhaseAfter(log, on, off), note == on, note == off)
  {
    assert (log + [note])[..|log|] == log;
  }

  ghost predicate PhaseStep(log: seq<Note>, note: Note) {
    && PhaseAfter(log + [note], ChipReady, ChipClosed) ==
       Turn(PhaseAfter(log, ChipReady, ChipClosed), note == ChipReady, note == ChipClosed)
    && PhaseAfter(log + [note], Enabled, Disabled) ==
       Turn(PhaseAfter(log, Enabled, Disabled), note == Enabled, note == Disabled)
  }

  /** Telling every client a note moves every log the same way. */
  lemma ToldAgree(logs: map<nat, seq<Note>>, note: Note, chipReady: bool, enabled: bool)
    requires LogsAgree(logs, chipReady, enabled)
    ensures note == ChipReady && !chipReady ==> LogsAgree(Told(logs, note), true, enabled)
    ensures note == ChipClosed && chipReady ==> LogsAgree(Told(logs, note), false, enabled)
    ensures note == Enabled && !enabled ==> LogsAgree(Told(logs, note), chipReady, true)
    ensures note == Disabled && enabled ==> LogsAgree(Told(logs, note), chipReady, false)
    ensures note.HalStateChanged? || note.PacketSeen? ==> LogsAgree(Told(logs, note), chipReady, enabled)
  {
    hide PhaseAfter;
    forall c | c in logs
      ensures PhaseStep(logs[c], note)
    {
      PhaseAppend(logs[c], note, ChipReady, ChipClosed);
      PhaseAppend(logs[c], note, Enabled, Disabled);
    }
  }

  lemma NotifyAgrees(a: Agent, newState: HalState, oldState: HalState)
    requires LogsAgree(a.logs, a.chipReady, a.enabled)
    ensures var b := NotifyHalStateChange(a, newState, oldState); LogsAgree(b.logs, b.chipReady, b.enabled)
  {
    hide LogsAgree, Told;
    var on := newState == BtChipReady || newState == Running;
    var first, second := if on then ChipReady else ChipClosed, Disabled;
    var told := if on then !a.chipReady else a.chipReady;
    ToldAgree(a.logs, first, a.chipReady, a.enabled);
    var logs := ToldIf(told, a.logs, first);
    assert LogsAgree(logs, on, a.enabled);
    ToldAgree(logs, Disabled, on, a.enabled);
    var b := NotifyHalStateChange(a, newState, oldState);
    var logs2 := ToldIf(a.enabled && newState != Running, logs, Disabled);
    assert LogsAgree(logs2, b.chipReady, b.enabled);
    ToldAgree(logs2, HalStateChanged(newState, oldState), b.chipReady, b.enabled);
  }

  /** Where an update ends: a stack that waits for the chip is started at once. */
  function Destination(r: Router, state: HalState): HalState {
    if state == BtChipReady && r.hal == FirmwareReady && r.stack then Running else state
  }

  /** A completed update keeps the agent in step; the agent never refuses it. */
  lemma UpdateKeepsInv(r: Router, state: HalState)
    requires Inv(r)
    ensures var o := UpdateHalState(r, state);
      && (state in NextStates(r.hal) <==> o.Returned?) && !o.AgentMismatch?
      && (o.Returned? ==> Inv(o.router) && o.router.stack == r.stack)
      && (o.Returned? ==> o.router.hal == Destination(r, state))
    decreases state == BtChipReady
  {
    hide LogsAgree;
    if state in NextStates(r.hal) {
      NotifyAgrees(r.agent, state, r.hal);
      var r1 := Router(state, r.stack, NotifyHalStateChange(r.agent, state, r.hal),
                       if r.stack then r.stackLog + [(state, r.hal)] else r.stackLog);
      assert Inv(r1);
      if state == BtChipReady && r.hal == FirmwareReady && r.stack {
        UpdateKeepsInv(r1, Running);
      }
    }
  }

  lemma RegisterKeepsInv(r: Router, client: nat)
    requires Inv(r)
    ensures Inv(Do(r, DoRegister(client)).router)
  {
    var a := r.agent;
    var ready := if a.chipReady then [ChipReady] else [];
    var both := ready + (if a.enabled then [Enabled] else []);
    assert ready != [] ==> ready == [] + [ChipReady];
    PhaseAppend([], ChipReady, ChipReady, ChipClosed);
    PhaseAppend([], ChipReady, Enabled, Disabled);
    PhaseAppend(ready, Enabled, ChipReady, ChipClosed);
    PhaseAppend(ready, Enabled, Enabled, Disabled);
    assert !a.enabled ==> both == ready;
  }

  lemma DispatchKeepsInv(r: Router, isReset: bool)
    requires Inv(r)
    ensures Inv(Do(r, DoDispatch(isReset)).router)
  {
    hide LogsAgree, Told;
    var a := r.agent;
    var b := Dispatch(a, isReset);
    ToldAgree(a.logs, Enabled, a.chipReady, a.enabled);
    var logs := ToldIf(!a.enabled && a.current == Running && isReset, a.logs, Enabled);
    assert LogsAgree(logs, b.chipReady, b.enabled);
    ToldAgree(logs, PacketSeen, b.chipReady, b.enabled);
  }

  /** Every call keeps the invariant; only an update that the state machine forbids aborts. */
  lemma DoKeepsInv(r: Router, a: Action)
    requires Inv(r)
    ensures var o := Do(r, a);
      && !o.AgentMismatch? && (o.Returned? ==> Inv(o.router))
      && (o.InvalidTransition? <==> a.DoUpdate? && a.state !in NextStates(r.hal))
  {
    match a {
      case DoInitialize(accelerated, transportOk) =>
        InitializeKeepsInv(r.(stack := true), accelerated, transportOk);
      case DoPowerOn(accelerated, transportOk) =>
        InitializeKeepsInv(r, accelerated, transportOk);
      case DoClose(accelerated) => UpdateKeepsInv(r, Shutdown);
      case DoCleanup => UpdateKeepsInv(r, Shutdown);
      case DoUpdate(state) => UpdateKeepsInv(r, state);
      case DoRegister(client) => RegisterKeepsInv(r, client);
      case DoUnregister(client) =>
      case DoDispatch(isReset) => DispatchKeepsInv(r, isReset);
    }
  }

  lemma InitializeKeepsInv(r: Router, accelerated: bool, transportOk: bool)
    requires Inv(r)
    ensures var o := InitializeModules(r, accelerated, transportOk); o.Returned? && Inv(o.router)
    ensures var o := InitializeModules(r, accelerated, transportOk);
      o.Returned? && (o.result <==> r.hal != Running && (r.hal == Shutdown ==> transportOk))
  {
    if r.hal == Shutdown {
      UpdateKeepsInv(r, Init);
      hide LogsAgree;
      var r1 := UpdateHalState(r, Init).router;
      UpdateKeepsInv(r1, Shutdown);
    }
  }

  lemma {:induction false} RunKeepsInv(r: Router, run: seq<Action>)
    requires Inv(r)
    ensures !Run(r, run).AgentMismatch? && (Run(r, run).Returned? ==> Inv(Run(r, run).router))
    decreases |run|
  {
    hide Inv, Do;
    if run != [] {
      DoKeepsInv(r, run[0]);
      var o := Do(r, run[0]);
      if o.Returned? {
        RunKeepsInv(o.router, run[1..]);
      }
    }
  }

  /** In every run the agent's own check never fires; between calls its state is the router's, the
      chip is reported ready exactly in BtChipReady and Running, and enabled only in Running. */
  lemma AgentMirrorsRouter(run: seq<Action>)
    ensures !Run(START, run).AgentMismatch?
    ensures Run(START, run).Returned? ==>
      var r := Run(START, run).router;
      && r.agent.current == r.hal
      && (r.agent.chipReady <==> r.hal == BtChipReady || r.hal == Running)
      && (r.agent.enabled ==> r.hal == Running)
  {
    RunKeepsInv(START, run);
  }

  /** Notes told in turns: the first of the two is `on`, and two of a kind have the other between. */
  ghost predicate Alternates(log: seq<Note>, on: Note, off: Note) {
    && (forall j :: 0 <= j < |log| && log[j] == off ==> exists i :: 0 <= i < j && log[i] == on)
    && (forall i, j :: 0 <= i < j < |log| && log[i] == log[j] == on ==>
          exists k :: i < k < j && log[k] == off)
    && (forall i, j :: 0 <= i < j < |log| && log[i] == log[j] == off ==>
          exists k :: i < k < j && log[k] == on)
  }

  /** The last note of the two kinds, if any, is `last`. */
  ghost predicate LastIs(log: seq<Note>, last: Note, other: Note) {
    exists k :: 0 <= k < |log| && log[k] == last && forall i :: k < i < |log| ==> log[i] != other
  }

  ghost predicate NoneOf(log: seq<Note>, note: Note) {
    forall i :: 0 <= i < |log| ==> log[i] != note
  }

  /** In a log that is not broken, the last of the two kinds of note tells the phase. */
  ghost predicate LastTells(log: seq<Note>, on: Note, off: Note, phase: Phase) {
    && (phase == On ==> LastIs(log, on, off))
    && (phase == Off ==> NoneOf(log, on) || LastIs(log, off, on))
  }

  /** Adding a note of one kind after the other kind, or after none. */
  lemma AppendKeepsTurns(log: seq<Note>, note: Note, other: Note)
    requires note != other
    requires NoneOf(log, note) || LastIs(log, other, note)
    ensures LastIs(log + [note], note, other)
    ensures forall i :: 0 <= i < |log| && log[i] == note ==>
      exists k :: i < k < |log| && (log + [note])[k] == other
  {
    var longer := log + [note];
    assert longer[|log|] == note;
    if LastIs(log, other, note) {
      var k :| 0 <= k < |log| && log[k] == other && forall i :: k < i < |log| ==> log[i] != note;
      assert longer[k] == other;
    }
  }

  lemma AppendSame(log: seq<Note>, note: Note, last: Note, other: Note)
    requires note != other
    ensures LastIs(log, last, other) ==> LastIs(log + [note], last, other)
    ensures NoneOf(log, other) ==> NoneOf(log + [note], other)
  {
    var longer := log + [note];
    if LastIs(log, last, other) {
      var k :| 0 <= k < |log| && log[k] == last && forall i :: k < i < |log| ==> log[i] != other;
      assert longer[k] == last;
    }
  }

  /** Alternation of the notes before the last one, seen in the longer log. */
  lemma AlternatesStep(log: seq<Note>, note: Note, on: Note, off: Note)
    requires Alternates(log, on, off) && on != off
    requires note == on ==> NoneOf(log, on) || LastIs(log, off, on)
    requires note == off ==> LastIs(log, on, off)
    ensures Alternates(log + [note], on, off)
  {
    var longer, n := log + [note], |log|;
    forall j | 0 <= j < |longer| && longer[j] == off
      ensures exists i :: 0 <= i < j && longer[i] == on
    {
      if j < n {
        var i :| 0 <= i < j && log[i] == on;
        assert longer[i] == on;
      } else {
        var k :| 0 <= k < |log| && log[k] == on && forall i :: k < i < |log| ==> log[i] != off;
        assert longer[k] == on;
      }
    }
    TurnsStep(log, note, on, off);
    TurnsStep(log, note, off, on);
  }

  lemma TurnsStep(log: seq<Note>, note: Note, one: Note, other: Note)
    requires one != other
    requires forall i, j :: 0 <= i < j < |log| && log[i] == log[j] == one ==>
      exists k :: i < k < j && log[k] == other
    requires note == one ==> NoneOf(log, one) || LastIs(log, other, one)
    ensures forall i, j :: 0 <= i < j < |log + [note]| && (log + [note])[i] == (log + [note])[j] == one ==>
      exists k :: i < k < j && (log + [note])[k] == other
  {
    var longer, n := log + [note], |log|;
    if note == one {
      AppendKeepsTurns(log, one, other);
    }
    forall i, j | 0 <= i < j < |longer| && longer[i] == longer[j] == one
      ensures exists k :: i < k < j && longer[k] == other
    {
      if j < n {
        assert log[i] == log[j] == one;
        var k :| i < k < j && log[k] == other;
        assert longer[k] == other;
      } else {
        assert log[i] == one;
      }
    }
  }

  lemma {:induction false} PhaseMeansAlternating(log: seq<Note>, on: Note, off: Note)
    requires on != off && PhaseAfter(log, on, off) != Broken
    ensures Alternates(log, on, off) && LastTells(log, on, off, PhaseAfter(log, on, off))
  {
    if log != [] {
      var before, note := log[..|log| - 1], log[|log| - 1];
      assert log == before + [note];
      hide PhaseAfter, Alternates, LastIs, NoneOf;
      PhaseAppend(before, note, on, off);
      PhaseMeansAlternating(before, on, off);
      AlternatesStep(before, note, on, off);
      LastTellsStep(before, note, on, off);
    }
  }

  lemma LastTellsStep(before: seq<Note>, note: Note, on: Note, off: Note)
    requires on != off && LastTells(before, on, off, PhaseAfter(before, on, off))
    requires PhaseAfter(before, on, off) != Broken
    ensures
      var phase := Turn(PhaseAfter(before, on, off), note == on, note == off);
      phase != Broken ==> LastTells(before + [note], on, off, phase)
  {
    hide PhaseAfter, Alternates, LastIs, NoneOf;
    if Turn(PhaseAfter(before, on, off), note == on, note == off) == Broken {
    } else if note == on {
      AppendKeepsTurns(before, on, off);
    } else if note == off {
      AppendKeepsTurns(before, off, on);
    } else {
      AppendSame(before, note, on, off);
      AppendSame(before, note, off, on);
    }
  }

  /** For each registration, catch-up calls included, ChipReady and ChipClosed alternate, and so do
      Enabled and Disabled. */
  lemma ClientNotesAlternate(run: seq<Action>, client: nat)
    requires Run(START, run).Returned? && client in Run(START, run).router.agent.logs
    ensures var log := Run(START, run).router.agent.logs[client];
      Alternates(log, ChipReady, ChipClosed) && Alternates(log, Enabled, Disabled)
  {
    RunKeepsInv(START, run);
    var log := Run(START, run).router.agent.logs[client];
    PhaseMeansAlternating(log, ChipReady, ChipClosed);
    PhaseMeansAlternating(log, Enabled, Disabled);
  }

  /** Once the firmware is ready, reporting the chip ready starts the stack if it asked for it. */
  lemma ChipReadyStartsStack(r: Router)
    requires Inv(r) && r.hal == FirmwareReady
    ensures var o := UpdateHalState(r, BtChipReady);
      o.Returned? && o.router.hal == (if r.stack then Running else BtChipReady)
  {
    UpdateKeepsInv(r, BtChipReady);
  }

  // ---------------------------------------------------------------------------------------------
  // What each call comes to
  // ---------------------------------------------------------------------------------------------

  /** In any reachable state an update completes exactly when it shuts down, goes one state up, or reports
      the chip ready again or after running. */
  lemma UpdatesExactly(r: Router, state: HalState)
    requires Inv(r)
    ensures UpdateHalState(r, state).Returned? <==>
      || state == Shutdown
      || state.Value() == r.hal.Value() + 1
      || (state == BtChipReady && (r.hal == BtChipReady || r.hal == Running))
    ensures !UpdateHalState(r, state).Returned? ==> UpdateHalState(r, state) == InvalidTransition
  {
    hide LogsAgree;
    UpdateKeepsInv(r, state);
  }

  /** The agent refuses a change exactly when it is ahead of the router, which no reachable state is. */
  lemma MismatchExactly(r: Router, state: HalState)
    requires state != BtChipReady
    ensures UpdateHalState(r, state).AgentMismatch? <==>
      state in NextStates(r.hal) && r.agent.current.Value() > r.hal.Value()
  {
  }

  /** The stack hears of the change; when it was waiting for the chip, also of the start that follows. */
  lemma UpdateTellsStack(r: Router, state: HalState)
    requires Inv(r) && UpdateHalState(r, state).Returned?
    ensures
      var log := UpdateHalState(r, state).router.stackLog;
      log ==
      if !r.stack then r.stackLog
      else if state == BtChipReady && r.hal == FirmwareReady then
        r.stackLog + [(BtChipReady, FirmwareReady)] + [(Running, BtChipReady)]
      else r.stackLog + [(state, r.hal)]
  {
    hide LogsAgree;
  }

  /** What every client hears of an update that stops where it was asked to: that the chip became ready or
      closed, if it did; that Bluetooth is no longer enabled, if it was; and the change itself. */
  lemma UpdateTellsClients(r: Router, state: HalState, client: nat)
    requires Inv(r) && client in r.agent.logs && UpdateHalState(r, state).Returned? && Destination(r, state) == state
    ensures
      var a, b := r.agent, UpdateHalState(r, state).router.agent;
      && b.logs.Keys == a.logs.Keys
      && b.logs[client] == a.logs[client] +
           (if b.chipReady == a.chipReady then [] else if b.chipReady then [ChipReady] else [ChipClosed]) +
           (if a.enabled && !b.enabled then [Disabled] else []) +
           [HalStateChanged(state, r.hal)]
      && (b.enabled <==> a.enabled && state == Running)
  {
    hide LogsAgree;
  }

  /** Initialising from shutdown ends in Init with the stack registered, or back in shutdown without it when
      the transport does not come up; a running router refuses, and one on its way up lets it be. */
  lemma InitializeEnds(r: Router, accelerated: bool, transportOk: bool)
    requires Inv(r)
    ensures
      var o := Do(r, DoInitialize(accelerated, transportOk));
      && o.Returned?
      && (r.hal == Shutdown && transportOk ==> o.result && o.router.hal == Init && o.router.stack)
      && (r.hal == Shutdown && !transportOk ==> !o.result && o.router.hal == Shutdown && !o.router.stack)
      && (r.hal != Shutdown ==> o == Returned(r.(stack := true), r.hal != Running))
  {
    hide LogsAgree;
    if r.hal == Shutdown {
      UpdateKeepsInv(r.(stack := true), Init);
      UpdateKeepsInv(UpdateHalState(r.(stack := true), Init).router, Shutdown);
    }
  }

  /** Power on does the same without touching the stack's registration. */
  lemma PowerOnEnds(r: Router, accelerated: bool)
    requires Inv(r) && r.hal == Shutdown
    ensures
      var o := Do(r, DoPowerOn(accelerated, true));
      o.Returned? && o.result && o.router.hal == Init && o.router.stack == r.stack
  {
    hide LogsAgree;
    UpdateKeepsInv(r, Init);
  }

  /** Closing ends in shutdown with the stack forgotten, from any state, unless a running chip is kept on for
      accelerated start: then nothing changes. Cleaning up never spares the chip. */
  lemma CloseEnds(r: Router, accelerated: bool)
    requires Inv(r)
    ensures
      var o := Do(r, DoClose(accelerated));
      if r.hal == Running && accelerated then o == Returned(r, true)
      else o.Returned? && o.router.hal == Shutdown && !o.router.stack && !o.router.agent.chipReady
    ensures
      var o := Do(r, DoCleanup);
      o.Returned? && o.router.hal == Shutdown && !o.router.stack && !o.router.agent.chipReady
  {
    hide LogsAgree;
    UpdateKeepsInv(r, Shutdown);
  }

  /** A packet is seen by every client; a successful reset while running enables Bluetooth first, once. */
  lemma DispatchTells(r: Router, isReset: bool, client: nat)
    requires client in r.agent.logs
    ensures
      var o := Do(r, DoDispatch(isReset));
      var first := r.agent.current == Running && isReset && !r.agent.enabled;
      && o.Returned? && o.router == r.(agent := o.router.agent)
      && o.router.agent.logs[client] == r.agent.logs[client] + (if first then [Enabled, PacketSeen] else [PacketSeen])
      && (o.router.agent.enabled <==> r.agent.enabled || first)
      && o.router.agent.current == r.agent.current && o.router.agent.chipReady == r.agent.chipReady
  {
  }

  /** A client is registered once, hears at once what it has missed, and can leave. */
  lemma RegistrationTells(r: Router, client: nat)
    ensures
      var o := Do(r, DoRegister(client));
      && o.Returned? && (o.result <==> client !in r.agent.logs)
      && client in o.router.agent.logs
      && (!o.result ==> o.router == r)
      && (o.result && r.agent.chipReady && r.agent.enabled ==> o.router.agent.logs[client] == [ChipReady, Enabled])
      && (o.result && r.agent.chipReady && !r.agent.enabled ==> o.router.agent.logs[client] == [ChipReady])
      && (o.result && !r.agent.chipReady && !r.agent.enabled ==> o.router.agent.logs[client] == [])
      && (forall other | other in r.agent.logs :: other in o.router.agent.logs && o.router.agent.logs[other] == r.agent.logs[other])
    ensures
      var o := Do(r, DoUnregister(client));
      && o.Returned? && (o.result <==> client in r.agent.logs)
      && o.router == r.(agent := r.agent.(logs := o.router.agent.logs))
      && o.router.agent.logs == r.agent.logs - {client}
  {
  }

  function BringUp(accelerated: bool): seq<Action> {
    [DoInitialize(accelerated, true), DoUpdate(PreFirmwareDownload), DoUpdate(FirmwareDownloading),
     DoUpdate(FirmwareDownloadCompleted), DoUpdate(FirmwareReady), DoUpdate(BtChipReady)]
  }

  /** The ordinary way up, from the start to Running, and all that the stack is told on it. */
  lemma BringUpEndsRunning(accelerated: bool)
    ensures
      var o := Run(START, BringUp(accelerated));
      && o.Returned? && o.router.hal == Running && o.router.stack && o.router.agent.chipReady
      && o.router.stackLog ==
           [(Init, Shutdown), (PreFirmwareDownload, Init), (FirmwareDownloading, PreFirmwareDownload),
            (FirmwareDownloadCompleted, FirmwareDownloading), (FirmwareReady, FirmwareDownloadCompleted),
            (BtChipReady, FirmwareReady), (Running, BtChipReady)]
  {
    hide Inv, Do, UpdateHalState, Run;
    var run := BringUp(accelerated);
    assert Inv(START) by { StartKeepsInv(); }
    assert run[1..][1..] == run[2..] && run[2..][1..] == run[3..] && run[3..][1..] == run[4..] && run[4..][1..] == run[5..];
    var r1 := Climb(START, DoInitialize(accelerated, true), Init, run);
    var r2 := Climb(r1, DoUpdate(PreFirmwareDownload), PreFirmwareDownload, run[1..]);
    var r3 := Climb(r2, DoUpdate(FirmwareDownloading), FirmwareDownloading, run[2..]);
    var r4 := Climb(r3, DoUpdate(FirmwareDownloadCompleted), FirmwareDownloadCompleted, run[3..]);
    var r5 := Climb(r4, DoUpdate(FirmwareReady), FirmwareReady, run[4..]);
    assert run[5..] == [DoUpdate(BtChipReady)];
    ReachTop(r5);
  }

  lemma StartKeepsInv()
    ensures Inv(START)
  {
  }

  lemma ReachTop(r: Router)
    requires Inv(r) && r.hal == FirmwareReady && r.stack
    ensures
      var o := Run(r, [DoUpdate(BtChipReady)]);
      && o.Returned? && o.router.hal == Running && o.router.stack && o.router.agent.chipReady
      && o.router.stackLog == r.stackLog + [(BtChipReady, FirmwareReady)] + [(Running, BtChipReady)]
  {
    hide LogsAgree;
    UpdatesExactly(r, BtChipReady);
    UpdateKeepsInv(r, BtChipReady);
    UpdateTellsStack(r, BtChipReady);
    assert [DoUpdate(BtChipReady)][1..] == [];
  }

  /** One step of the way up. */
  lemma Climb(r: Router, a: Action, state: HalState, run: seq<Action>) returns (next: Router)
    requires Inv(r) && run != [] && run[0] == a && state.Value() == r.hal.Value() + 1 && state.Value() < 6
    requires if state == Init then a.DoInitialize? && a.transportOk else a == DoUpdate(state) && r.stack
    ensures Inv(next) && next.hal == state && next.stack && next.stackLog == r.stackLog + [(state, r.hal)]
    ensures Run(r, run) == Run(next, run[1..])
  {
    hide LogsAgree;
    var from := r.(stack := true);
    UpdatesExactly(from, state);
    UpdateKeepsInv(from, state);
    UpdateTellsStack(from, state);
    next := Do(r, a).router;
  }
}
