/** The handshake between a client thread and the worker thread of a stream.

    Every locked section is one step; so are the beginning and the end of a cycle, the load of the
    request flag, and each notification.  There is one client thread.  A condition variable may also
    wake a waiting thread by itself; such a wake-up is a step of its own, so that a run can be
    required to be free of it. */
module StreamWorker {
  datatype WorkerState = INITIAL | STOPPED | RUNNING | PAUSE_REQUESTED | PAUSED | RESUME_REQUESTED

  datatype Status = ABORT | CONTINUE | EXIT

  /** Where the worker thread stands. */
  datatype Pc =
    | Unspawned
    | Boot                 // in workerThread, before the first locked section
    | BootNotify           // about to notify the thread that waits in start
    | Loop                 // at the head of the loop
    | InCycle
    | FlagLoad             // the cycle returned CONTINUE, or the worker yielded in the paused state
    | Update               // saw the flag set, about to take the lock
    | Failing(status: Status)
    | Reset                // needToNotify is set, about to clear the flag under the lock
    | Notify
    | Exited

  /** On whose behalf the client calls switchWorkerStateSync.  `from` is the place in the log where
      the surrounding waitForAtLeastOneCycle was called. */
  datatype Purpose = Plain | FirstOfWait(from: nat) | SecondOfWait(from: nat)

  /** Where the client thread stands.  In `Checking` and `StartChecking` it is awake, about to take the
      lock and evaluate the predicate of the wait. */
  datatype Client =
    | Unstarted
    | StartChecking
    | StartWaiting
    | Idle
    | InWait(from: nat)        // called waitForAtLeastOneCycle, first switch to come
    | SecondSwitch(from: nat)
    | Waiting(awaited: WorkerState, purpose: Purpose)
    | Checking(awaited: WorkerState, purpose: Purpose)
    | Joining

  datatype Event = CycleBegin | CycleEnd(status: Status) | WaitCall | WaitReturn(from: nat, result: bool)

  /** `shared` is mWorkerState, `flag` is mWorkerStateChangeRequest, `local` is the worker's own
      variable `state`. */
  datatype State = State(
    shared: WorkerState,
    flag: bool,
    hasError: bool,
    pc: Pc,
    local: WorkerState,
    client: Client,
    log: seq<Event>)

  const START := State(INITIAL, false, false, Unspawned, RUNNING, Unstarted, [])

  datatype Action =
    | WBoot(ok: bool) | WBootNotify | WLoop | WCycleEnd(status: Status) | WFlagLoad | WUpdate | WFail
    | WReset | WNotify
    | CStart | CStartCheck | CPause | CResume | CWait | CFirstSwitch | CSecondSwitch | CCheck
    | CStop | CJoined
    | SpuriousWakeup

  predicate IsWorkerAction(a: Action) {
    a.WBoot? || a.WBootNotify? || a.WLoop? || a.WCycleEnd? || a.WFlagLoad? || a.WUpdate? ||
    a.WFail? || a.WReset? || a.WNotify?
  }

  predicate Enabled(s: State, a: Action) {
    match a
    case WBoot(_) => s.pc.Boot?
    case WBootNotify => s.pc.BootNotify?
    case WLoop => s.pc.Loop?
    case WCycleEnd(_) => s.pc.InCycle?
    case WFlagLoad => s.pc.FlagLoad?
    case WUpdate => s.pc.Update?
    case WFail => s.pc.Failing?
    case WReset => s.pc.Reset?
    case WNotify => s.pc.Notify?
    case CStart => s.client.Unstarted?
    case CStartCheck => s.client.StartChecking?
    case CPause => s.client.Idle?
    case CResume => s.client.Idle?
    case CWait => s.client.Idle?
    case CFirstSwitch => s.client.InWait?
    case CSecondSwitch => s.client.SecondSwitch?
    case CCheck => s.client.Checking?
    case CStop => s.client.Idle?
    case CJoined => s.client.Joining? && s.pc.Exited?
    case SpuriousWakeup => s.client.Waiting? || s.client.StartWaiting?
  }

  /** notify_one: wakes the client if it is waiting. */
  function Woken(c: Client): Client {
    match c
    case Waiting(awaited, purpose) => Checking(awaited, purpose)
    case StartWaiting => StartChecking
    case _ => c
  }

  /** switchWorkerStateSync up to the wait: leaves at once if the state is not `oldState`. */
  function Switch(s: State, oldState: WorkerState, newState: WorkerState, purpose: Purpose): State {
    if s.shared != oldState then Returned(s, purpose)
    else s.(shared := newState, flag := true, client := Waiting(newState, purpose))
  }

  /** switchWorkerStateSync returns with the final state `s.shared`. */
  function Returned(s: State, purpose: Purpose): State {
    match purpose
    case Plain => s.(client := Idle)
    case FirstOfWait(from) =>
      if s.shared == PAUSED then s.(client := SecondSwitch(from))
      else s.(client := Idle, log := s.log + [WaitReturn(from, false)])
    case SecondOfWait(from) =>
      s.(client := Idle, log := s.log + [WaitReturn(from, s.shared == RUNNING)])
  }

  function Step(s: State, a: Action): State
    requires Enabled(s, a)
  {
    match a
    case WBoot(ok) =>
      var state := if ok then RUNNING else STOPPED;
      s.(shared := state, local := state, hasError := !ok, pc := BootNotify)
    case WBootNotify =>
      s.(client := Woken(s.client), pc := if s.local == STOPPED then Exited else Loop)
    case WLoop =>
      if s.local == STOPPED then s.(pc := Exited)
      else if s.local == PAUSED then s.(pc := FlagLoad)
      else s.(pc := InCycle, log := s.log + [CycleBegin])
    case WCycleEnd(status) =>
      s.(pc := if status == CONTINUE then FlagLoad else Failing(status), log := s.log + [CycleEnd(status)])
    case WFlagLoad => s.(pc := if s.flag then Update else Loop)
    case WUpdate =>
      if s.shared == PAUSE_REQUESTED then
        s.(shared := PAUSED, local := PAUSED, pc := Reset)
      else
        s.(shared := if s.shared == RESUME_REQUESTED then RUNNING else s.shared,
           local := s.shared,
           pc := if s.local == RESUME_REQUESTED then Reset else Loop)
    case WFail =>
      s.(shared := STOPPED, local := STOPPED, hasError := s.hasError || s.pc.status == ABORT,
         pc := if s.local == RESUME_REQUESTED || s.shared == PAUSE_REQUESTED then Reset else Loop)
    case WReset => s.(flag := false, pc := Notify)
    case WNotify => s.(client := Woken(s.client), pc := Loop)
    case CStart => s.(client := StartChecking, pc := Boot)
    case CStartCheck =>
      s.(client := if s.shared != INITIAL || s.hasError then Idle else StartWaiting)
    case CPause => Switch(s, RUNNING, PAUSE_REQUESTED, Plain)
    case CResume => Switch(s, PAUSED, RESUME_REQUESTED, Plain)
    case CWait => s.(client := InWait(|s.log|), log := s.log + [WaitCall])
    case CFirstSwitch => Switch(s, RUNNING, PAUSE_REQUESTED, FirstOfWait(s.client.from))
    case CSecondSwitch => Switch(s, PAUSED, RESUME_REQUESTED, SecondOfWait(s.client.from))
    case CCheck =>
      if s.shared == s.client.awaited then s.(client := Waiting(s.client.awaited, s.client.purpose))
      else Returned(s, s.client.purpose)
    case CStop =>
      if s.shared != STOPPED then s.(shared := STOPPED, flag := true, client := Joining)
      else s.(client := Joining)
    case CJoined => s.(client := Idle)
    case SpuriousWakeup => s.(client := Woken(s.client))
  }

  /** Every action of `run`, taken in order from `s`, is enabled. */
  predicate CanRun(s: State, run: seq<Action>)
    decreases |run|
  {
    run == [] || (Enabled(s, run[0]) && CanRun(Step(s, run[0]), run[1..]))
  }

  function After(s: State, run: seq<Action>): State
    requires CanRun(s, run)
    decreases |run|
  {
    if run == [] then s else After(Step(s, run[0]), run[1..])
  }

  lemma {:induction false} RunAppend(s: State, a: seq<Action>, b: seq<Action>)
    requires CanRun(s, a) && CanRun(After(s, a), b)
    ensures CanRun(s, a + b) && After(s, a + b) == After(After(s, a), b)
    decreases |a|
  {
    if a == [] {
      assert a + b == b;
    } else {
      RunAppend(Step(s, a[0]), a[1..], b);
      assert (a + b)[0] == a[0] && (a + b)[1..] == a[1..] + b;
    }
  }

  // ---------------------------------------------------------------------------------------------
  // No request is lost unless the client leaves its wait early
  // ---------------------------------------------------------------------------------------------

  /** The client is about to leave its wait although the worker has not cleared the flag yet, and no
      stop is under way.  This takes a wake-up other than the worker's answer to the request. */
  predicate EarlyReturn(s: State) {
    s.client.Checking? && s.shared != s.client.awaited && s.flag && s.shared != STOPPED
  }

  /** An early return that can cost the next request: the worker goes on to clear the flag. */
  predicate Harmful(s: State) {
    EarlyReturn(s) && !s.pc.Failing?
  }

  /** The client waits for an answer to its request, or is about to look for it. */
  predicate Requesting(c: Client) {
    c.Waiting? || c.Checking?
  }

  predicate InLoop(pc: Pc) {
    pc.BootNotify? || pc.Loop? || pc.InCycle? || pc.FlagLoad? || pc.Update? || pc.Failing? || pc.Notify?
  }

  /** What the two threads agree on. */
  ghost predicate Inv(s: State) {
    && (s.client.Unstarted? <==> s.pc.Unspawned?)
    && (s.pc.Unspawned? || s.pc.Boot? ==>
          s.shared == INITIAL && !s.flag && !s.hasError &&
          (s.client.Unstarted? || s.client.StartChecking? || s.client.StartWaiting?))
    && (s.client.StartWaiting? ==> s.pc.Boot? || s.pc.BootNotify?)
    && (!s.pc.Unspawned? && !s.pc.Boot? ==> InvStates(s) && InvRequest(s))
  }

  /** The worker's own state against the shared one. */
  ghost predicate InvStates(s: State) {
    && s.shared != INITIAL && s.local != INITIAL && s.local != PAUSE_REQUESTED
    && (s.shared == PAUSED || s.shared == RESUME_REQUESTED ==> s.local == PAUSED)
    && (s.shared == PAUSE_REQUESTED ==> s.local == RUNNING || s.pc.Failing?)
    && (s.shared == RUNNING ==> s.local == RUNNING || s.local == RESUME_REQUESTED)
    && (s.shared == STOPPED ==> s.local == STOPPED || (s.client.Joining? && s.flag))
    && (s.local == STOPPED ==> s.shared == STOPPED)
    && (s.local == STOPPED ==>
          s.pc.Loop? || s.pc.Reset? || s.pc.Notify? || s.pc.Exited? || s.pc.BootNotify?)
    && (s.local == RESUME_REQUESTED ==> s.flag)
    && (s.local == RESUME_REQUESTED ==>
          s.pc.Loop? || s.pc.InCycle? || s.pc.FlagLoad? || s.pc.Update? || s.pc.Failing?)
    && (s.local == PAUSED ==> !s.pc.InCycle? && !s.pc.Failing? && !s.pc.BootNotify?)
    && (s.pc.Exited? ==> s.local == STOPPED)
    && (s.pc.Reset? ==> s.flag)
    && (s.pc.Failing? ==> s.pc.status != CONTINUE)
  }

  /** An unanswered request is still flagged; the answer to an answered one is on its way. */
  ghost predicate InvRequest(s: State) {
    && (s.client.Joining? ==> s.shared == STOPPED)
    && (s.shared == PAUSE_REQUESTED || s.shared == RESUME_REQUESTED ==>
          Requesting(s.client) && s.client.awaited == s.shared && s.flag && InLoop(s.pc))
    && (Requesting(s.client) ==>
          (s.client.awaited == PAUSE_REQUESTED && s.shared in {PAUSE_REQUESTED, PAUSED, STOPPED}) ||
          (s.client.awaited == RESUME_REQUESTED && s.shared in {RESUME_REQUESTED, RUNNING, STOPPED}))
    && (Requesting(s.client) ==> match s.client.purpose
          case Plain => true
          case FirstOfWait(_) => s.client.awaited == PAUSE_REQUESTED
          case SecondOfWait(_) => s.client.awaited == RESUME_REQUESTED)
    && (Requesting(s.client) && s.shared != s.client.awaited && (s.client.Waiting? || s.flag) ==>
          s.pc.Reset? || s.pc.Notify? || s.local == RESUME_REQUESTED || s.local == STOPPED)
    && (s.pc.Notify? && Requesting(s.client) && s.shared != s.client.awaited ==> !s.flag)
    && (s.client.Waiting? && s.local == STOPPED ==> s.pc.Reset? || s.pc.Notify?)
    && (s.pc.Reset? && s.local != STOPPED ==> Requesting(s.client) && s.shared != s.client.awaited)
    && (s.local == RESUME_REQUESTED && !s.pc.Failing? ==>
          Requesting(s.client) && s.client.awaited == RESUME_REQUESTED && s.shared == RUNNING)
    && (s.local == RESUME_REQUESTED && s.client.Waiting? && s.client.awaited == PAUSE_REQUESTED ==>
          s.shared == PAUSE_REQUESTED)
  }

  lemma CycleStepKeepsInv(s: State, a: Action)
    requires Inv(s) && Enabled(s, a)
    requires a.WBoot? || a.WBootNotify? || a.WLoop? || a.WCycleEnd? || a.WFlagLoad?
    ensures Inv(Step(s, a))
  {
  }

  lemma AnswerStepKeepsInv(s: State, a: Action)
    requires Inv(s) && Enabled(s, a)
    requires a.WUpdate? || a.WFail? || a.WReset? || a.WNotify?
    ensures Inv(Step(s, a))
  {
  }

  lemma ClientStepKeepsInv(s: State, a: Action)
    requires Inv(s) && Enabled(s, a)
    requires a.CStart? || a.CStartCheck? || a.CWait? || a.CStop? || a.CJoined? || a.SpuriousWakeup?
    ensures Inv(Step(s, a))
  {
  }

  lemma SwitchStepKeepsInv(s: State, a: Action)
    requires Inv(s) && Enabled(s, a)
    requires a.CPause? || a.CResume? || a.CFirstSwitch? || a.CSecondSwitch?
    ensures Inv(Step(s, a))
  {
  }

  lemma CheckKeepsInv(s: State)
    requires Inv(s) && s.client.Checking? && !Harmful(s)
    ensures Inv(Step(s, CCheck))
  {
  }

  /** Every step keeps the invariant, spurious wake-ups included, except a harmful early return. */
  lemma StepKeepsInv(s: State, a: Action)
    requires Inv(s) && Enabled(s, a)
    requires a == CCheck ==> !Harmful(s)
    ensures Inv(Step(s, a))
  {
    hide Inv, Harmful, Step;
    if a.CCheck? {
      CheckKeepsInv(s);
    } else if a.WBoot? || a.WBootNotify? || a.WLoop? || a.WCycleEnd? || a.WFlagLoad? {
      CycleStepKeepsInv(s, a);
    } else if IsWorkerAction(a) {
      AnswerStepKeepsInv(s, a);
    } else if a.CPause? || a.CResume? || a.CFirstSwitch? || a.CSecondSwitch? {
      SwitchStepKeepsInv(s, a);
    } else {
      ClientStepKeepsInv(s, a);
    }
  }

  /** A run in which the client never leaves a wait early to harm. */
  predicate NoHarm(s: State, run: seq<Action>)
    requires CanRun(s, run)
    decreases |run|
  {
    run == [] || ((run[0] == CCheck ==> !Harmful(s)) && NoHarm(Step(s, run[0]), run[1..]))
  }

  lemma {:induction false} RunKeepsInv(s: State, run: seq<Action>)
    requires Inv(s) && CanRun(s, run) && NoHarm(s, run)
    ensures Inv(After(s, run))
    decreases |run|
  {
    hide Inv, Harmful, Step, Enabled;
    if run != [] {
      StepKeepsInv(s, run[0]);
      RunKeepsInv(Step(s, run[0]), run[1..]);
    }
  }

  /** The client is blocked on the worker: it waits, or will wait again as soon as it looks. */
  predicate Blocked(s: State) {
    match s.client
    case StartChecking => s.shared == INITIAL && !s.hasError
    case StartWaiting => true
    case Waiting(_, _) => true
    case Checking(awaited, _) => s.shared == awaited
    case Joining => !s.pc.Exited?
    case _ => false
  }

  /** A request that nobody will answer: the worker sees no flag and goes on as before. */
  predicate Lost(s: State) {
    && s.client.Waiting? && s.shared == s.client.awaited && !s.flag
    && (s.client.awaited == PAUSE_REQUESTED ==> s.local == RUNNING)
    && (s.client.awaited == RESUME_REQUESTED ==> s.local == PAUSED)
    && (s.pc.Loop? || s.pc.FlagLoad? || (s.pc.InCycle? && s.local == RUNNING))
    && (s.client.awaited == PAUSE_REQUESTED || s.client.awaited == RESUME_REQUESTED)
  }

  /** No pause, resume, stop or start request is ever lost: while the client is blocked, its request
      is flagged, or the worker has written the answer and is about to notify, or has left the loop
      for good, or has not reported its start yet. */
  lemma NoRequestLost(run: seq<Action>)
    requires CanRun(START, run) && NoHarm(START, run)
    ensures
      var s := After(START, run);
      && !Lost(s)
      && (Requesting(s.client) && s.shared == s.client.awaited ==> s.flag)
      && (s.client.Waiting? && s.shared != s.client.awaited ==> s.flag || s.pc.Notify?)
      && (s.client.Joining? ==> s.flag || s.local == STOPPED)
      && (s.client.StartWaiting? ==> s.pc.Boot? || s.pc.BootNotify?)
  {
    RunKeepsInv(START, run);
  }

  /** A bound on the number of worker steps that a blocked client still has to wait for. */
  function Rank(s: State): (n: nat)
    ensures n <= 18
  {
    var base := match s.pc
      case Unspawned => 0
      case Boot => 10
      case BootNotify => 9
      case Loop => if s.local == STOPPED then 1 else 7
      case InCycle => 6
      case FlagLoad => 5
      case Update => 4
      case Failing(_) => 4
      case Reset => 3
      case Notify =>
        if s.local == STOPPED || (s.client.Waiting? && s.shared != s.client.awaited) then 2 else 8
      case Exited => 0;
    if s.shared == RESUME_REQUESTED then base + 8 else base
  }

  /** While the client is blocked the worker can step, and each of its steps either releases the
      client or brings the release nearer. */
  lemma WorkerProgress(s: State, a: Action)
    requires Inv(s) && Blocked(s)
    ensures !s.pc.Unspawned? && !s.pc.Exited?
    ensures Enabled(s, a) && IsWorkerAction(a) ==>
      !Blocked(Step(s, a)) || Rank(Step(s, a)) < Rank(s)
  {
  }

  /** Nothing else that can happen meanwhile puts the release off. */
  lemma ClientStepKeepsRank(s: State, a: Action)
    requires Inv(s) && Blocked(s) && Enabled(s, a) && !IsWorkerAction(a)
    ensures !Blocked(Step(s, a)) || Rank(Step(s, a)) <= Rank(s)
  {
  }

  predicate StaysBlocked(s: State, run: seq<Action>)
    requires CanRun(s, run)
    decreases |run|
  {
    Blocked(s) && (run == [] || StaysBlocked(Step(s, run[0]), run[1..]))
  }

  function WorkerSteps(run: seq<Action>): nat {
    if run == [] then 0
    else (if IsWorkerAction(run[0]) then 1 else 0) + WorkerSteps(run[1..])
  }

  /** In any run, spurious wake-ups or not, the worker answers a blocked client within a bounded
      number of its own steps. */
  lemma {:induction false} BoundedRelease(s: State, run: seq<Action>)
    requires Inv(s) && CanRun(s, run) && StaysBlocked(s, run)
    ensures WorkerSteps(run) + Rank(After(s, run)) <= Rank(s) <= 18
    decreases |run|
  {
    hide Inv, Step, Rank, Enabled;
    if run != [] {
      if IsWorkerAction(run[0]) {
        WorkerProgress(s, run[0]);
      } else {
        ClientStepKeepsRank(s, run[0]);
      }
      BlockedIsHarmless(s);
      StepKeepsInv(s, run[0]);
      BoundedRelease(Step(s, run[0]), run[1..]);
    }
  }

  lemma BlockedIsHarmless(s: State)
    ensures Blocked(s) ==> !Harmful(s)
  {
  }

  // ---------------------------------------------------------------------------------------------
  // When a wait can end early, and what that costs
  // ---------------------------------------------------------------------------------------------

  /** No spurious wake-up, and no failing cycle. */
  predicate Quiet(a: Action) {
    a != SpuriousWakeup && (a.WCycleEnd? ==> a.status == CONTINUE)
  }

  predicate QuietRun(run: seq<Action>) {
    forall i :: 0 <= i < |run| ==> Quiet(run[i])
  }

  lemma LostStaysLost(s: State, a: Action)
    requires Lost(s) && Enabled(s, a) && Quiet(a)
    ensures Lost(Step(s, a))
  {
  }

  /** A lost request stays lost as long as nothing but regular steps happen. */
  lemma {:induction false} LostForever(s: State, run: seq<Action>)
    requires Lost(s) && CanRun(s, run) && QuietRun(run)
    ensures Lost(After(s, run))
    decreases |run|
  {
    hide Lost, Step, Enabled;
    if run != [] {
      LostStaysLost(s, run[0]);
      LostForever(Step(s, run[0]), run[1..]);
    }
  }

  lemma Prepend(s: State, a: Action, run: seq<Action>)
    requires Enabled(s, a) && CanRun(Step(s, a), run)
    ensures CanRun(s, [a] + run) && After(s, [a] + run) == After(Step(s, a), run)
    ensures Quiet(a) && QuietRun(run) ==> QuietRun([a] + run)
  {
    assert ([a] + run)[1..] == run;
  }

  lemma EmptyRun(s: State)
    ensures CanRun(s, []) && After(s, []) == s && QuietRun([])
  {
  }

  /** The worker's next regular step while it serves a resume request. */
  function NextServing(pc: Pc): Action {
    match pc
    case Loop => WLoop
    case InCycle => WCycleEnd(CONTINUE)
    case FlagLoad => WFlagLoad
    case _ => WUpdate
  }

  lemma ServingStep(s: State)
    requires Inv(s) && Harmful(s) && !s.pc.Reset?
    ensures
      var a := NextServing(s.pc);
      && Enabled(s, a) && Quiet(a)
      && Inv(Step(s, a)) && Harmful(Step(s, a)) && Rank(Step(s, a)) < Rank(s)
  {
    StepKeepsInv(s, NextServing(s.pc));
  }

  /** After a harmful early return nothing but regular steps are needed to lose the next request. */
  lemma {:induction false} EarlyReturnCanLose(s: State) returns (run: seq<Action>)
    requires Inv(s) && Harmful(s)
    ensures CanRun(s, run) && QuietRun(run) && Lost(After(s, run))
    decreases Rank(s)
  {
    if s.pc.Reset? {
      run := LoseAtReset(s);
    } else {
      ServingStep(s);
      var a := NextServing(s.pc);
      hide *;
      var rest := EarlyReturnCanLose(Step(s, a));
      Prepend(s, a, rest);
      run := [a] + rest;
    }
  }

  /** The client leaves its wait and asks for the opposite change; the worker then clears the flag. */
  lemma LoseAtReset(s: State) returns (run: seq<Action>)
    requires Inv(s) && Harmful(s) && s.pc.Reset?
    ensures CanRun(s, run) && QuietRun(run) && Lost(After(s, run))
  {
    var s1 := Step(s, CCheck);
    var request := if s1.client.SecondSwitch? then CSecondSwitch else if s.shared == PAUSED then CResume else CPause;
    var s2 := Step(s1, request);
    var s3 := Step(s2, WReset);
    var s4 := Step(s3, WNotify);
    var s5 := Step(s4, CCheck);
    assert Lost(s5);
    EmptyRun(s5);
    assert Enabled(s4, CCheck) && Enabled(s3, WNotify) && Enabled(s2, WReset) && Enabled(s1, request);
    assert Quiet(request);
    hide CanRun, After, QuietRun, Inv, Lost;
    run := [];
    Prepend(s4, CCheck, run);
    run := [CCheck] + run;
    Prepend(s3, WNotify, run);
    run := [WNotify] + run;
    Prepend(s2, WReset, run);
    run := [WReset] + run;
    Prepend(s1, request, run);
    run := [request] + run;
    Prepend(s, CCheck, run);
    run := [CCheck] + run;
  }

  /** A run without spurious wake-ups in which the notification of the start does not reach a client
      that has gone on to wait for something else. */
  predicate Clean(s: State, run: seq<Action>)
    requires CanRun(s, run)
    decreases |run|
  {
    run == [] ||
    (run[0] != SpuriousWakeup && (run[0] == WBootNotify ==> !s.client.Waiting?) &&
     Clean(Step(s, run[0]), run[1..]))
  }

  /** In a clean run only the worker's answer makes the client look. */
  ghost predicate CleanInv(s: State) {
    && Inv(s)
    && (s.client.Checking? ==> s.shared != s.client.awaited && !s.flag)
    && (s.pc.Reset? || s.pc.Notify? ==> s.client.Waiting? && s.shared != s.client.awaited)
    && (s.local == RESUME_REQUESTED ==> s.client.Waiting? && s.client.awaited == RESUME_REQUESTED)
  }

  lemma CleanStep(s: State, a: Action)
    requires CleanInv(s) && Enabled(s, a)
    requires a != SpuriousWakeup && (a == WBootNotify ==> !s.client.Waiting?)
    ensures !EarlyReturn(s) && CleanInv(Step(s, a))
  {
    StepKeepsInv(s, a);
  }

  /** Clean runs never leave a wait early, so their requests are never lost. */
  lemma {:induction false} CleanRunIsHarmless(s: State, run: seq<Action>)
    requires CleanInv(s) && CanRun(s, run) && Clean(s, run)
    ensures NoHarm(s, run) && NoEarlyReturn(s, run) && CleanInv(After(s, run))
    decreases |run|
  {
    hide CleanInv, Step, Enabled, EarlyReturn;
    if run != [] {
      CleanStep(s, run[0]);
      CleanRunIsHarmless(Step(s, run[0]), run[1..]);
    } else {
      assert CleanInv(After(s, run));
    }
  }

  predicate NoEarlyReturn(s: State, run: seq<Action>)
    requires CanRun(s, run)
    decreases |run|
  {
    run == [] ||
    ((run[0] == CCheck ==> !EarlyReturn(s)) && NoEarlyReturn(Step(s, run[0]), run[1..]))
  }

  /** Without any spurious wake-up a resume request can still be lost: the worker's notification of
      its start, sent outside the lock, wakes a client that already waits for a pause, and the
      client gets the lock only after the worker has written PAUSED. */
  lemma StaleStartNotificationLosesResume() returns (run: seq<Action>)
    ensures CanRun(START, run) && QuietRun(run) && Lost(After(START, run))
  {
    var start, s := StaleStart();
    var rest := StaleWakeup(s);
    RunAppend(START, start, rest);
    run := start + rest;
  }

  lemma StaleStart() returns (run: seq<Action>, s: State)
    ensures s == State(PAUSE_REQUESTED, true, false, Loop, RUNNING, Checking(PAUSE_REQUESTED, Plain), [])
    ensures CanRun(START, run) && QuietRun(run) && After(START, run) == s
  {
    var s1 := Step(START, CStart);
    var s2 := Step(s1, WBoot(true));
    var s3 := Step(s2, CStartCheck);
    var s4 := Step(s3, CPause);
    s := Step(s4, WBootNotify);
    run := [];
    EmptyRun(s);
    hide CanRun, After, QuietRun;
    Prepend(s4, WBootNotify, run);
    run := [WBootNotify] + run;
    Prepend(s3, CPause, run);
    run := [CPause] + run;
    Prepend(s2, CStartCheck, run);
    run := [CStartCheck] + run;
    Prepend(s1, WBoot(true), run);
    run := [WBoot(true)] + run;
    Prepend(START, CStart, run);
    run := [CStart] + run;
  }

  lemma StaleWakeup(s: State) returns (run: seq<Action>)
    requires s == State(PAUSE_REQUESTED, true, false, Loop, RUNNING, Checking(PAUSE_REQUESTED, Plain), [])
    ensures CanRun(s, run) && QuietRun(run) && Lost(After(s, run))
  {
    var s1 := Step(s, WLoop);
    var s2 := Step(s1, WCycleEnd(CONTINUE));
    var s3 := Step(s2, WFlagLoad);
    var s4 := Step(s3, WUpdate);
    run := LoseAtReset(s4);
    hide CanRun, After, QuietRun;
    Prepend(s3, WUpdate, run);
    run := [WUpdate] + run;
    Prepend(s2, WFlagLoad, run);
    run := [WFlagLoad] + run;
    Prepend(s1, WCycleEnd(CONTINUE), run);
    run := [WCycleEnd(CONTINUE)] + run;
    Prepend(s, WLoop, run);
    run := [WLoop] + run;
  }

  // ---------------------------------------------------------------------------------------------
  // waitForAtLeastOneCycle
  // ---------------------------------------------------------------------------------------------

  predicate IsCycleEvent(e: Event) {
    e.CycleBegin? || e.CycleEnd?
  }

  /** One whole cycle began after place `from` and ended with CONTINUE before place `upTo`. */
  ghost predicate WholeCycle(log: seq<Event>, from: nat, upTo: nat)
    requires upTo <= |log|
  {
    exists b, e ::
      && from < b < e < upTo && log[b] == CycleBegin && log[e] == CycleEnd(CONTINUE)
      && forall k :: b < k < e ==> !IsCycleEvent(log[k])
  }

  /** A cycle that began after place `from` is still going on. */
  ghost predicate OpenCycle(log: seq<Event>, from: nat) {
    exists b ::
      && from < b < |log| && log[b] == CycleBegin
      && forall k :: b < k < |log| ==> !IsCycleEvent(log[k])
  }

  /** Every successful waitForAtLeastOneCycle in the log saw a whole cycle. */
  ghost predicate WaitsSawCycle(log: seq<Event>) {
    forall r :: 0 <= r < |log| && log[r].WaitReturn? && log[r].result ==>
      log[r].from < r && log[log[r].from] == WaitCall && WholeCycle(log, log[r].from, r)
  }

  /** The call of waitForAtLeastOneCycle that the client is in, if any. */
  function CallOf(c: Client): (from: int)
  {
    match c
    case InWait(from) => from
    case SecondSwitch(from) => from
    case Waiting(_, purpose) => if purpose.Plain? then -1 else purpose.from
    case Checking(_, purpose) => if purpose.Plain? then -1 else purpose.from
    case _ => -1
  }

  ghost predicate CycleInv(s: State) {
    && WaitsSawCycle(s.log)
    && (var from := CallOf(s.client); 0 <= from ==> from < |s.log| && s.log[from] == WaitCall)
    && (s.client.SecondSwitch? ==> s.shared == PAUSED)
    && (Requesting(s.client) && s.client.purpose.SecondOfWait? ==>
          SecondWaitInv(s, s.client.purpose.from))
  }

  /** What the second half of waitForAtLeastOneCycle waits for: the first cycle after the resume. */
  ghost predicate SecondWaitInv(s: State, from: nat) {
    && (s.local == RESUME_REQUESTED && s.pc.InCycle? ==> OpenCycle(s.log, from))
    && (s.local == RESUME_REQUESTED && (s.pc.FlagLoad? || s.pc.Update?) ==> WholeCycle(s.log, from, |s.log|))
    && (s.local != RESUME_REQUESTED && s.shared == RUNNING ==> WholeCycle(s.log, from, |s.log|))
  }

  lemma AppendKeepsLog(log: seq<Event>, e: Event)
    requires WaitsSawCycle(log)
    requires e.WaitReturn? && e.result ==>
      e.from < |log| && log[e.from] == WaitCall && WholeCycle(log, e.from, |log|)
    ensures WaitsSawCycle(log + [e])
  {
    var longer := log + [e];
    forall r | 0 <= r < |longer| && longer[r].WaitReturn? && longer[r].result
      ensures longer[r].from < r && longer[longer[r].from] == WaitCall
      ensures WholeCycle(longer, longer[r].from, r)
    {
      assert r < |log| ==> longer[r] == log[r];
      AppendKeepsCycle(log, e, longer[r].from, r);
    }
  }

  lemma AppendKeepsCycle(log: seq<Event>, e: Event, from: nat, upTo: nat)
    requires upTo <= |log| && WholeCycle(log, from, upTo)
    ensures WholeCycle(log + [e], from, upTo) && WholeCycle(log + [e], from, |log + [e]|)
  {
    var b, e' :| from < b < e' < upTo && log[b] == CycleBegin && log[e'] == CycleEnd(CONTINUE)
      && forall k :: b < k < e' ==> !IsCycleEvent(log[k]);
    var longer := log + [e];
    assert longer[b] == CycleBegin && longer[e'] == CycleEnd(CONTINUE);
    assert forall k :: b < k < e' ==> longer[k] == log[k];
  }

  lemma CloseCycle(log: seq<Event>, from: nat)
    requires OpenCycle(log, from)
    ensures WholeCycle(log + [CycleEnd(CONTINUE)], from, |log| + 1)
  {
    var b :| from < b < |log| && log[b] == CycleBegin && forall k :: b < k < |log| ==> !IsCycleEvent(log[k]);
    var longer := log + [CycleEnd(CONTINUE)];
    assert longer[b] == CycleBegin && longer[|log|] == CycleEnd(CONTINUE);
    assert forall k :: b < k < |log| ==> longer[k] == log[k];
  }

  lemma BeginCycle(log: seq<Event>, from: nat)
    requires from < |log|
    ensures OpenCycle(log + [CycleBegin], from)
  {
    assert (log + [CycleBegin])[|log|] == CycleBegin;
  }

  lemma WorkerKeepsCycleInv(s: State, a: Action)
    requires Inv(s) && CycleInv(s) && Enabled(s, a) && IsWorkerAction(a)
    ensures CycleInv(Step(s, a))
  {
    hide WaitsSawCycle, WholeCycle, OpenCycle;
    if a.WLoop? {
      AppendKeepsLog(s.log, CycleBegin);
      if Requesting(s.client) && s.client.purpose.SecondOfWait? {
        BeginCycle(s.log, s.client.purpose.from);
      }
    } else if a.WCycleEnd? {
      AppendKeepsLog(s.log, CycleEnd(a.status));
      if Requesting(s.client) && s.client.purpose.SecondOfWait? && s.local == RESUME_REQUESTED && a.status == CONTINUE {
        CloseCycle(s.log, s.client.purpose.from);
      }
    }
    AppendKeepsWhole(s);
  }

  /** A whole cycle already seen stays seen. */
  lemma AppendKeepsWhole(s: State)
    ensures forall e, from: nat {:trigger WholeCycle(s.log + [e], from, |s.log + [e]|)} ::
      WholeCycle(s.log, from, |s.log|) ==> WholeCycle(s.log + [e], from, |s.log + [e]|)
  {
    forall e, from: nat | WholeCycle(s.log, from, |s.log|)
      ensures WholeCycle(s.log + [e], from, |s.log + [e]|)
    {
      AppendKeepsCycle(s.log, e, from, |s.log|);
    }
  }

  lemma ClientKeepsCycleInv(s: State, a: Action)
    requires Inv(s) && CycleInv(s) && Enabled(s, a) && !IsWorkerAction(a)
    requires a == CCheck ==> !EarlyReturn(s)
    ensures CycleInv(Step(s, a))
  {
    hide WaitsSawCycle, WholeCycle, OpenCycle;
    if a.CWait? {
      AppendKeepsLog(s.log, WaitCall);
    } else if a.CFirstSwitch? {
      AppendKeepsLog(s.log, WaitReturn(s.client.from, false));
    } else if a.CCheck? && s.shared != s.client.awaited && !s.client.purpose.Plain? {
      AppendKeepsLog(s.log, WaitReturn(s.client.purpose.from, s.client.purpose.SecondOfWait? && s.shared == RUNNING));
    }
  }

  /** Whenever waitForAtLeastOneCycle returned true, one whole cycle began and ended with CONTINUE
      between the call and the return, provided the client never left a wait early. */
  lemma {:induction false} WaitForAtLeastOneCycle(s: State, run: seq<Action>)
    requires Inv(s) && CycleInv(s) && CanRun(s, run) && NoEarlyReturn(s, run)
    ensures Inv(After(s, run)) && CycleInv(After(s, run)) && WaitsSawCycle(After(s, run).log)
    decreases |run|
  {
    if run != [] {
      StepKeepsInv(s, run[0]);
      if IsWorkerAction(run[0]) {
        WorkerKeepsCycleInv(s, run[0]);
      } else {
        ClientKeepsCycleInv(s, run[0]);
      }
      hide Inv, CycleInv, Step, Enabled, EarlyReturn, WaitsSawCycle;
      WaitForAtLeastOneCycle(Step(s, run[0]), run[1..]);
    }
  }

  /** The guarantee does rest on that: a client that leaves the second wait early, before a whole
      cycle is over, reports a cycle that it has not seen. */
  lemma EarlyReturnSkipsCycle(s: State)
    requires EarlyReturn(s) && s.shared == RUNNING && s.client.purpose.SecondOfWait?
    requires !WholeCycle(s.log, s.client.purpose.from, |s.log|)
    ensures !WaitsSawCycle(Step(s, CCheck).log)
  {
    var from, r := s.client.purpose.from, |s.log|;
    var longer := Step(s, CCheck).log;
    assert longer == s.log + [WaitReturn(from, true)];
    assert longer[r] == WaitReturn(from, true);
    if WholeCycle(longer, from, r) {
      DropKeepsCycle(s.log, WaitReturn(from, true), from);
    }
  }

  lemma DropKeepsCycle(log: seq<Event>, e: Event, from: nat)
    requires WholeCycle(log + [e], from, |log|)
    ensures WholeCycle(log, from, |log|)
  {
    var longer := log + [e];
    var b, e' :| from < b < e' < |log| && longer[b] == CycleBegin && longer[e'] == CycleEnd(CONTINUE)
      && forall k :: b < k < e' ==> !IsCycleEvent(longer[k]);
    assert log[b] == CycleBegin && log[e'] == CycleEnd(CONTINUE);
    assert forall k :: b < k < e' ==> log[k] == longer[k];
  }

  /** The two guarantees for a clean run from the start. */
  lemma CleanRunGuarantees(run: seq<Action>)
    requires CanRun(START, run) && Clean(START, run)
    ensures !Lost(After(START, run)) && WaitsSawCycle(After(START, run).log)
  {
    CleanRunIsHarmless(START, run);
    NoRequestLost(run);
    WaitForAtLeastOneCycle(START, run);
  }

  // ---------------------------------------------------------------------------------------------
  // A worker whose initialisation fails
  // ---------------------------------------------------------------------------------------------

  ghost predicate NoCycle(log: seq<Event>) {
    forall i :: 0 <= i < |log| ==> log[i] != CycleBegin
  }

  predicate NotBooted(s: State) {
    (s.pc.Unspawned? && s.client.Unstarted?) || (s.pc.Boot? && !s.client.Unstarted?)
  }

  predicate Booted(s: State) {
    !s.pc.Unspawned? && !s.pc.Boot? && !s.client.Unstarted?
  }

  /** The worker has given up: it is stopped with an error, and leaves without entering the loop. */
  ghost predicate GivenUp(s: State) {
    && s.hasError && s.shared == STOPPED && s.local == STOPPED && (s.pc.BootNotify? || s.pc.Exited?)
    && !s.client.Unstarted? && NoCycle(s.log)
  }

  lemma GivenUpStays(s: State, a: Action)
    requires GivenUp(s) && Enabled(s, a)
    ensures GivenUp(Step(s, a))
  {
  }

  lemma BootStep(s: State, a: Action)
    requires NotBooted(s) && NoCycle(s.log) && Enabled(s, a)
    ensures a == WBoot(false) ==> GivenUp(Step(s, a))
    ensures a == WBoot(true) ==> Booted(Step(s, a)) && !Step(s, a).hasError && Step(s, a).shared == RUNNING
    ensures !a.WBoot? ==> NotBooted(Step(s, a)) && NoCycle(Step(s, a).log)
  {
  }

  lemma {:induction false} BootsOnce(s: State, run: seq<Action>)
    requires Booted(s) && CanRun(s, run)
    ensures forall i :: 0 <= i < |run| ==> !run[i].WBoot?
    decreases |run|
  {
    if run != [] {
      BootsOnce(Step(s, run[0]), run[1..]);
      forall i | 0 <= i < |run| ensures !run[i].WBoot? {
        if i > 0 { assert run[i] == run[1..][i - 1]; }
      }
    }
  }

  lemma {:induction false} GivenUpForGood(s: State, run: seq<Action>)
    requires GivenUp(s) && CanRun(s, run)
    ensures GivenUp(After(s, run))
    decreases |run|
  {
    hide GivenUp, Step, Enabled;
    if run != [] {
      GivenUpStays(s, run[0]);
      GivenUpForGood(Step(s, run[0]), run[1..]);
    }
  }

  /** In every run in which the initialisation fails, the worker is left stopped, with its error set, and
      never begins a cycle. */
  lemma {:induction false} FailedInitNeverCycles(s: State, run: seq<Action>)
    requires NotBooted(s) && NoCycle(s.log) && CanRun(s, run) && WBoot(false) in run
    ensures GivenUp(After(s, run))
    decreases |run|
  {
    BootStep(s, run[0]);
    var next := Step(s, run[0]);
    if run[0] == WBoot(false) {
      GivenUpForGood(next, run[1..]);
    } else {
      assert WBoot(false) in run[1..];
      if run[0] == WBoot(true) {
        BootsOnce(next, run[1..]);
      } else {
        FailedInitNeverCycles(next, run[1..]);
      }
    }
  }

  /** So once it is over, the client that started it is told so: start does not wait for ever. */
  lemma FailedInitReleasesStart(run: seq<Action>)
    requires CanRun(START, run) && WBoot(false) in run
    ensures
      var s := After(START, run);
      && GivenUp(s)
      && (s.client.StartChecking? ==> Step(s, CStartCheck).client == Idle)
      && (s.pc.Exited? && NoHarm(START, run) ==> !s.client.StartWaiting?)
  {
    FailedInitNeverCycles(START, run);
    if NoHarm(START, run) { RunKeepsInv(START, run); }
  }

  // ---------------------------------------------------------------------------------------------
  // Errors, failed waits and stops
  // ---------------------------------------------------------------------------------------------

  /** A cycle aborted and the worker has dealt with it. */
  ghost predicate Aborted(s: State) {
    CycleEnd(ABORT) in s.log && s.pc != Failing(ABORT)
  }

  /** The error is set exactly when the initialisation failed or a cycle aborted; the worker is done then. */
  ghost predicate ErrorTold(s: State, bootFailed: bool) {
    && (s.hasError <==> bootFailed || Aborted(s))
    && (s.hasError ==> s.local == STOPPED && !s.pc.InCycle? && !s.pc.FlagLoad? && !s.pc.Update? && !s.pc.Failing?)
    && (s.pc.Unspawned? || s.pc.Boot? ==> !s.hasError && CycleEnd(ABORT) !in s.log)
    && (s.pc.Unspawned? <==> s.client.Unstarted?)
    && (CycleEnd(ABORT) in s.log ==> s.hasError || s.pc == Failing(ABORT))
    && (s.pc == Failing(ABORT) ==> CycleEnd(ABORT) in s.log)
  }

  lemma StepTellsError(s: State, a: Action, bootFailed: bool)
    requires ErrorTold(s, bootFailed) && Enabled(s, a) && Inv(s) && (a.WBoot? ==> !bootFailed)
    ensures ErrorTold(Step(s, a), bootFailed || a == WBoot(false))
  {
    var t := Step(s, a);
    if t.log != s.log {
      assert t.log == s.log + [t.log[|s.log|]];
    }
    hide InvRequest;
  }

  /** Over every run in which no wait is left early: the worker reports an error exactly when its initialisation
      failed, or a cycle returned ABORT and the worker has taken note of it. */
  lemma ErrorMeansFailure(run: seq<Action>)
    requires CanRun(START, run) && NoHarm(START, run)
    ensures After(START, run).hasError <==> WBoot(false) in run || Aborted(After(START, run))
  {
    ErrorOverRun(START, run, false);
  }

  lemma {:induction false} ErrorOverRun(s: State, run: seq<Action>, bootFailed: bool)
    requires ErrorTold(s, bootFailed) && Inv(s) && CanRun(s, run) && NoHarm(s, run) && (NotBooted(s) ==> !bootFailed)
    ensures ErrorTold(After(s, run), bootFailed || WBoot(false) in run)
    decreases |run|
  {
    if run != [] {
      StepKeepsInv(s, run[0]);
      StepTellsError(s, run[0], bootFailed);
      var failed := bootFailed || run[0] == WBoot(false);
      assert NotBooted(Step(s, run[0])) ==> !failed;
      ErrorOverRun(Step(s, run[0]), run[1..], failed);
      assert run == [run[0]] + run[1..];
    }
  }

  /** In a clean run waitForAtLeastOneCycle returns false only when the worker is stopped. */
  lemma WaitFailsOnlyWhenStopped(run: seq<Action>, a: Action)
    requires CanRun(START, run) && Clean(START, run) && Enabled(After(START, run), a)
    requires a != SpuriousWakeup && (a == WBootNotify ==> !After(START, run).client.Waiting?)
    ensures
      var s := After(START, run);
      forall from :: WaitReturn(from, false) in Step(s, a).log && WaitReturn(from, false) !in s.log ==> s.shared == STOPPED
  {
    CleanRunIsHarmless(START, run);
    FalseReturn(After(START, run), a);
  }

  lemma FalseReturn(s: State, a: Action)
    requires CleanInv(s) && Enabled(s, a)
    ensures forall from :: WaitReturn(from, false) in Step(s, a).log && WaitReturn(from, false) !in s.log ==> s.shared == STOPPED
  {
  }

  lemma JoiningStep(s: State, a: Action)
    requires Enabled(s, a) && !s.client.Unstarted? && (s.client.Joining? || s.pc.Exited?)
    ensures !Step(s, a).client.Unstarted? && (Step(s, a).client.Joining? || Step(s, a).pc.Exited?)
  {
  }

  lemma {:induction false} StaysJoining(s: State, run: seq<Action>)
    requires CanRun(s, run) && !s.client.Unstarted? && (s.client.Joining? || s.pc.Exited?)
    ensures After(s, run).client.Joining? || After(s, run).pc.Exited?
    decreases |run|
  {
    if run != [] {
      JoiningStep(s, run[0]);
      StaysJoining(Step(s, run[0]), run[1..]);
    }
  }

  /** stop leaves the worker's state stopped and does not return before the worker has left its loop. */
  lemma StopWaitsForExit(s: State, run: seq<Action>)
    requires Enabled(s, CStop) && CanRun(Step(s, CStop), run)
    ensures Step(s, CStop).shared == STOPPED
    ensures
      var t := After(Step(s, CStop), run);
      !t.client.Joining? ==> t.pc.Exited?
  {
    StaysJoining(Step(s, CStop), run);
  }
}
