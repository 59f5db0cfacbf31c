/** The router and the client agent as objects, proved against HalStates. */
module HciRouters {
  import opened HalStates

  /** What a client wants done with a packet it has seen. */
  datatype MonitorMode = NoMonitor | Monitor | Intercept {
    function Value(): nat {
      match this
      case NoMonitor => 0
      case Monitor => 1
      case Intercept => 2
    }
  }

  class HciRouterClientAgent {
    var currentState: HalState
    var isBluetoothChipReady: bool
    var isBluetoothEnabled: bool
    var routerClients: set<nat>
    /** What each client was told since it registered. */
    var logs: map<nat, seq<Note>>

    constructor ()
      ensures Valid() && View() == START.agent
    {
      currentState, isBluetoothChipReady, isBluetoothEnabled := Shutdown, false, false;
      routerClients, logs := {}, map[];
    }

    ghost predicate Valid()
      reads this
    {
      routerClients == logs.Keys
    }

    ghost function View(): Agent
      reads this
    {
      Agent(currentState, isBluetoothChipReady, isBluetoothEnabled, logs)
    }

    method RegisterClient(client: nat) returns (result: bool)
      requires Valid()
      modifies this
      ensures Valid() && (View(), result) == Register(old(View()), client)
    {
      if client in routerClients {
        return false;
      }
      routerClients := routerClients + {client};
      logs := logs[client := []];
      if isBluetoothChipReady {
        logs := logs[client := logs[client] + [ChipReady]];
      }
      if isBluetoothEnabled {
        logs := logs[client := logs[client] + [Enabled]];
      }
      assert logs[client] == (if isBluetoothChipReady then [ChipReady] else []) +
                             (if isBluetoothEnabled then [Enabled] else []);
      assert logs == old(logs)[client := logs[client]];
      result := true;
    }

    method UnregisterClient(client: nat) returns (result: bool)
      requires Valid()
      modifies this
      ensures Valid() && (View(), result) == Unregister(old(View()), client)
    {
      if client !in routerClients {
        return false;
      }
      routerClients := routerClients - {client};
      logs := logs - {client};
      result := true;
    }

    /** Tells every client, in whatever order the set is walked. */
    method ForEachClient(note: Note)
      requires Valid()
      modifies this`logs
      ensures Valid() && logs == Told(old(logs), note)
    {
      var todo := routerClients;
      while todo != {}
        invariant Valid() && todo <= routerClients && logs.Keys == old(logs).Keys
        invariant forall c :: c in logs ==>
          logs[c] == if c in todo then old(logs)[c] else old(logs)[c] + [note]
        decreases |todo|
      {
        var client :| client in todo;
        logs := logs[client := logs[client] + [note]];
        todo := todo - {client};
      }
    }

    /** The result is the strongest of the clients' answers; `answers` holds those of the registered ones. */
    method DispatchPacketToClients(isReset: bool, answers: map<nat, MonitorMode>) returns (result: MonitorMode)
      requires Valid() && answers.Keys == routerClients
      modifies this
      ensures Valid() && View() == Dispatch(old(View()), isReset)
      ensures forall client | client in answers :: answers[client].Value() <= result.Value()
      ensures result == NoMonitor || exists client | client in answers :: answers[client] == result
    {
      if !isBluetoothEnabled {
        HandleBluetoothEnable(isReset);
      }
      ForEachClient(PacketSeen);
      result := NoMonitor;
      var todo := answers.Keys;
      while todo != {}
        invariant todo <= answers.Keys
        invariant forall client | client in answers && client !in todo :: answers[client].Value() <= result.Value()
        invariant result == NoMonitor || exists client | client in answers :: answers[client] == result
        decreases |todo|
      {
        var client :| client in todo;
        if result.Value() < answers[client].Value() {
          result := answers[client];
        }
        todo := todo - {client};
      }
    }

    method HandleBluetoothEnable(isReset: bool)
      requires Valid() && !isBluetoothEnabled
      modifies this
      ensures Valid() && currentState == old(currentState)
      ensures isBluetoothChipReady == old(isBluetoothChipReady)
      ensures isBluetoothEnabled == (currentState == Running && isReset)
      ensures logs == ToldIf(isBluetoothEnabled, old(logs), Enabled)
    {
      if currentState == Running && isReset {
        isBluetoothEnabled := true;
        ForEachClient(Enabled);
      }
    }

    /** Mirrors a change of the router's state; `aborted` is the mismatch check. */
    method NotifyChange(newState: HalState, oldState: HalState) returns (aborted: bool)
      requires Valid()
      modifies this
      ensures aborted <==> !Accepts(old(View()), oldState)
      ensures !aborted ==> Valid() && View() == NotifyHalStateChange(old(View()), newState, oldState)
    {
      hide Told, ToldIf;
      if oldState.Value() < currentState.Value() {
        return true;
      }
      currentState := newState;
      match newState {
        case BtChipReady =>
          TellIf(!isBluetoothChipReady, ChipReady);
          TellIf(isBluetoothEnabled, Disabled);
          isBluetoothChipReady, isBluetoothEnabled := true, false;
        case Running =>
          TellIf(!isBluetoothChipReady, ChipReady);
          isBluetoothChipReady := true;
        case _ =>
          TellIf(isBluetoothChipReady, ChipClosed);
          TellIf(isBluetoothEnabled, Disabled);
          isBluetoothChipReady, isBluetoothEnabled := false, false;
      }
      ForEachClient(HalStateChanged(newState, oldState));
      aborted := false;
    }

    method TellIf(condition: bool, note: Note)
      requires Valid()
      modifies this`logs
      ensures Valid() && logs == ToldIf(condition, old(logs), note)
    {
      if condition {
        ForEachClient(note);
      }
    }
  }

  /** Why the process aborts, if it does. */
  datatype Abort = NoAbort | BadTransition | BadMirror

  class HciRouter {
    const agent: HciRouterClientAgent
    const accelerated: bool
    var halState: HalState
    var hciCallback: bool
    var stackLog: seq<(HalState, HalState)>

    constructor (accelerated: bool)
      ensures Valid() && View() == START && this.accelerated == accelerated && fresh(agent)
    {
      agent := new HciRouterClientAgent();
      this.accelerated := accelerated;
      halState, hciCallback, stackLog := Shutdown, false, [];
    }

    ghost predicate Valid()
      reads this, agent
    {
      agent.Valid()
    }

    ghost function View(): Router
      reads this, agent
    {
      Router(halState, hciCallback, agent.View(), stackLog)
    }

    /** The call did what `outcome` says: returned in that state, or aborted for that reason. */
    ghost predicate Did(outcome: Outcome, abort: Abort)
      reads this, agent
    {
      match outcome
      case Returned(router, _) => abort == NoAbort && Valid() && View() == router
      case InvalidTransition => abort == BadTransition
      case AgentMismatch => abort == BadMirror
    }

    method Update(state: HalState) returns (abort: Abort)
      requires Valid()
      modifies this, agent
      ensures Did(UpdateHalState(old(View()), state), abort)
      decreases state == BtChipReady
    {
      if state !in NextStates(halState) {
        return BadTransition;
      }
      var oldState := halState;
      halState := state;
      var startStack := state == BtChipReady && oldState == FirmwareReady && hciCallback;
      if hciCallback {
        stackLog := stackLog + [(state, oldState)];
      }
      var mismatch := agent.NotifyChange(state, oldState);
      if mismatch {
        return BadMirror;
      }
      abort := NoAbort;
      if startStack {
        abort := Update(Running);
      }
    }

    method DoInitialize(transportOk: bool) returns (result: bool, abort: Abort)
      requires Valid()
      modifies this, agent
      ensures var o := InitializeModules(old(View()).(stack := true), accelerated, transportOk);
        Did(o, abort) && (o.Returned? ==> result == o.result)
    {
      hciCallback := true;
      result, abort := DoInitializeModules(transportOk);
    }

    method DoInitializeModules(transportOk: bool) returns (result: bool, abort: Abort)
      requires Valid()
      modifies this, agent
      ensures var o := InitializeModules(old(View()), accelerated, transportOk);
        Did(o, abort) && (o.Returned? ==> result == o.result)
    {
      if halState == Running {
        return false, NoAbort;
      } else if halState != Shutdown {
        return true, NoAbort;
      }
      abort := Update(Init);
      if abort != NoAbort {
        return false, abort;
      }
      if !transportOk {
        abort := DoClose();
        return false, abort;
      }
      result := true;
    }

    method DoClose() returns (abort: Abort)
      requires Valid()
      modifies this, agent
      ensures Did(Close(old(View()), accelerated), abort)
    {
      if halState == Running && accelerated {
        return NoAbort;
      }
      abort := DoCleanup();
    }

    method DoCleanup() returns (abort: Abort)
      requires Valid()
      modifies this, agent
      ensures Did(Cleanup(old(View())), abort)
    {
      abort := Update(Shutdown);
      hciCallback := false;
    }
  }
}
