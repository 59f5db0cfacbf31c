/** Whole runs of the audio module's calls. */
module AudioRuns {
  import opened Basics
  import opened AudioStores
  import opened AudioConfigs
  import opened AudioPatches
  import opened AudioDevices
  import opened AudioProfiles

  /** A call with its arguments and with what the calls it makes gave back. */
  datatype Action =
    | SetConfig(config: ConfigRequest, gainOk: bool)
    | ResetConfig(configId: int)
    | SetPatch(patch: Patch, hooks: Hooks)
    | ResetPatch(patchId: int, streams: Option<Status>)
    | Connect(device: DeviceRequest, simulate: bool, population: Population)
    | Disconnect(port: int)
    | Open(onConfig: int, input: bool, prepared: Option<Status>)
    | Close(place: nat)

  function Do(s: Store, a: Action): Store
  {
    match a
    case SetConfig(config, gainOk) => SetAudioPortConfig(s, config, gainOk).0
    case ResetConfig(configId) => ResetAudioPortConfig(s, configId).0
    case SetPatch(patch, hooks) => SetAudioPatch(s, patch, hooks).0
    case ResetPatch(patchId, streams) => ResetAudioPatch(s, patchId, streams).0
    case Connect(device, simulate, population) => ConnectExternalDevice(s, device, simulate, population).0
    case Disconnect(port) => DisconnectExternalDevice(s, port).0
    case Open(configId, input, prepared) => OpenStream(s, configId, input, prepared).0
    case Close(place) => CloseStream(s, place)
  }

  function Run(s: Store, actions: seq<Action>): Store
    decreases |actions|
  {
    if |actions| == 0 then s else Run(Do(s, actions[0]), actions[1..])
  }

  /** An update of a patch that the streams refuse at the end. */
  predicate FailsLate(s: Store, a: Action)
  {
    a.SetPatch? && LateUpdateFailure(s, a.patch, a.hooks)
  }

  predicate NoneFailsLate(s: Store, actions: seq<Action>)
    decreases |actions|
  {
    |actions| == 0 || (!FailsLate(s, actions[0]) && NoneFailsLate(Do(s, actions[0]), actions[1..]))
  }

  /** A module as it is constructed from its configuration. */
  ghost predicate Start(s: Store)
  {
    && UniqueIds(s) && s.nextPortId > 0 && s.nextPatchId > 0
    && s.configs == s.initials
    && ConfigsOnPorts(s)
    && (forall r | r in s.routes ::
          r.sources != [] && r.sink in PortIds(s.ports) && forall p | p in r.sources :: p in PortIds(s.ports))
    && s.patches == [] && s.index == [] && s.streams == [] && s.connected == map[]
  }

  lemma StartInv(s: Store)
    requires Start(s)
    ensures Inv(s) && ProfilesFollow(s.ports, s) && DevicesDistinct(s)
  {
    hide HasDynamicProfilesOnly;
    forall c, d | c in s.configs && d in s.initials && c.id == d.id ensures c.portId == d.portId {
      FoundConfig(s.configs, c);
      FoundConfig(s.configs, d);
    }
    forall d | d in s.initials ensures d.portId < s.nextPortId {
      assert d.portId in PortIds(s.ports);
    }
    forall r | r in s.routes ensures exists p | p in r.sources :: p !in s.connected {
      var x := r.sources[0];
      assert x in r.sources && x !in s.connected;
    }
  }

  /** One call keeps the invariant, except an update of a patch that fails late, which breaks it. */
  lemma DoKeepsInv(s: Store, a: Action)
    requires Inv(s)
    ensures Inv(Do(s, a)) <==> !FailsLate(s, a)
  {
    hide Inv, SetAudioPortConfig, ResetAudioPortConfig, SetAudioPatch, ResetAudioPatch, ConnectExternalDevice;
    hide DisconnectExternalDevice, OpenStream, CloseStream, LateUpdateFailure;
    match a
    case SetConfig(config, gainOk) => SetConfigKeepsInv(s, config, gainOk);
    case ResetConfig(configId) => ResetConfigKeepsInv(s, configId);
    case SetPatch(patch, hooks) => SetPatchKeepsInv(s, patch, hooks);
    case ResetPatch(patchId, streams) => ResetKeepsInv(s, patchId, streams);
    case Connect(device, simulate, population) => ConnectKeepsInv(s, device, simulate, population);
    case Disconnect(port) => DisconnectKeepsInv(s, port);
    case Open(configId, input, prepared) => OpenKeepsInv(s, configId, input, prepared);
    case Close(place) => CloseKeepsInv(s, place);
  }

  lemma DoFollows(origins: seq<Port>, s: Store, a: Action)
    requires Inv(s) && ProfilesFollow(origins, s)
    ensures ProfilesFollow(origins, Do(s, a))
  {
    hide Inv, ConnectExternalDevice, DisconnectExternalDevice, Follows, Refusal, FindTarget, Suggest;
    hide FindPortForNewStream, Erase, CleanUpPatch, RegisterPatch, Count, HasKey;
    match a
    case Connect(device, simulate, population) => ConnectFollows(origins, s, device, simulate, population);
    case Disconnect(port) => DisconnectFollows(origins, s, port);
    case _ =>
  }

  lemma DoKeepsDevices(s: Store, a: Action)
    requires Inv(s) && DevicesDistinct(s)
    ensures DevicesDistinct(Do(s, a))
  {
    hide Inv, ConnectExternalDevice, DisconnectExternalDevice, Refusal, FindTarget, Suggest;
    hide FindPortForNewStream, Erase, CleanUpPatch, RegisterPatch, Count, HasKey;
    match a
    case Connect(device, simulate, population) => ConnectKeepsDevices(s, device, simulate, population);
    case Disconnect(port) => DisconnectKeepsDevices(s, port);
    case _ =>
  }

  /** Every run without a late failure of an update keeps the invariant. */
  lemma {:induction false} RunKeepsInv(origins: seq<Port>, s: Store, actions: seq<Action>)
    requires Inv(s) && ProfilesFollow(origins, s) && DevicesDistinct(s) && NoneFailsLate(s, actions)
    ensures Inv(Run(s, actions)) && ProfilesFollow(origins, Run(s, actions)) && DevicesDistinct(Run(s, actions))
    decreases |actions|
  {
    hide Inv, ProfilesFollow, DevicesDistinct, Do, FailsLate;
    if |actions| > 0 {
      DoKeepsInv(s, actions[0]);
      DoFollows(origins, s, actions[0]);
      DoKeepsDevices(s, actions[0]);
      RunKeepsInv(origins, Do(s, actions[0]), actions[1..]);
    }
  }

  /**
   * From construction on, tables refer to one another properly, the patch index is exact, and no device
   * is connected twice.
   */
  lemma TablesStayConsistent(s: Store, actions: seq<Action>)
    requires Start(s) && NoneFailsLate(s, actions)
    ensures Inv(Run(s, actions)) && ProfilesFollow(s.ports, Run(s, actions)) && DevicesDistinct(Run(s, actions))
  {
    hide Inv, Start, ProfilesFollow, DevicesDistinct, NoneFailsLate, Run;
    StartInv(s);
    RunKeepsInv(s.ports, s, actions);
  }

  /** A sink port all of whose routes are exclusive is the sink of at most one patch. */
  lemma ExclusiveSinkHasOnePatch(s: Store, actions: seq<Action>, a: Patch, b: Patch, port: int)
    requires Start(s) && NoneFailsLate(s, actions)
    requires
      var u := Run(s, actions);
      && a in u.patches && b in u.patches
      && SinksInto(u.configs, a, port) && SinksInto(u.configs, b, port)
      && (forall r | r in u.routes && r.sink == port :: r.isExclusive)
    ensures a == b
  {
    hide Start, ProfilesFollow, NoneFailsLate, Run, IndexExact, PatchesOnConfigs, StreamsOnConfigs, StreamLimits;
    hide ConfigsOnPorts, RoutesOnPorts, ConnectedAreDevices, InitialsFixed, ClaimsAreReal, SinksInto;
    TablesStayConsistent(s, actions);
    var u := Run(s, actions);
    if a.id == b.id {
      FoundPatch(u.patches, a);
      FoundPatch(u.patches, b);
    }
  }

  /**
   * A mix port that began with dynamic profiles only has real ones exactly while a connected device
   * claims it; one that began with real profiles keeps them and is never claimed.
   */
  lemma MixPortsFollowConnections(s: Store, actions: seq<Action>, i: nat)
    requires Start(s) && NoneFailsLate(s, actions) && i < |s.ports|
    ensures
      var u := Run(s, actions);
      && i < |u.ports|
      && u.ports[i] == s.ports[i].(profiles := u.ports[i].profiles)
      && (HasDynamicProfilesOnly(s.ports[i].profiles) ==>
            (!HasDynamicProfilesOnly(u.ports[i].profiles) <==> Claimed(u.connected, s.ports[i].id)))
      && (!HasDynamicProfilesOnly(s.ports[i].profiles) ==>
            u.ports[i] == s.ports[i] && !Claimed(u.connected, s.ports[i].id))
  {
    hide Inv, Start, NoneFailsLate, Run, HasDynamicProfilesOnly, Claimed;
    TablesStayConsistent(s, actions);
    assert Follows(s.ports[i], Run(s, actions).ports[i], Run(s, actions).connected);
  }

  /**
   * After an update fails late, an exclusive sink can be given to a second patch: asking again for the
   * same connection, this time as a new patch, succeeds while the old patch is still there.
   */
  lemma LateFailureSharesExclusiveSink(s: Store, req: Patch, h: Hooks, port: int)
    requires Inv(s) && LateUpdateFailure(s, req, h)
    requires s.patches[Find(PatchIds(s.patches), req.id)].sinks == req.sinks
    requires SinksInto(s.configs, req, port) && !HasSharedRoute(s.routes, port)
    ensures
      var u := SetAudioPatch(s, req, h).0;
      var (w, r) := SetAudioPatch(u, req.(id := 0), h.(streams := None));
      && r.Success?
      && (exists a, b | a in w.patches && b in w.patches ::
            a.id != b.id && SinksInto(w.configs, a, port) && SinksInto(w.configs, b, port))
      && !SinksExclusive(w)
  {
    hide Inv, RegisterPatch, CleanUpPatch, HasSharedRoute, LeadsFrom;
    LateUpdateBreaksIndex(s, req, h);
    var u := SetAudioPatch(s, req, h).0;
    RetryAccepted(s, req, h);
    var (w, r) := SetAudioPatch(u, req.(id := 0), h.(streams := None));
    var kept := s.patches[Find(PatchIds(s.patches), req.id)];
    PatchIdsPositive(s, kept);
    assert kept in w.patches && r.value in w.patches;
    var c :| c in s.configs && c.id in req.sinks && c.portId == port;
    assert SinksInto(w.configs, kept, port) && SinksInto(w.configs, r.value, port);
  }

  lemma RetryAccepted(s: Store, req: Patch, h: Hooks)
    requires LateUpdateFailure(s, req, h)
    ensures
      var u := SetAudioPatch(s, req, h).0;
      Refusal(u, req.(id := 0), h.(streams := None)).None?
  {
    hide LeadsFrom, HasKey, CleanUpPatch;
    var u := SetAudioPatch(s, req, h).0;
    var again := req.(id := 0);
    assert WellFormed(u, again);
    assert ExclusiveInUse(u, u.index, again) == ExclusiveInUse(s, u.index, req);
  }

  // ---------- The late failure happens ----------

  /** A mix port, a permanently attached device port, a config on each, and an exclusive route. */
  function SmallModule(): Store
  {
    var ext := DeviceExt(Device(2, "", ""));
    var mix := Port(1, Output(0), [Profile(1, [3], [48000])], MixExt(0, 0, 0), []);
    var speaker := Port(2, Output(0), [], ext, []);
    var configs := [Config(2, 2, 0, 0, 0, Output(0), None, ext),
                    Config(3, 1, 1, 3, 48000, Output(0), None, MixExt(0, 0, 0))];
    Store([mix, speaker], configs, configs, [Route([1], 2, true)], [], 4, 1, [], map[], map[], [])
  }

  const FINE := Hooks(None, Some(256), 5, None)

  lemma SmallModuleStarts()
    ensures Start(SmallModule())
  {
    var s := SmallModule();
    assert PortIds(s.ports) == [1, 2] && ConfigIds(s.configs) == [2, 3] && PatchIds(s.patches) == [];
  }

  /** In this module the patch from 3 to 2 is well formed, whatever patches there are. */
  lemma SmallPatchIsWellFormed(s: Store, id: int)
    requires s == SmallModule().(patches := s.patches, index := s.index, nextPatchId := s.nextPatchId)
    ensures AudioPatches.WellFormed(s, Patch(id, [3], [2], 0, []))
    ensures SinksInto(s.configs, Patch(id, [3], [2], 0, []), 2) && !HasSharedRoute(s.routes, 2)
  {
    assert ConfigIds(s.configs) == [2, 3];
    assert ConfigIds(s.configs)[0] == 2 && ConfigIds(s.configs)[1] == 3;
    var mix, speaker, route := s.configs[1], s.configs[0], s.routes[0];
    assert mix in s.configs && speaker in s.configs && route in s.routes;
    assert 1 == route.sources[0] && 3 == [3][0] && 2 == [2][0];
    assert LeadsFrom(s.configs, [3], route);
  }

  /** Three calls on that module put two patches on the exclusive sink. */
  lemma ExclusiveSinkCanBeShared()
    ensures
      var req := Patch(0, [3], [2], 0, []);
      var actions := [SetPatch(req, FINE), SetPatch(req.(id := 1), FINE.(streams := Some(IllegalState))), SetPatch(req, FINE)];
      Start(SmallModule()) && !SinksExclusive(Run(SmallModule(), actions))
  {
    hide Inv, Start, SinksExclusive, LeadsFrom, AudioPatches.WellFormed, Shareable, RegisterPatch, HasSharedRoute, SinksInto;
    var s := SmallModule();
    var req := Patch(0, [3], [2], 0, []);
    var late := FINE.(streams := Some(IllegalState));
    SmallModuleStarts();
    StartInv(s);
    SmallPatchIsWellFormed(s, 0);
    assert !ExclusiveInUse(s, s.index, req);
    var one := Do(s, SetPatch(req, FINE));
    DoKeepsInv(s, SetPatch(req, FINE));
    assert one.patches == [Filled(s, req, FINE)];
    SmallPatchIsWellFormed(one, 1);
    assert LateUpdateFailure(one, req.(id := 1), late) by { OwnPatchIsNoObstacle(one, req.(id := 1), late); }
    var two := Do(one, SetPatch(req.(id := 1), late));
    assert Find(PatchIds(one.patches), 1) == 0;
    LateFailureSharesExclusiveSink(one, req.(id := 1), late, 2);
    var three := Do(two, SetPatch(req, FINE));
    ThreeCalls(s, SetPatch(req, FINE), SetPatch(req.(id := 1), late), SetPatch(req, FINE));
  }

  lemma ThreeCalls(s: Store, a: Action, b: Action, c: Action)
    ensures Run(s, [a, b, c]) == Do(Do(Do(s, a), b), c)
  {
    hide Do;
    var one, two := Do(s, a), Do(Do(s, a), b);
    assert [a, b, c][1..] == [b, c] && [b, c][1..] == [c] && [c][1..] == [];
    assert Run(two, [c]) == Do(two, c);
    assert Run(one, [b, c]) == Run(two, [c]);
    assert Run(s, [a, b, c]) == Run(one, [b, c]);
  }

  /** A well-formed update of the only patch meets no obstacle before the streams are told. */
  lemma OwnPatchIsNoObstacle(s: Store, req: Patch, h: Hooks)
    requires Inv(s) && AudioPatches.WellFormed(s, req) && |s.patches| == 1 && req.id == s.patches[0].id != 0
    requires h.endpoints.None? && h.bufferFrames.Some? && h.streams.Some?
    ensures LateUpdateFailure(s, req, h)
  {
    hide Inv, AudioPatches.WellFormed, LeadsFrom, Shareable, CleanUpPatch;
    assert PatchIds(s.patches)[0] == req.id;
    forall key ensures !HasKey(CleanUpPatch(s.index, req.id), key) {
      KeyOfOther(s, req, key);
    }
  }

  // ---------- A format-only update ----------

  const STEREO := Profile(1, [3], [48000])
  const SURROUND := Profile(2, [4], [48000])

  /** A mix port with two profiles that share no channel mask, and a config for the first. */
  function TwoProfiles(): Store
  {
    var mix := Port(1, Output(0), [STEREO, SURROUND], MixExt(0, 0, 0), []);
    var config := Config(2, 1, 1, 3, 48000, Output(0), None, MixExt(0, 0, 0));
    Store([mix], [config], [config], [], [], 3, 1, [], map[], map[], [])
  }

  /** Changing the format alone is applied, and leaves a config that its port does not support. */
  lemma FormatOnlyUpdateIsUnsupported()
    ensures
      var s := TwoProfiles();
      var req := ConfigRequest(2, 0, None, Some(2), None, None, None, Unspecified);
      var (u, r) := SetAudioPortConfig(s, req, true);
      && Start(s)
      && Supported(s.ports[0], s.configs[0])
      && r == Success((s.configs[0].(format := 2), true))
      && u.configs == [r.value.0]
      && !Supported(u.ports[0], u.configs[0])
  {
    var s := TwoProfiles();
    var req := ConfigRequest(2, 0, None, Some(2), None, None, None, Unspecified);
    assert PortIds(s.ports) == [1] && ConfigIds(s.configs) == [2] && PatchIds(s.patches) == [];
    var p := s.ports[0];
    assert FindProfile(p.profiles, 1) == Some(STEREO);
    assert p.profiles[1..] == [SURROUND] && FindProfile(p.profiles, 2) == Some(SURROUND);
    assert Find(ConfigIds(s.configs), 2) == 0 && Find(PortIds(s.ports), 1) == 0;
    assert FindTarget(s, req) == Some(Target(0, p, s.configs[0]));
    assert Suggest(p, s.configs[0], req, true) == Success(Suggestion(s.configs[0].(format := 2), true, false));
  }

  // ---------- A sink that was not asked for ----------

  /** Two mix ports with an exclusive route to the speaker; the first also reaches the headset. */
  function TwoSinks(): Store
  {
    var mixExt := MixExt(0, 0, 0);
    var speakerExt, headsetExt := DeviceExt(Device(2, "", "")), DeviceExt(Device(3, "", ""));
    var ports := [Port(1, Output(0), [STEREO], mixExt, []), Port(2, Output(0), [], speakerExt, []),
                  Port(3, Output(0), [], headsetExt, []), Port(4, Output(0), [STEREO], mixExt, [])];
    var configs := [Config(2, 2, 0, 0, 0, Output(0), None, speakerExt),
                    Config(3, 3, 0, 0, 0, Output(0), None, headsetExt),
                    Config(5, 1, 1, 3, 48000, Output(0), None, mixExt),
                    Config(6, 4, 1, 3, 48000, Output(0), None, mixExt)];
    Store(ports, configs, configs, [Route([1, 4], 2, true), Route([1], 3, false)], [], 7, 1, [], map[], map[], [])
  }

  lemma TwoSinksStarts()
    ensures Start(TwoSinks())
  {
    var s := TwoSinks();
    assert PortIds(s.ports) == [1, 2, 3, 4] && ConfigIds(s.configs) == [2, 3, 5, 6] && PatchIds(s.patches) == [];
  }

  lemma TwoSinksWellFormed(s: Store, source: int, sink: int)
    requires s == TwoSinks().(patches := s.patches, index := s.index, nextPatchId := s.nextPatchId)
    requires (source, sink) == (6, 2) || (source, sink) == (5, 3)
    ensures AudioPatches.WellFormed(s, Patch(0, [source], [sink], 0, []))
  {
    var ids := ConfigIds(s.configs);
    assert ids == [2, 3, 5, 6];
    assert ids[0] == 2 && ids[1] == 3 && ids[2] == 5 && ids[3] == 6;
    assert s.configs[2] in s.configs && s.configs[3] in s.configs;
    assert [1, 4][1] == 4 && [1][0] == 1 && [source][0] == source;
    var r := if sink == 2 then s.routes[0] else s.routes[1];
    assert r in s.routes && LeadsFrom(s.configs, [source], r);
  }

  /**
   * The headset is free and the request is well formed, but it is refused: the speaker, which it does not
   * name, is reachable from its source and taken by a patch from the other mix port.
   */
  lemma UnaskedSinkRefuses()
    ensures
      var u := Run(TwoSinks(), [SetPatch(Patch(0, [6], [2], 0, []), FINE)]);
      var req := Patch(0, [5], [3], 0, []);
      && Start(TwoSinks())
      && AudioPatches.WellFormed(u, req)
      && (forall a | a in u.patches :: !Names(a, 5) && !Names(a, 3) && !SinksInto(u.configs, a, 3))
      && SetAudioPatch(u, req, FINE) == (u, Failure(IllegalState))
  {
    hide Start, AudioPatches.WellFormed, LeadsFrom, Shareable, RegisterPatch, CleanUpPatch;
    var s := TwoSinks();
    var first, req := Patch(0, [6], [2], 0, []), Patch(0, [5], [3], 0, []);
    TwoSinksStarts();
    TwoSinksWellFormed(s, 6, 2);
    assert !ExclusiveInUse(s, s.index, first);
    var u := Do(s, SetPatch(first, FINE));
    assert Run(s, [SetPatch(first, FINE)]) == u by { OneCall(s, SetPatch(first, FINE)); }
    assert u.patches == [Filled(s, first, FINE)];
    TwoSinksWellFormed(u, 5, 3);
    SpeakerTaken(u, s, first);
  }

  lemma OneCall(s: Store, a: Action)
    ensures Run(s, [a]) == Do(s, a)
  {
    hide Do;
    assert [a][1..] == [];
  }

  lemma SpeakerTaken(u: Store, s: Store, first: Patch)
    requires s == TwoSinks() && first == Patch(0, [6], [2], 0, [])
    requires u == s.(patches := u.patches, index := RegisterPatch([], s.configs, Filled(s, first, FINE)), nextPatchId := 2)
    ensures ExclusiveInUse(u, u.index, Patch(0, [5], [3], 0, []))
  {
    hide RegisterPatch;
    var a := Filled(s, first, FINE);
    assert ConfigIds(s.configs) == [2, 3, 5, 6];
    assert s.configs[0] in s.configs && Names(a, 2) by { assert a.sinks[0] == 2; }
    assert Uses(s.configs, a, 2);
    RegisterExact([], s.configs, a, (2, a.id));
    var r := u.routes[0];
    assert r in u.routes && r.sources[0] == 1 && [5][0] == 5 && u.configs[2] in u.configs;
    assert LeadsFrom(u.configs, [5], r);
    assert HasKey(u.index, 2);
  }
}
