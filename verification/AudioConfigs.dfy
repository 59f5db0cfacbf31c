/** Port configs and streams: set, reset, open, close. */
module AudioConfigs {
  import opened Basics
  import opened AudioStores

  /** A requested port config; absent fields are left to the module. */
  datatype ConfigRequest =
    ConfigRequest(id: int, portId: int, flags: Option<Flags>, format: Option<int>, channelMask: Option<int>,
                  sampleRate: Option<int>, gain: Option<int>, ext: Ext)

  function FindProfile(profiles: seq<Profile>, format: int): (r: Option<Profile>)
    ensures r.Some? ==> r.value in profiles && r.value.format == format
    ensures r.None? ==> forall p | p in profiles :: p.format != format
  {
    if |profiles| == 0 then None
    else if profiles[0].format == format then Some(profiles[0])
    else FindProfile(profiles[1..], format)
  }

  function FirstStatic(profiles: seq<Profile>): (r: Option<Profile>)
    ensures r.Some? ==> r.value in profiles && !IsDynamic(r.value)
    ensures r.None? <==> HasDynamicProfilesOnly(profiles)
  {
    if |profiles| == 0 then None
    else if IsDynamic(profiles[0]) then
      assert profiles == [profiles[0]] + profiles[1..];
      FirstStatic(profiles[1..])
    else Some(profiles[0])
  }

  function DefaultConfig(p: Port): (r: Option<Config>)
    ensures r.None? <==> HasDynamicProfilesOnly(p.profiles) && !p.ext.DeviceExt?
    ensures r.Some? ==> r.value.portId == p.id
  {
    match FirstStatic(p.profiles)
    case Some(profile) =>
      Some(Config(0, p.id, profile.format, profile.channelMasks[0], profile.sampleRates[0], p.flags, None, p.ext))
    case None =>
      if p.ext.DeviceExt? then Some(Config(0, p.id, 0, 0, 0, p.flags, None, p.ext)) else None
  }

  /** Dynamic configs are for devices that only have dynamic profiles. */
  predicate AllowsDynamic(p: Port)
  {
    p.ext.DeviceExt? && HasDynamicProfilesOnly(p.profiles)
  }

  predicate FormatSupported(p: Port, format: int)
  {
    (format == 0 && AllowsDynamic(p)) || FindProfile(p.profiles, format).Some?
  }

  /** The profile that masks and rates are checked against. */
  function ProfileFor(p: Port, format: int): Profile
    requires FormatSupported(p, format)
  {
    if format == 0 && AllowsDynamic(p) then Profile(0, [], []) else FindProfile(p.profiles, format).value
  }

  predicate MaskSupported(p: Port, format: int, mask: int)
    requires FormatSupported(p, format)
  {
    (mask == 0 && AllowsDynamic(p)) || mask in ProfileFor(p, format).channelMasks
  }

  predicate RateSupported(p: Port, format: int, rate: int)
    requires FormatSupported(p, format)
  {
    (rate == 0 && AllowsDynamic(p)) || rate in ProfileFor(p, format).sampleRates
  }

  /** The port can do what the config says. */
  predicate Supported(p: Port, c: Config)
  {
    && FormatSupported(p, c.format)
    && MaskSupported(p, c.format, c.channelMask)
    && RateSupported(p, c.format, c.sampleRate)
  }

  datatype Suggestion = Suggestion(config: Config, valid: bool, full: bool)

  function SuggestFormat(p: Port, start: Config, req: ConfigRequest): Suggestion
  {
    var valid := req.flags.Some? ==> req.flags.value == p.flags;
    match req.format
    case None => Suggestion(start, valid, false)
    case Some(format) =>
      if FormatSupported(p, format) then Suggestion(start.(format := format), valid, req.flags.Some?)
      else Suggestion(start, false, req.flags.Some?)
  }

  function SuggestMaskAndRate(p: Port, so: Suggestion, req: ConfigRequest): (r: Suggestion)
    requires FormatSupported(p, so.config.format)
    ensures r.config.format == so.config.format
  {
    var format := so.config.format;
    var maskOk := req.channelMask.Some? && MaskSupported(p, format, req.channelMask.value);
    var rateOk := req.sampleRate.Some? && RateSupported(p, format, req.sampleRate.value);
    Suggestion(so.config.(channelMask := if maskOk then req.channelMask.value else so.config.channelMask,
                          sampleRate := if rateOk then req.sampleRate.value else so.config.sampleRate),
               so.valid && (req.channelMask.Some? ==> maskOk) && (req.sampleRate.Some? ==> rateOk),
               so.full && req.channelMask.Some? && req.sampleRate.Some?)
  }

  function SuggestGainAndExt(so: Suggestion, req: ConfigRequest): Suggestion
  {
    var c := if req.gain.Some? then so.config.(gain := req.gain) else so.config;
    if req.ext.Unspecified? then Suggestion(c, so.valid, so.full)
    else if req.ext.MixExt? && c.ext.MixExt? then
      Suggestion(c.(ext := c.ext.(handle := req.ext.handle, usecase := req.ext.usecase)), so.valid, so.full)
    else if SameTag(req.ext, c.ext) then Suggestion(c, so.valid, so.full)
    else Suggestion(c, false, so.full)
  }

  predicate SameTag(a: Ext, b: Ext)
  {
    || (a.Unspecified? && b.Unspecified?) || (a.DeviceExt? && b.DeviceExt?)
    || (a.MixExt? && b.MixExt?) || (a.SessionExt? && b.SessionExt?)
  }

  /** The suggested config, whether the request is valid, whether it is fully specified. */
  function Suggest(p: Port, start: Config, req: ConfigRequest, gainOk: bool): Reply<Suggestion>
  {
    var one := SuggestFormat(p, start, req);
    if !FormatSupported(p, one.config.format) then Failure(IllegalArgument)
    else if req.gain.Some? && !gainOk then Failure(IllegalArgument)
    else Success(SuggestGainAndExt(SuggestMaskAndRate(p, one, req), req))
  }

  predicate NeedsConnection(p: Port)
  {
    p.ext.DeviceExt? && p.ext.device.connection != ""
  }

  /** What the request is about: the port and the config to start from. */
  datatype Target = Target(position: nat, port: Port, start: Config)

  function FindTarget(s: Store, req: ConfigRequest): (r: Option<Target>)
    ensures r.Some? ==> r.value.port in s.ports && r.value.start.portId == r.value.port.id
    ensures r.Some? ==> r.value.position <= |s.configs|
    ensures r.Some? && r.value.position < |s.configs| ==> s.configs[r.value.position] == r.value.start
    ensures r.Some? ==> (r.value.position == |s.configs| <==> req.id == 0)
  {
    var e := if req.id != 0 then Find(ConfigIds(s.configs), req.id) else |s.configs|;
    if req.id != 0 && e == |s.configs| then None
    else
      var portId := if e < |s.configs| then s.configs[e].portId else req.portId;
      var i := Find(PortIds(s.ports), portId);
      if portId == 0 || i == |s.ports| then None
      else if NeedsConnection(s.ports[i]) && portId !in s.connected then None
      else if e < |s.configs| then Some(Target(e, s.ports[i], s.configs[e]))
      else match DefaultConfig(s.ports[i])
        case None => None
        case Some(c) => Some(Target(e, s.ports[i], c))
  }

  /** The result is the suggested config and whether it was applied. */
  function SetAudioPortConfig(s: Store, req: ConfigRequest, gainOk: bool): (Store, Reply<(Config, bool)>)
  {
    match FindTarget(s, req)
    case None => (s, Failure(IllegalArgument))
    case Some(target) =>
      match Suggest(target.port, target.start, req, gainOk)
      case Aborted => (s, Aborted)
      case Failure(status) => (s, Failure(status))
      case Success(so) =>
        if target.position == |s.configs| && so.valid && so.full then
          var c := so.config.(id := s.nextPortId);
          (s.(configs := s.configs + [c], nextPortId := s.nextPortId + 1), Success((c, true)))
        else if target.position < |s.configs| && so.valid then
          (s.(configs := s.configs[target.position := so.config]), Success((so.config, true)))
        else
          (s, Success((so.config, false)))
  }

  predicate HasKey(index: seq<(int, int)>, key: int)
  {
    exists e | e in index :: e.0 == key
  }

  function ResetAudioPortConfig(s: Store, configId: int): (Store, Reply<()>)
  {
    var i := Find(ConfigIds(s.configs), configId);
    if i == |s.configs| then (s, Failure(IllegalArgument))
    else if Count(s.streams, configId) != 0 then (s, Failure(IllegalState))
    else if HasKey(s.index, configId) then (s, Failure(IllegalState))
    else
      var j := Find(ConfigIds(s.initials), configId);
      if j == |s.initials| then (s.(configs := Erase(s.configs, i)), Success(()))
      else (s.(configs := s.configs[i := s.initials[j]]), Success(()))
  }

  function FindPortForNewStream(s: Store, configId: int): (r: Reply<Port>)
    ensures r.Success? ==> r.value in s.ports
  {
    var i := Find(ConfigIds(s.configs), configId);
    if i == |s.configs| then Failure(IllegalArgument)
    else
      var portId := s.configs[i].portId;
      if portId == configId then Aborted
      else
        var j := Find(PortIds(s.ports), portId);
        if j == |s.ports| then Failure(IllegalArgument)
        else if Count(s.streams, configId) != 0 then Failure(IllegalState)
        else if !s.ports[j].ext.MixExt? then Failure(IllegalArgument)
        else
          var most := s.ports[j].ext.maxOpenStreamCount;
          if most != 0 && Count(s.streams, portId) >= most then Failure(IllegalState)
          else Success(s.ports[j])
  }

  /** `prepared` is what building the stream context and the stream object returned. */
  function OpenStream(s: Store, configId: int, input: bool, prepared: Option<Status>): (Store, Reply<Stream>)
  {
    match FindPortForNewStream(s, configId)
    case Aborted => (s, Aborted)
    case Failure(status) => (s, Failure(status))
    case Success(p) =>
      if p.flags.Input? != input then (s, Failure(IllegalArgument))
      else if prepared.Some? then (s, Failure(prepared.value))
      else
        var t := Stream(configId, p.id);
        (s.(streams := s.streams + [t]), Success(t))
  }

  /** A stream closes itself; the module drops it before it next counts. */
  function CloseStream(s: Store, t: nat): Store
  {
    if t < |s.streams| then s.(streams := Erase(s.streams, t)) else s
  }

  // ---------- Set and reset keep the invariant ----------

  /** The two lists have the same ids and the same ports, place by place. */
  ghost predicate SameLinks(v: seq<Config>, w: seq<Config>)
  {
    |v| == |w| && forall i | 0 <= i < |v| :: v[i].id == w[i].id && v[i].portId == w[i].portId
  }

  lemma SameLinksTwin(v: seq<Config>, w: seq<Config>, c: Config) returns (d: Config)
    requires SameLinks(v, w) && c in v
    ensures d in w && d.id == c.id && d.portId == c.portId
  {
    var i :| 0 <= i < |v| && v[i] == c;
    d := w[i];
  }

  lemma SameLinksUses(v: seq<Config>, w: seq<Config>, a: Patch, key: int)
    requires SameLinks(v, w) && Uses(v, a, key)
    ensures Uses(w, a, key)
  {
    var c :| c in v && Names(a, c.id) && (key == c.id || key == c.portId);
    var d := SameLinksTwin(v, w, c);
  }

  lemma SameLinksSinks(v: seq<Config>, w: seq<Config>, a: Patch, port: int)
    requires SameLinks(v, w) && SinksInto(v, a, port)
    ensures SinksInto(w, a, port)
  {
    var c :| c in v && c.id in a.sinks && c.portId == port;
    var d := SameLinksTwin(v, w, c);
  }

  lemma SameLinksInUse(v: seq<Config>, w: seq<Config>, patches: seq<Patch>, key: int, patchId: int)
    requires SameLinks(v, w) && InUse(v, patches, key, patchId)
    ensures InUse(w, patches, key, patchId)
  {
    var a :| a in patches && a.id == patchId && Uses(v, a, key);
    SameLinksUses(v, w, a, key);
  }

  lemma RelinkKeepsIndex(s: Store, w: seq<Config>)
    requires IndexExact(s) && SameLinks(s.configs, w)
    ensures IndexExact(s.(configs := w))
  {
    hide InUse;
    forall key: int, patchId: int
      ensures InUse(s.configs, s.patches, key, patchId) <==> InUse(w, s.patches, key, patchId)
    {
      if InUse(s.configs, s.patches, key, patchId) { SameLinksInUse(s.configs, w, s.patches, key, patchId); }
      if InUse(w, s.patches, key, patchId) { SameLinksInUse(w, s.configs, s.patches, key, patchId); }
    }
  }

  lemma RelinkKeepsSinks(s: Store, w: seq<Config>)
    requires SinksExclusive(s) && SameLinks(s.configs, w)
    ensures SinksExclusive(s.(configs := w))
  {
    hide SinksInto;
    forall a, b, port: int | a in s.patches && b in s.patches && a.id != b.id && SinksInto(w, a, port) && SinksInto(w, b, port)
      ensures HasSharedRoute(s.routes, port)
    {
      SameLinksSinks(w, s.configs, a, port);
      SameLinksSinks(w, s.configs, b, port);
    }
  }

  lemma RelinkKeepsStreams(s: Store, w: seq<Config>)
    requires StreamsOnConfigs(s) && SameLinks(s.configs, w)
    ensures StreamsOnConfigs(s.(configs := w))
  {
    forall t | t in s.streams ensures OnMixPort(s.(configs := w), t) {
      assert OnMixPort(s, t);
      var c :| c in s.configs && c.id == t.configId && c.portId == t.portId;
      var d := SameLinksTwin(s.configs, w, c);
    }
  }

  lemma RelinkKeepsPlaces(s: Store, w: seq<Config>)
    requires UniqueIds(s) && ConfigsOnPorts(s) && InitialsFixed(s) && PatchesOnConfigs(s)
    requires SameLinks(s.configs, w)
    ensures
      var u := s.(configs := w);
      UniqueIds(u) && ConfigsOnPorts(u) && InitialsFixed(u) && PatchesOnConfigs(u)
  {
    assert ConfigIds(w) == ConfigIds(s.configs);
    forall c | c in w
      ensures c.portId in PortIds(s.ports)
      ensures c.id in PortIds(s.ports) ==> c.portId == c.id
      ensures forall d | d in s.initials && c.id == d.id :: c.portId == d.portId
    {
      var d := SameLinksTwin(w, s.configs, c);
    }
  }

  /** Changing configs without touching their ids and ports keeps the invariant. */
  lemma RelinkKeepsInv(s: Store, w: seq<Config>)
    requires Inv(s) && SameLinks(s.configs, w)
    ensures Inv(s.(configs := w))
  {
    hide UniqueIds, ConfigsOnPorts, InitialsFixed, PatchesOnConfigs, IndexExact, StreamsOnConfigs, SinksExclusive;
    RelinkKeepsPlaces(s, w);
    RelinkKeepsIndex(s, w);
    RelinkKeepsSinks(s, w);
    RelinkKeepsStreams(s, w);
  }

  /** A config that no patch names changes no use. */
  lemma UnnamedConfig(v: seq<Config>, c: Config, a: Patch)
    requires !Names(a, c.id)
    ensures forall key :: Uses(v + [c], a, key) <==> Uses(v, a, key)
    ensures forall port :: SinksInto(v + [c], a, port) <==> SinksInto(v, a, port)
  {
    forall key | Uses(v, a, key) ensures Uses(v + [c], a, key) {
      var d :| d in v && Names(a, d.id) && (key == d.id || key == d.portId);
      assert d in v + [c];
    }
    forall port | SinksInto(v, a, port) ensures SinksInto(v + [c], a, port) {
      var d :| d in v && d.id in a.sinks && d.portId == port;
      assert d in v + [c];
    }
  }

  /** Dropping a config that no patch names changes no use. */
  lemma ErasedConfig(v: seq<Config>, i: nat, a: Patch)
    requires i < |v| && !Names(a, v[i].id)
    ensures forall key :: Uses(Erase(v, i), a, key) <==> Uses(v, a, key)
    ensures forall port :: SinksInto(Erase(v, i), a, port) <==> SinksInto(v, a, port)
  {
    var w := Erase(v, i);
    forall d | d in v && d != v[i] ensures d in w {
      var j :| 0 <= j < |v| && v[j] == d;
      assert w[if j < i then j else j - 1] == d;
    }
    forall key | Uses(v, a, key) ensures Uses(w, a, key) {
      var d :| d in v && Names(a, d.id) && (key == d.id || key == d.portId);
    }
    forall port | SinksInto(v, a, port) ensures SinksInto(w, a, port) {
      var d :| d in v && d.id in a.sinks && d.portId == port;
    }
  }

  /** The two config lists look the same to every patch. */
  ghost predicate SameUses(patches: seq<Patch>, v: seq<Config>, w: seq<Config>)
  {
    forall a | a in patches ::
      && (forall key :: Uses(w, a, key) <==> Uses(v, a, key))
      && (forall port :: SinksInto(w, a, port) <==> SinksInto(v, a, port))
  }

  lemma SameUsesKeepsIndex(s: Store, u: Store)
    requires IndexExact(s) && SinksExclusive(s) && SameUses(s.patches, s.configs, u.configs)
    requires u.patches == s.patches && u.index == s.index && u.routes == s.routes
    ensures IndexExact(u) && SinksExclusive(u)
  {
    hide Uses, SinksInto, HasSharedRoute;
  }

  lemma AddConfigKeepsPlaces(s: Store, c: Config)
    requires Inv(s) && c.id == s.nextPortId && c.portId in PortIds(s.ports)
    ensures
      var u := s.(configs := s.configs + [c], nextPortId := s.nextPortId + 1);
      && UniqueIds(u) && ConfigsOnPorts(u) && InitialsFixed(u) && PatchesOnConfigs(u) && ConnectedAreDevices(u)
      && (forall a | a in s.patches :: !Names(a, c.id))
  {
    hide IndexExact, StreamsOnConfigs, SinksExclusive, RoutesOnPorts, StreamLimits, ClaimsAreReal;
    ConfigPushed(s.configs, c);
    DistinctPush(ConfigIds(s.configs), c.id);
    forall d | d in s.initials ensures d.id != c.id && d.portId != c.id {
      var i :| 0 <= i < |s.initials| && s.initials[i] == d;
      assert ConfigIds(s.initials)[i] in ConfigIds(s.initials);
    }
  }

  lemma AddConfigKeepsStreams(s: Store, c: Config)
    requires StreamsOnConfigs(s)
    ensures StreamsOnConfigs(s.(configs := s.configs + [c], nextPortId := s.nextPortId + 1))
  {
    var u := s.(configs := s.configs + [c], nextPortId := s.nextPortId + 1);
    forall t | t in s.streams ensures OnMixPort(u, t) {
      assert OnMixPort(s, t);
      var d :| d in s.configs && d.id == t.configId && d.portId == t.portId;
      assert d in u.configs;
    }
  }

  /** A new config under a fresh id keeps the invariant. */
  lemma AddConfigKeepsInv(s: Store, c: Config)
    requires Inv(s) && c.id == s.nextPortId && c.portId in PortIds(s.ports)
    ensures Inv(s.(configs := s.configs + [c], nextPortId := s.nextPortId + 1))
  {
    hide UniqueIds, ConfigsOnPorts, InitialsFixed, PatchesOnConfigs, IndexExact, StreamsOnConfigs, SinksExclusive;
    hide ConnectedAreDevices, Uses, SinksInto, Names;
    var u := s.(configs := s.configs + [c], nextPortId := s.nextPortId + 1);
    AddConfigKeepsPlaces(s, c);
    AddConfigKeepsStreams(s, c);
    forall a | a in s.patches
      ensures forall key :: Uses(u.configs, a, key) <==> Uses(s.configs, a, key)
      ensures forall port :: SinksInto(u.configs, a, port) <==> SinksInto(s.configs, a, port)
    {
      UnnamedConfig(s.configs, c, a);
    }
    SameUsesKeepsIndex(s, u);
  }

  lemma NotInIndex(s: Store, i: nat)
    requires IndexExact(s) && i < |s.configs| && !HasKey(s.index, s.configs[i].id)
    ensures forall a | a in s.patches :: !Names(a, s.configs[i].id)
  {
    var id := s.configs[i].id;
    forall a | a in s.patches ensures !Names(a, id) {
      if Names(a, id) { NamedIsKey(s, i, a); }
    }
  }

  lemma NamedIsKey(s: Store, i: nat, a: Patch)
    requires IndexExact(s) && i < |s.configs| && a in s.patches && Names(a, s.configs[i].id)
    ensures HasKey(s.index, s.configs[i].id)
  {
    var id := s.configs[i].id;
    assert Uses(s.configs, a, id);
    assert InUse(s.configs, s.patches, id, a.id);
    assert (id, a.id) in s.index;
  }

  lemma CountZero(streams: seq<Stream>, id: int)
    requires Count(streams, id) == 0
    ensures forall t | t in streams :: t.configId != id && t.portId != id
  {
    if |streams| > 0 {
      var n := |streams| - 1;
      CountZero(streams[..n], id);
      assert streams == streams[..n] + [streams[n]];
    }
  }

  lemma EraseConfigKeepsPlaces(s: Store, i: nat)
    requires UniqueIds(s) && ConfigsOnPorts(s) && InitialsFixed(s) && PatchesOnConfigs(s) && i < |s.configs|
    requires forall a | a in s.patches :: !Names(a, s.configs[i].id)
    ensures
      var u := s.(configs := Erase(s.configs, i));
      UniqueIds(u) && ConfigsOnPorts(u) && InitialsFixed(u) && PatchesOnConfigs(u)
  {
    hide Erase;
    ConfigErased(s.configs, i);
    DistinctErase(ConfigIds(s.configs), i);
  }

  lemma EraseConfigKeepsStreams(s: Store, i: nat)
    requires StreamsOnConfigs(s) && i < |s.configs| && Count(s.streams, s.configs[i].id) == 0
    ensures StreamsOnConfigs(s.(configs := Erase(s.configs, i)))
  {
    var u := s.(configs := Erase(s.configs, i));
    CountZero(s.streams, s.configs[i].id);
    forall t | t in s.streams ensures OnMixPort(u, t) {
      assert OnMixPort(s, t);
      var d :| d in s.configs && d.id == t.configId && d.portId == t.portId;
      var j :| 0 <= j < |s.configs| && s.configs[j] == d;
      assert u.configs[if j < i then j else j - 1] == d;
    }
  }

  /** Dropping a config with no stream and no patch keeps the invariant. */
  lemma EraseConfigKeepsInv(s: Store, i: nat)
    requires Inv(s) && i < |s.configs|
    requires Count(s.streams, s.configs[i].id) == 0 && !HasKey(s.index, s.configs[i].id)
    ensures Inv(s.(configs := Erase(s.configs, i)))
  {
    hide UniqueIds, ConfigsOnPorts, InitialsFixed, PatchesOnConfigs, IndexExact, StreamsOnConfigs, SinksExclusive;
    hide Uses, SinksInto, Names, HasKey, Count, Erase;
    var u := s.(configs := Erase(s.configs, i));
    NotInIndex(s, i);
    EraseConfigKeepsPlaces(s, i);
    EraseConfigKeepsStreams(s, i);
    forall a | a in s.patches
      ensures forall key :: Uses(u.configs, a, key) <==> Uses(s.configs, a, key)
      ensures forall port :: SinksInto(u.configs, a, port) <==> SinksInto(s.configs, a, port)
    {
      ErasedConfig(s.configs, i, a);
    }
    SameUsesKeepsIndex(s, u);
  }

  lemma FoundInitial(s: Store, i: nat, j: nat)
    requires InitialsFixed(s) && i < |s.configs| && j < |s.initials| && s.configs[i].id == s.initials[j].id
    ensures SameLinks(s.configs, s.configs[i := s.initials[j]])
  {
  }

  lemma ResetConfigKeepsInv(s: Store, configId: int)
    requires Inv(s)
    ensures Inv(ResetAudioPortConfig(s, configId).0)
  {
    hide Inv, Count, HasKey, Erase;
    var i := Find(ConfigIds(s.configs), configId);
    if i < |s.configs| && Count(s.streams, configId) == 0 && !HasKey(s.index, configId) {
      var j := Find(ConfigIds(s.initials), configId);
      if j == |s.initials| {
        EraseConfigKeepsInv(s, i);
      } else {
        assert InitialsFixed(s) by { InitialsFixedIn(s); }
        FoundInitial(s, i, j);
        RelinkKeepsInv(s, s.configs[i := s.initials[j]]);
      }
    }
  }

  lemma InitialsFixedIn(s: Store)
    requires Inv(s)
    ensures InitialsFixed(s)
  {
  }

  lemma SuggestKeepsLinks(p: Port, start: Config, req: ConfigRequest, gainOk: bool)
    ensures
      var r := Suggest(p, start, req, gainOk);
      r.Success? ==> r.value.config.id == start.id && r.value.config.portId == start.portId
  {
  }

  lemma SetConfigKeepsInv(s: Store, req: ConfigRequest, gainOk: bool)
    requires Inv(s)
    ensures Inv(SetAudioPortConfig(s, req, gainOk).0)
  {
    hide Inv, Suggest, FindTarget;
    var found := FindTarget(s, req);
    if found.Some? {
      var target := found.value;
      SuggestKeepsLinks(target.port, target.start, req, gainOk);
      var r := Suggest(target.port, target.start, req, gainOk);
      var i :| 0 <= i < |s.ports| && s.ports[i] == target.port;
      assert PortIds(s.ports)[i] in PortIds(s.ports);
      if r.Success? && target.position < |s.configs| {
        RelinkKeepsInv(s, s.configs[target.position := r.value.config]);
      } else if r.Success? {
        AddConfigKeepsInv(s, r.value.config.(id := s.nextPortId));
      }
    }
  }

  // ---------- Streams keep the invariant ----------

  lemma CountPushed(streams: seq<Stream>, t: Stream, id: int)
    ensures Count(streams + [t], id) == Count(streams, id) + (if t.configId == id || t.portId == id then 1 else 0)
  {
    assert (streams + [t])[..|streams|] == streams;
  }

  lemma CountErased(streams: seq<Stream>, i: nat, id: int)
    requires i < |streams|
    ensures Count(Erase(streams, i), id) <= Count(streams, id)
  {
    var n := |streams| - 1;
    if i == n {
      assert Erase(streams, i) == streams[..n];
    } else {
      CountErased(streams[..n], i, id);
      assert Erase(streams, i) == Erase(streams[..n], i) + [streams[n]];
      CountPushed(Erase(streams[..n], i), streams[n], id);
    }
  }

  lemma CloseKeepsInv(s: Store, t: nat)
    requires Inv(s)
    ensures Inv(CloseStream(s, t))
  {
    hide Numbered, Names, InUse, SinksInto, HasSharedRoute, Claimed, Count, Erase;
    if t < |s.streams| {
      var u := CloseStream(s, t);
      assert StreamIds(u.streams) == Erase(StreamIds(s.streams), t) by { EraseStreamIds(s.streams, t); }
      DistinctErase(StreamIds(s.streams), t);
      forall x | x in u.streams ensures OnMixPort(u, x) {
        assert OnMixPort(s, x);
      }
      forall p | p in s.ports ensures WithinLimit(u, p) {
        assert WithinLimit(s, p);
        CountErased(s.streams, t, p.id);
      }
    }
  }

  lemma EraseStreamIds(streams: seq<Stream>, t: nat)
    requires t < |streams|
    ensures StreamIds(Erase(streams, t)) == Erase(StreamIds(streams), t)
  {
  }

  /** The stream's config id is nobody's port id, so it is not counted against another port. */
  lemma OpenedOnMixPort(s: Store, configId: int)
    requires Inv(s) && FindPortForNewStream(s, configId).Success?
    ensures
      var p := FindPortForNewStream(s, configId).value;
      && OnMixPort(s, Stream(configId, p.id))
      && p.ext.MixExt?
      && configId !in StreamIds(s.streams)
      && (p.ext.maxOpenStreamCount != 0 ==> Count(s.streams, p.id) < p.ext.maxOpenStreamCount)
      && (forall q | q in s.ports && q.id == p.id :: q == p)
  {
    hide IndexExact, PatchesOnConfigs, StreamsOnConfigs, StreamLimits, RoutesOnPorts, SinksExclusive, Find;
    var i := Find(ConfigIds(s.configs), configId);
    var j := Find(PortIds(s.ports), s.configs[i].portId);
    assert s.configs[i] in s.configs && s.ports[j] in s.ports;
    CountZero(s.streams, configId);
    assert configId !in StreamIds(s.streams);
    forall q | q in s.ports && q.id == s.ports[j].id ensures q == s.ports[j] {
      FoundPort(s.ports, q);
    }
  }

  lemma OpenKeepsInv(s: Store, configId: int, input: bool, prepared: Option<Status>)
    requires Inv(s)
    ensures Inv(OpenStream(s, configId, input, prepared).0)
  {
    hide Numbered, Names, InUse, SinksInto, HasSharedRoute, Claimed, Count, FindPortForNewStream;
    var (u, r) := OpenStream(s, configId, input, prepared);
    if r.Success? {
      var t := r.value;
      OpenedOnMixPort(s, configId);
      assert StreamIds(u.streams) == StreamIds(s.streams) + [configId];
      DistinctPush(StreamIds(s.streams), configId);
      forall x | x in u.streams ensures OnMixPort(u, x) {
        assert OnMixPort(s, x);
      }
      forall p | p in s.ports ensures WithinLimit(u, p) {
        assert WithinLimit(s, p);
        CountPushed(s.streams, t, p.id);
        PortListed(s.ports, p);
      }
    }
  }

  lemma PortListed(v: seq<Port>, p: Port)
    requires p in v
    ensures p.id in PortIds(v)
  {
    var i :| 0 <= i < |v| && v[i] == p;
    assert PortIds(v)[i] == p.id;
  }

  // ---------- What an applied config promises ----------

  /** A config made by a request is the request, under a fresh id, and its port supports it. */
  lemma CreatedConfigIsTheRequest(s: Store, req: ConfigRequest, gainOk: bool)
    requires req.id == 0 && SetAudioPortConfig(s, req, gainOk).1.Success?
    ensures
      var (u, r) := SetAudioPortConfig(s, req, gainOk);
      var (c, applied) := r.value;
      && (applied ==>
            && c.id == s.nextPortId && c.portId == req.portId && u.configs == s.configs + [c]
            && req.flags.Some? && req.format == Some(c.format)
            && req.channelMask == Some(c.channelMask) && req.sampleRate == Some(c.sampleRate)
            && (req.gain.Some? ==> c.gain == req.gain)
            && exists p | p in s.ports :: p.id == req.portId && p.flags == req.flags.value && Supported(p, c))
      && (!applied ==> u == s)
  {
    hide FindProfile, HasDynamicProfilesOnly, DefaultConfig;
    var target := FindTarget(s, req).value;
    assert target.port in s.ports && target.port.id == req.portId;
  }

  /**
   * An applied update keeps a mask or a rate the request leaves out, and does not check it: the
   * port supports the result exactly when it supports what was left out under the new format.
   */
  lemma UpdateSupported(s: Store, req: ConfigRequest, gainOk: bool)
    requires req.id != 0 && SetAudioPortConfig(s, req, gainOk).1.Success?
    requires SetAudioPortConfig(s, req, gainOk).1.value.1
    ensures
      var c := SetAudioPortConfig(s, req, gainOk).1.value.0;
      var Target(i, p, was) := FindTarget(s, req).value;
      && FormatSupported(p, c.format)
      && c.format == (if req.format.Some? then req.format.value else was.format)
      && (Supported(p, c) <==>
            && (req.channelMask.Some? || MaskSupported(p, c.format, was.channelMask))
            && (req.sampleRate.Some? || RateSupported(p, c.format, was.sampleRate)))
  {
    hide FindProfile, HasDynamicProfilesOnly, DefaultConfig, FindTarget, MaskSupported, RateSupported;
  }

  // ---------- When reset and open succeed ----------

  lemma {:induction false} CountsNone(streams: seq<Stream>, id: int)
    ensures Count(streams, id) == 0 <==> forall t | t in streams :: t.configId != id && t.portId != id
  {
    if |streams| > 0 {
      var n := |streams| - 1;
      CountsNone(streams[..n], id);
      assert streams == streams[..n] + [streams[n]];
    }
  }

  lemma KeyIsUse(s: Store, key: int)
    requires IndexExact(s)
    ensures HasKey(s.index, key) <==> exists a | a in s.patches :: Uses(s.configs, a, key)
  {
    hide Uses;
    if HasKey(s.index, key) {
      var e :| e in s.index && e.0 == key;
      assert (key, e.1) in s.index;
      assert InUse(s.configs, s.patches, key, e.1);
    }
    if a :| a in s.patches && Uses(s.configs, a, key) {
      assert InUse(s.configs, s.patches, key, a.id);
      assert (key, a.id) in s.index;
    }
  }

  /**
   * A reset succeeds exactly when the config is there, no stream is open on it and no patch uses its
   * id. It gives an initial config its initial value, removes any other, and touches nothing else.
   */
  lemma ResetConfigExactly(s: Store, configId: int)
    requires Inv(s)
    ensures
      var (u, r) := ResetAudioPortConfig(s, configId);
      && (r.Success? <==>
            && configId in ConfigIds(s.configs)
            && (forall t | t in s.streams :: t.configId != configId && t.portId != configId)
            && (forall a | a in s.patches :: !Uses(s.configs, a, configId)))
      && (!r.Success? ==> u == s)
      && (r.Success? ==>
            && u == s.(configs := u.configs)
            && (forall c :: c in u.configs <==>
                  || (c in s.configs && c.id != configId)
                  || (c in s.initials && c.id == configId)))
  {
    hide Uses, Count, HasKey, Erase, ConfigsOnPorts, RoutesOnPorts, PatchesOnConfigs, StreamsOnConfigs, StreamLimits;
    hide SinksExclusive, ClaimsAreReal, ConnectedAreDevices;
    CountsNone(s.streams, configId);
    KeyIsUse(s, configId);
    if ResetAudioPortConfig(s, configId).1.Success? {
      ResetContents(s, configId);
    }
  }

  lemma OthersDiffer(v: seq<Config>, i: nat, k: nat)
    requires Distinct(ConfigIds(v)) && i < |v| && k < |v|
    ensures v[k].id == v[i].id <==> k == i
  {
    assert ConfigIds(v)[k] == v[k].id && ConfigIds(v)[i] == v[i].id;
  }

  lemma ErasedExactly(v: seq<Config>, i: nat, c: Config)
    requires Distinct(ConfigIds(v)) && i < |v|
    ensures c in Erase(v, i) <==> c in v && c.id != v[i].id
  {
    var w := Erase(v, i);
    if c in w {
      var k :| 0 <= k < |w| && w[k] == c;
      OthersDiffer(v, i, if k < i then k else k + 1);
    }
    if c in v && c.id != v[i].id {
      var k :| 0 <= k < |v| && v[k] == c;
      assert w[if k < i then k else k - 1] == c;
    }
  }

  lemma ReplacedExactly(v: seq<Config>, i: nat, d: Config, c: Config)
    requires Distinct(ConfigIds(v)) && i < |v| && d.id == v[i].id
    ensures c in v[i := d] <==> c == d || (c in v && c.id != d.id)
  {
    var w := v[i := d];
    assert w[i] == d;
    if c in w {
      var k :| 0 <= k < |w| && w[k] == c;
      OthersDiffer(v, i, k);
    }
    if c in v && c.id != d.id {
      var k :| 0 <= k < |v| && v[k] == c;
      assert w[k] == c;
    }
  }

  lemma ResetContents(s: Store, configId: int)
    requires UniqueIds(s) && ResetAudioPortConfig(s, configId).1.Success?
    ensures forall c :: c in ResetAudioPortConfig(s, configId).0.configs <==>
      (c in s.configs && c.id != configId) || (c in s.initials && c.id == configId)
  {
    hide Count, HasKey, Numbered, Find, Erase, UniqueIds;
    NumberedDistinct(s);
    var i := Find(ConfigIds(s.configs), configId);
    var j := Find(ConfigIds(s.initials), configId);
    forall c
      ensures c in ResetAudioPortConfig(s, configId).0.configs <==>
        (c in s.configs && c.id != configId) || (c in s.initials && c.id == configId)
    {
      if c in s.initials && c.id == configId { FoundConfig(s.initials, c); }
      if j == |s.initials| {
        ErasedExactly(s.configs, i, c);
      } else {
        ReplacedExactly(s.configs, i, s.initials[j], c);
      }
    }
  }

  lemma NumberedDistinct(s: Store)
    requires UniqueIds(s)
    ensures Distinct(ConfigIds(s.configs)) && Distinct(ConfigIds(s.initials)) && Distinct(PortIds(s.ports))
  {
  }

  /**
   * A stream opens exactly when its config is one of a mix port of that direction, has no stream yet,
   * and the port is below its limit, provided the stream itself can be made.
   */
  lemma OpensExactly(s: Store, configId: int, input: bool, prepared: Option<Status>)
    requires Inv(s)
    ensures
      var (u, r) := OpenStream(s, configId, input, prepared);
      && (r.Success? <==>
            && prepared.None?
            && (forall t | t in s.streams :: t.configId != configId && t.portId != configId)
            && (exists c, p | c in s.configs && p in s.ports :: MayOpen(s, c, p, configId, input)))
      && (r.Success? ==> r.value.configId == configId && u == s.(streams := s.streams + [r.value]))
      && (!r.Success? ==> u == s)
  {
    hide Count, Find, IndexExact, RoutesOnPorts, PatchesOnConfigs, StreamsOnConfigs, StreamLimits;
    hide SinksExclusive, ClaimsAreReal, ConnectedAreDevices, InitialsFixed;
    CountsNone(s.streams, configId);
    forall c, p | c in s.configs && p in s.ports && MayOpen(s, c, p, configId, input)
      ensures FindPortForNewStream(s, configId) == Success(p) || Count(s.streams, configId) != 0
    {
      FoundConfig(s.configs, c);
      FoundPort(s.ports, p);
    }
    var i := Find(ConfigIds(s.configs), configId);
    if i < |s.configs| {
      var j := Find(PortIds(s.ports), s.configs[i].portId);
      assert s.configs[i] in s.configs && (j < |s.ports| ==> s.ports[j] in s.ports);
      if OpenStream(s, configId, input, prepared).1.Success? {
        assert MayOpen(s, s.configs[i], s.ports[j], configId, input);
      }
    }
  }

  predicate MayOpen(s: Store, c: Config, p: Port, configId: int, input: bool)
  {
    && c.id == configId && c.portId == p.id && p.id != configId
    && p.ext.MixExt? && p.flags.Input? == input
    && (p.ext.maxOpenStreamCount == 0 || Count(s.streams, p.id) < p.ext.maxOpenStreamCount)
  }
}
