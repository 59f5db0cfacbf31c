/**
 * What the audio module's calls come to, said in terms of the tables and the request alone: who is granted,
 * what is stored, what a connected port looks like, and when a call fails.
 */
module AudioLaws {
  import opened Basics
  import opened AudioStores
  import opened AudioConfigs
  import opened AudioPatches
  import opened AudioDevices

  // ---------- Patches ----------

  /** A route into `sink` from the port of one of the configs, exclusive or not. */
  ghost predicate Leads(s: Store, ids: seq<int>, sink: int, exclusive: bool)
  {
    exists r, c | r in s.routes && c in s.configs ::
      c.id in ids && c.portId in r.sources && r.sink == sink && r.isExclusive == exclusive
  }

  ghost predicate HasConfig(s: Store, id: int)
  {
    exists c | c in s.configs :: c.id == id
  }

  /** Another patch has an end on the port, or on the config that shares the port's id. */
  ghost predicate TakenByOther(s: Store, port: int, patchId: int)
  {
    exists b, c | b in s.patches && c in s.configs ::
      b.id != patchId && (c.id in b.sources || c.id in b.sinks) && (c.portId == port || c.id == port)
  }

  ghost predicate NoRepeats(ids: seq<int>)
  {
    forall i, j | 0 <= i < |ids| && 0 <= j < |ids| && ids[i] == ids[j] :: i == j
  }

  /** The request makes sense: both sides are there, without repeats, and every sink can be reached. */
  ghost predicate Sensible(s: Store, req: Patch)
  {
    && req.sources != [] && req.sinks != [] && NoRepeats(req.sources) && NoRepeats(req.sinks)
    && (forall id | id in req.sources || id in req.sinks :: HasConfig(s, id))
    && (forall c | c in s.configs && c.id in req.sinks ::
          Leads(s, req.sources, c.portId, true) || Leads(s, req.sources, c.portId, false))
  }

  /** No port that the sources reach over exclusive routes only has another user. */
  ghost predicate NobodyInTheWay(s: Store, req: Patch)
  {
    forall sink: int | Leads(s, req.sources, sink, true) && !Leads(s, req.sources, sink, false) ::
      !TakenByOther(s, sink, req.id)
  }

  lemma LeadsMeans(s: Store, ids: seq<int>, sink: int)
    ensures Routed(s, ids, sink) <==> Leads(s, ids, sink, true) || Leads(s, ids, sink, false)
    ensures Shareable(s, ids, sink) <==> Leads(s, ids, sink, false)
  {
    if r :| r in s.routes && r.sink == sink && LeadsFrom(s.configs, ids, r) {
      var c :| c in s.configs && c.id in ids && c.portId in r.sources;
    }
    if r :| r in s.routes && r.sink == sink && LeadsFrom(s.configs, ids, r) && !r.isExclusive {
      var c :| c in s.configs && c.id in ids && c.portId in r.sources;
    }
  }

  lemma HasConfigMeans(s: Store, id: int)
    ensures HasConfig(s, id) <==> id in ConfigIds(s.configs)
  {
    if c :| c in s.configs && c.id == id {
      var i :| 0 <= i < |s.configs| && s.configs[i] == c;
      assert ConfigIds(s.configs)[i] == id;
    }
    if id in ConfigIds(s.configs) {
      var i :| 0 <= i < |s.configs| && ConfigIds(s.configs)[i] == id;
      assert s.configs[i] in s.configs;
    }
  }

  lemma NoRepeatsMeans(ids: seq<int>)
    ensures NoRepeats(ids) <==> Distinct(ids)
  {
  }

  lemma SensibleMeans(s: Store, req: Patch)
    ensures Sensible(s, req) <==> AudioPatches.WellFormed(s, req)
  {
    hide HasConfig, Leads, Routed, NoRepeats, Distinct;
    NoRepeatsMeans(req.sources);
    NoRepeatsMeans(req.sinks);
    forall id ensures HasConfig(s, id) <==> id in ConfigIds(s.configs) { HasConfigMeans(s, id); }
    forall sink ensures Routed(s, req.sources, sink) <==> Leads(s, req.sources, sink, true) || Leads(s, req.sources, sink, false) {
      LeadsMeans(s, req.sources, sink);
    }
  }

  lemma TakenMeansUsed(s: Store, port: int, patchId: int)
    ensures TakenByOther(s, port, patchId) <==> exists b | b in s.patches :: b.id != patchId && Uses(s.configs, b, port)
  {
    if b :| b in s.patches && b.id != patchId && Uses(s.configs, b, port) {
      var c :| c in s.configs && Names(b, c.id) && (port == c.id || port == c.portId);
    }
    if TakenByOther(s, port, patchId) {
      var b, c :| b in s.patches && c in s.configs && b.id != patchId && (c.id in b.sources || c.id in b.sinks) &&
        (c.portId == port || c.id == port);
      assert Uses(s.configs, b, port);
    }
  }

  lemma InTheWayMeans(s: Store, req: Patch)
    ensures NobodyInTheWay(s, req) <==> forall r, b :: !BlockedBy(s, req, r, b)
  {
    hide Leads, TakenByOther, Uses, Shareable, LeadsFrom;
    forall sink
      ensures Shareable(s, req.sources, sink) <==> Leads(s, req.sources, sink, false)
      ensures Routed(s, req.sources, sink) <==> Leads(s, req.sources, sink, true) || Leads(s, req.sources, sink, false)
      ensures TakenByOther(s, sink, req.id) <==> exists b | b in s.patches :: b.id != req.id && Uses(s.configs, b, sink)
    {
      LeadsMeans(s, req.sources, sink);
      TakenMeansUsed(s, sink, req.id);
    }
    if r, b :| BlockedBy(s, req, r, b) {
      assert Routed(s, req.sources, r.sink);
    }
    if sink: int :| Leads(s, req.sources, sink, true) && !Leads(s, req.sources, sink, false) && TakenByOther(s, sink, req.id) {
      var r :| r in s.routes && r.sink == sink && LeadsFrom(s.configs, req.sources, r);
      var b :| b in s.patches && b.id != req.id && Uses(s.configs, b, sink);
      assert BlockedBy(s, req, r, b);
    }
  }

  /**
   * In every consistent state, a patch is granted exactly when the request is sensible, the endpoints match,
   * the patch to update exists, nobody is in the way, a buffer size can be found and the streams agree. What
   * is stored is the request with those results, under its own id or the next one; a refusal because of
   * another patch or for want of a buffer size is an illegal state.
   */
  lemma GrantedExactly(s: Store, req: Patch, h: Hooks)
    requires Inv(s)
    ensures
      var (u, r) := SetAudioPatch(s, req, h);
      var known := req.id == 0 || exists a | a in s.patches :: a.id == req.id;
      && (r.Success? <==>
            && Sensible(s, req) && h.endpoints.None? && known && NobodyInTheWay(s, req)
            && h.bufferFrames.Some? && h.streams.None?)
      && (r.Success? ==>
            && r.value.id == (if req.id != 0 then req.id else s.nextPatchId)
            && r.value.sources == req.sources && r.value.sinks == req.sinks
            && r.value.minimumFrames == h.bufferFrames.value
            && r.value.latencies == seq(|req.sinks|, i => h.latency)
            && u.nextPatchId == s.nextPatchId + (if req.id == 0 then 1 else 0))
      && (!Sensible(s, req) ==> r == Failure(IllegalArgument))
      && (Sensible(s, req) && h.endpoints.None? && known && (!NobodyInTheWay(s, req) || h.bufferFrames.None?) ==>
            u == s && r == Failure(IllegalState))
      && (Sensible(s, req) && h.endpoints.Some? ==> u == s && r == Failure(h.endpoints.value))
      && (req.id == 0 && Refusal(s, req, h).None? && h.streams.Some? ==>
            u == s.(nextPatchId := s.nextPatchId + 1) && r == Failure(h.streams.value))
  {
    hide Inv, Sensible, NobodyInTheWay, AudioPatches.WellFormed, ExclusiveInUse, CleanUpPatch, RegisterPatch, Find;
    SensibleMeans(s, req);
    InTheWayMeans(s, req);
    KnownPatch(s, req.id);
    if Sensible(s, req) {
      var fine := Hooks(None, Some(0), 0, None);
      AcceptedExactly(s, req, fine);
      assert SetAudioPatch(s, req, fine).1.Success? <==> Refusal(s, req, fine).None?;
    }
  }

  lemma KnownPatch(s: Store, patchId: int)
    ensures patchId in PatchIds(s.patches) <==> exists a | a in s.patches :: a.id == patchId
  {
    if a :| a in s.patches && a.id == patchId {
      var i :| 0 <= i < |s.patches| && s.patches[i] == a;
      assert PatchIds(s.patches)[i] == patchId;
    }
    if patchId in PatchIds(s.patches) {
      var i :| 0 <= i < |s.patches| && PatchIds(s.patches)[i] == patchId;
      assert s.patches[i] in s.patches;
    }
  }

  // ---------- Port configs ----------

  /** A profile with a format, a channel mask and a sample rate of its own. */
  ghost predicate Real(p: Profile)
  {
    p.format != 0 && (exists m | m in p.channelMasks :: m != 0) && (exists r | r in p.sampleRates :: r != 0)
  }

  lemma RealMeans(p: Profile)
    ensures Real(p) <==> !IsDynamic(p)
  {
  }

  /** The port is a device's, and none of its profiles is real. */
  ghost predicate LeftToDevice(p: Port)
  {
    p.ext.DeviceExt? && forall profile | profile in p.profiles :: !Real(profile)
  }

  lemma LeftToDeviceMeans(p: Port)
    ensures LeftToDevice(p) <==> AllowsDynamic(p)
  {
    hide Real, IsDynamic;
    forall profile | profile in p.profiles ensures Real(profile) <==> !IsDynamic(profile) { RealMeans(profile); }
  }

  /** The first profile of the port with the format. */
  ghost predicate FirstWith(p: Port, format: int, i: nat)
  {
    i < |p.profiles| && p.profiles[i].format == format && forall j | 0 <= j < i :: p.profiles[j].format != format
  }

  lemma {:induction false} FirstWithMeans(profiles: seq<Profile>, format: int, i: nat)
    requires i < |profiles| && profiles[i].format == format && forall j | 0 <= j < i :: profiles[j].format != format
    ensures FindProfile(profiles, format) == Some(profiles[i])
  {
    if i > 0 {
      assert profiles[0].format != format;
      FirstWithMeans(profiles[1..], format, i - 1);
    }
  }

  /**
   * What a port supports: the masks and rates of its first profile with the format; and, for a port that leaves
   * its configuration to the device, the default values.
   */
  lemma SupportedMeans(p: Port, c: Config, i: nat)
    requires FirstWith(p, c.format, i) && !LeftToDevice(p)
    ensures Supported(p, c) <==> c.channelMask in p.profiles[i].channelMasks && c.sampleRate in p.profiles[i].sampleRates
  {
    hide AllowsDynamic, LeftToDevice;
    LeftToDeviceMeans(p);
    FirstWithMeans(p.profiles, c.format, i);
  }

  lemma UnlistedFormat(p: Port, format: int)
    ensures (forall profile | profile in p.profiles :: profile.format != format) ==>
      (FormatSupported(p, format) <==> format == 0 && LeftToDevice(p))
    ensures (exists profile | profile in p.profiles :: profile.format == format) ==> FormatSupported(p, format)
  {
    hide AllowsDynamic, LeftToDevice;
    LeftToDeviceMeans(p);
  }

  lemma DynamicSupported(p: Port, c: Config)
    requires LeftToDevice(p) && c.format == 0
    ensures Supported(p, c) <==> c.channelMask == 0 && c.sampleRate == 0
  {
    LeftToDeviceMeans(p);
  }

  /** The default config: the first values of the first real profile, or the device's choice. */
  lemma DefaultMeans(p: Port, i: nat)
    requires i <= |p.profiles| && forall j | 0 <= j < i :: !Real(p.profiles[j])
    ensures i < |p.profiles| && Real(p.profiles[i]) ==>
      DefaultConfig(p) == Some(Config(0, p.id, p.profiles[i].format, p.profiles[i].channelMasks[0],
                                      p.profiles[i].sampleRates[0], p.flags, None, p.ext))
    ensures i == |p.profiles| && p.ext.DeviceExt? ==> DefaultConfig(p) == Some(Config(0, p.id, 0, 0, 0, p.flags, None, p.ext))
    ensures i == |p.profiles| && !p.ext.DeviceExt? ==> DefaultConfig(p) == None
  {
    hide Real, IsDynamic;
    forall j | 0 <= j < |p.profiles| ensures Real(p.profiles[j]) <==> !IsDynamic(p.profiles[j]) { RealMeans(p.profiles[j]); }
    FirstRealMeans(p.profiles, i);
  }

  lemma {:induction false} FirstRealMeans(profiles: seq<Profile>, i: nat)
    requires i <= |profiles| && forall j | 0 <= j < i :: IsDynamic(profiles[j])
    ensures i < |profiles| && !IsDynamic(profiles[i]) ==> FirstStatic(profiles) == Some(profiles[i])
    ensures i == |profiles| ==> FirstStatic(profiles) == None
  {
    hide IsDynamic;
    if i > 0 {
      assert IsDynamic(profiles[0]);
      FirstRealMeans(profiles[1..], i - 1);
    }
  }

  /** A requested value is taken over if it is there and fits, and the old one kept otherwise. */
  function Taken(requested: Option<int>, fits: bool, kept: int): int
  {
    if requested.Some? && fits then requested.value else kept
  }

  /**
   * The suggestion, field by field: what is asked for and supported is taken over, everything else is kept;
   * of a mix port's extension only the handle and the use case are the client's. The request is valid when
   * nothing in it was refused, and full when it leaves none of the four main fields out.
   */
  lemma SuggestionMeans(p: Port, start: Config, req: ConfigRequest, gainOk: bool)
    ensures
      var r := Suggest(p, start, req, gainOk);
      var formatFits := req.format.Some? && FormatSupported(p, req.format.value);
      var format := Taken(req.format, formatFits, start.format);
      && !r.Aborted?
      && (r.Success? <==> FormatSupported(p, format) && (req.gain.Some? ==> gainOk))
      && (r.Failure? ==> r.status == IllegalArgument)
      && (r.Success? ==>
            var maskFits := req.channelMask.Some? && MaskSupported(p, format, req.channelMask.value);
            var rateFits := req.sampleRate.Some? && RateSupported(p, format, req.sampleRate.value);
            var c := r.value.config;
            && c.format == format
            && c.channelMask == Taken(req.channelMask, maskFits, start.channelMask)
            && c.sampleRate == Taken(req.sampleRate, rateFits, start.sampleRate)
            && c.gain == (if req.gain.Some? then req.gain else start.gain)
            && c.id == start.id && c.portId == start.portId && c.flags == start.flags
            && (if req.ext.MixExt? && start.ext.MixExt?
                then c.ext == MixExt(start.ext.maxOpenStreamCount, req.ext.handle, req.ext.usecase)
                else c.ext == start.ext)
            && (r.value.valid <==>
                  && (req.flags.Some? ==> req.flags.value == p.flags)
                  && (req.format.Some? ==> formatFits)
                  && (req.channelMask.Some? ==> maskFits)
                  && (req.sampleRate.Some? ==> rateFits)
                  && (|| req.ext.Unspecified?
                      || (req.ext.MixExt? && start.ext.MixExt?)
                      || (req.ext.DeviceExt? && start.ext.DeviceExt?)
                      || (req.ext.SessionExt? && start.ext.SessionExt?)))
            && (r.value.full <==>
                  req.flags.Some? && req.format.Some? && req.channelMask.Some? && req.sampleRate.Some?))
  {
    hide FormatSupported, MaskSupported, RateSupported;
  }

  /** The port a request is about: that of the config it updates, or the one it names. */
  ghost predicate About(s: Store, req: ConfigRequest, p: Port, start: Config)
  {
    && p in s.ports && (NeedsConnection(p) ==> p.id in s.connected)
    && (if req.id != 0 then start in s.configs && start.id == req.id && start.portId == p.id
        else p.id == req.portId && DefaultConfig(p) == Some(start))
  }

  lemma AboutMeans(s: Store, req: ConfigRequest, p: Port, start: Config)
    requires Inv(s)
    ensures About(s, req, p, start) <==>
      FindTarget(s, req).Some? && FindTarget(s, req).value.port == p && FindTarget(s, req).value.start == start
  {
    hide IndexExact, SinksExclusive, RoutesOnPorts, StreamsOnConfigs, PatchesOnConfigs, ConnectedAreDevices, StreamLimits;
    hide DefaultConfig, Find, ClaimsAreReal;
    if About(s, req, p, start) {
      FoundPort(s.ports, p);
      PortIdPositive(s, p);
      if req.id != 0 { FoundConfig(s.configs, start); }
    }
    if FindTarget(s, req).Some? {
      var target := FindTarget(s, req).value;
      if req.id != 0 { assert s.configs[target.position] in s.configs; }
    }
  }

  lemma PortIdPositive(s: Store, p: Port)
    requires Inv(s) && p in s.ports
    ensures p.id > 0
  {
    hide IndexExact, SinksExclusive, RoutesOnPorts, StreamsOnConfigs, PatchesOnConfigs, ConnectedAreDevices, StreamLimits;
    PortKnown(s, p);
  }

  /**
   * Setting a config answers with the suggestion for the port it is about. It is applied when it is valid
   * and updates a config or is full, and then that config alone is replaced, or added under the next id;
   * otherwise nothing changes.
   */
  lemma SetConfigExactly(s: Store, req: ConfigRequest, gainOk: bool, p: Port, start: Config)
    requires Inv(s) && About(s, req, p, start) && Suggest(p, start, req, gainOk).Success?
    ensures
      var (u, r) := SetAudioPortConfig(s, req, gainOk);
      var so := Suggest(p, start, req, gainOk).value;
      var applied := so.valid && (req.id != 0 || so.full);
      && r.Success? && r.value.1 == applied
      && r.value.0 == (if applied && req.id == 0 then so.config.(id := s.nextPortId) else so.config)
      && (!applied ==> u == s)
      && (applied && req.id == 0 ==> u == s.(configs := s.configs + [r.value.0], nextPortId := s.nextPortId + 1))
      && (applied && req.id != 0 ==>
            && u == s.(configs := u.configs) && |u.configs| == |s.configs|
            && forall i | 0 <= i < |s.configs| ::
                 u.configs[i] == if s.configs[i].id == req.id then so.config else s.configs[i])
  {
    hide Suggest, FindTarget, About;
    AboutMeans(s, req, p, start);
    var target := FindTarget(s, req).value;
    InitialsFixedIn(s);
    if req.id != 0 {
      DistinctConfigIds(s);
      forall i | 0 <= i < |s.configs| ensures s.configs[i].id == req.id <==> i == target.position {
        TargetPlace(s, req);
        OthersDiffer(s.configs, target.position, i);
      }
    }
  }

  lemma DistinctConfigIds(s: Store)
    requires Inv(s)
    ensures Distinct(ConfigIds(s.configs))
  {
  }

  lemma TargetPlace(s: Store, req: ConfigRequest)
    requires req.id != 0 && FindTarget(s, req).Some?
    ensures
      var i := FindTarget(s, req).value.position;
      i < |s.configs| && s.configs[i].id == req.id
  {
  }

  /** A request that is about nothing, or whose suggestion fails, changes nothing. */
  lemma SetConfigFails(s: Store, req: ConfigRequest, gainOk: bool)
    requires Inv(s)
    requires forall p, start :: About(s, req, p, start) ==> !Suggest(p, start, req, gainOk).Success?
    ensures SetAudioPortConfig(s, req, gainOk) == (s, Failure(IllegalArgument))
  {
    hide Suggest, FindTarget, About;
    if FindTarget(s, req).Some? {
      var target := FindTarget(s, req).value;
      AboutMeans(s, req, target.port, target.start);
      SuggestionMeans(target.port, target.start, req, gainOk);
    }
  }

  // ---------- External devices ----------

  /** A port waits for external devices, and may be used as a template for one. */
  ghost predicate IsTemplate(s: Store, p: Port)
  {
    p in s.ports && p.ext.DeviceExt? && p.ext.device.connection != "" && p.id !in s.connected
  }

  /** A connected port stands for the same device. */
  ghost predicate Present(s: Store, device: Device)
  {
    exists q | q in s.ports :: q.id in s.connected && q.ext == DeviceExt(device)
  }

  /** The port at the other end of one of the template's routes. */
  ghost predicate Reaches(s: Store, template: int, x: int)
  {
    exists r | r in s.routes ::
      (r.sink == template && x in r.sources) || (r.sink != template && template in r.sources && x == r.sink)
  }

  ghost predicate AllUnreal(profiles: seq<Profile>)
  {
    forall profile | profile in profiles :: !Real(profile)
  }

  lemma AllUnrealMeans(profiles: seq<Profile>)
    ensures AllUnreal(profiles) <==> HasDynamicProfilesOnly(profiles)
  {
    hide Real, IsDynamic;
    forall profile | profile in profiles ensures Real(profile) <==> !IsDynamic(profile) { RealMeans(profile); }
  }

  lemma {:induction false} RoutableMeans(routes: seq<Route>, template: int, x: int)
    ensures x in Routable(routes, template) <==>
      exists r | r in routes :: (r.sink == template && x in r.sources) || (r.sink != template && template in r.sources && x == r.sink)
  {
    if |routes| > 0 {
      var n := |routes| - 1;
      RoutableMeans(routes[..n], template, x);
      assert routes == routes[..n] + [routes[n]];
    }
  }

  lemma PresentMeans(s: Store, device: Device)
    requires Inv(s)
    ensures Present(s, device) <==> exists k | k in s.connected :: SameDevice(s.ports, k, device)
  {
    hide IndexExact, SinksExclusive, RoutesOnPorts, StreamsOnConfigs, PatchesOnConfigs, ConfigsOnPorts, InitialsFixed, StreamLimits;
    if q :| q in s.ports && q.id in s.connected && q.ext == DeviceExt(device) {
      FoundPort(s.ports, q);
      assert SameDevice(s.ports, q.id, device);
    }
    if k :| k in s.connected && SameDevice(s.ports, k, device) {
      assert s.ports[Find(PortIds(s.ports), k)] in s.ports;
    }
  }

  /** The profiles a connection starts with: what the hook found, or in a simulation the template's own, or
      those kept for it when it has none. */
  ghost predicate StartsWith(s: Store, template: Port, simulate: bool, population: Population, profiles: seq<Profile>)
  {
    if !simulate then population == Populated(profiles)
    else if AllUnreal(template.profiles) && template.id in s.connectedProfiles then
      profiles == s.connectedProfiles[template.id]
    else profiles == template.profiles
  }

  /** Two dynamic ends would have nothing to agree on. */
  ghost predicate Undecided(s: Store, template: int, profiles: seq<Profile>)
  {
    AllUnreal(profiles) && exists q | q in s.ports :: Reaches(s, template, q.id) && AllUnreal(q.profiles)
  }

  lemma RefusedMeans(s: Store, req: DeviceRequest, template: Port)
    requires Inv(s) && template in s.ports && template.id == req.templateId
    ensures Refused(s, req).None? <==>
      IsTemplate(s, template) && !Present(s, template.ext.device.(address := req.address))
  {
    hide Inv, SameDevice;
    DevicesAreThere(s);
    FoundTemplate(s, template);
    if template.ext.DeviceExt? { PresentMeans(s, template.ext.device.(address := req.address)); }
  }

  lemma FoundTemplate(s: Store, template: Port)
    requires Inv(s) && template in s.ports
    ensures Find(PortIds(s.ports), template.id) < |s.ports| && s.ports[Find(PortIds(s.ports), template.id)] == template
  {
    hide IndexExact, SinksExclusive, RoutesOnPorts, StreamsOnConfigs, PatchesOnConfigs, ConfigsOnPorts, InitialsFixed, StreamLimits;
    FoundPort(s.ports, template);
  }

  lemma DevicesAreThere(s: Store)
    requires Inv(s)
    ensures forall k | k in s.connected :: IsDevice(s.ports, k)
  {
    hide IndexExact, SinksExclusive, RoutesOnPorts, StreamsOnConfigs, PatchesOnConfigs, ConfigsOnPorts, InitialsFixed, StreamLimits;
    forall k | k in s.connected ensures IsDevice(s.ports, k) {
      var p :| p in s.ports && p.id == k && p.ext.DeviceExt?;
      FoundPort(s.ports, p);
    }
  }

  /**
   * A device is connected exactly when its template waits for one, the device is not there already, its
   * profiles can be had, and somebody can tell what they are. The connected port is the template under the
   * next id, with the device's address and descriptors and those profiles.
   */
  lemma ConnectsExactly(s: Store, req: DeviceRequest, simulate: bool, population: Population, template: Port)
    requires Inv(s) && template in s.ports && template.id == req.templateId
    ensures
      var (u, r) := ConnectExternalDevice(s, req, simulate, population);
      && (r.Success? <==>
            && IsTemplate(s, template) && !Present(s, template.ext.device.(address := req.address))
            && exists profiles :: StartsWith(s, template, simulate, population, profiles) && !Undecided(s, template.id, profiles))
      && (r.Success? ==>
            && StartsWith(s, template, simulate, population, r.value.profiles)
            && r.value == Port(s.nextPortId, template.flags, r.value.profiles,
                               DeviceExt(template.ext.device.(address := req.address)), req.descriptors)
            && r.value.id in u.connected && u.nextPortId == s.nextPortId + 1)
      && (!r.Success? ==>
            if IsTemplate(s, template) && !Present(s, template.ext.device.(address := req.address)) then
              && u == s.(nextPortId := s.nextPortId + 1)
              && r == Failure(if !simulate && population.NotPopulated? then population.status else IllegalState)
            else u == s)
  {
    hide Inv, Refused, Undecided, IsTemplate, Present, PlugIn, Stuff, Routable, HasDynamicRoutable;
    RefusedMeans(s, req, template);
    FoundTemplate(s, template);
    AllUnrealMeans(template.profiles);
    TemplateIsDevice(s, template);
    if template.ext.DeviceExt? && IsTemplate(s, template) && !Present(s, template.ext.device.(address := req.address)) {
      var got := ConnectedProfiles(s, template, simulate, population);
      if got.Success? {
        UndecidedMeans(s, template.id, got.value);
        PlugsIn(s, req, template, got.value);
        hide AllUnreal, HasDynamicProfilesOnly;
        assert StartsWith(s, template, simulate, population, got.value);
      }
    }
  }

  lemma TemplateIsDevice(s: Store, p: Port)
    ensures IsTemplate(s, p) ==> p.ext.DeviceExt?
  {
  }

  lemma UndecidedMeans(s: Store, template: int, profiles: seq<Profile>)
    ensures Undecided(s, template, profiles) <==>
      HasDynamicProfilesOnly(profiles) && HasDynamicRoutable(s.ports, Routable(s.routes, template))
  {
    hide Routable, AllUnreal, HasDynamicProfilesOnly, Reaches;
    AllUnrealMeans(profiles);
    forall q | q in s.ports
      ensures AllUnreal(q.profiles) <==> HasDynamicProfilesOnly(q.profiles)
      ensures Reaches(s, template, q.id) <==> q.id in Routable(s.routes, template)
    {
      AllUnrealMeans(q.profiles);
      ReachesMeans(s, template, q.id);
    }
  }

  lemma ReachesMeans(s: Store, template: int, x: int)
    ensures Reaches(s, template, x) <==> x in Routable(s.routes, template)
  {
    hide Routable;
    RoutableMeans(s.routes, template, x);
  }

  lemma PlugsIn(s: Store, req: DeviceRequest, template: Port, profiles: seq<Profile>)
    requires template.ext.DeviceExt?
    ensures
      var p := Candidate(template, req).(id := s.nextPortId, profiles := profiles);
      var u := PlugIn(s, req.templateId, p);
      var w := Stuff(u, p.id, Routable(s.routes, req.templateId), profiles);
      && p == Port(s.nextPortId, template.flags, profiles, DeviceExt(template.ext.device.(address := req.address)), req.descriptors)
      && p.id in u.connected && u.nextPortId == s.nextPortId + 1
      && p.id in w.connected && w.nextPortId == s.nextPortId + 1
  {
    hide AddSources, CopiedRoutes, Routable, HasDynamicProfilesOnly;
  }

  /**
   * What a connection does to the other ports: those it reaches that had no real profile get the device's,
   * if it has any, and all else stays. It claims those, and the ones it reaches that were claimed before.
   */
  lemma ConnectFills(s: Store, req: DeviceRequest, simulate: bool, population: Population, i: nat)
    requires Inv(s) && i < |s.ports| && ConnectExternalDevice(s, req, simulate, population).1.Success?
    ensures
      var (u, r) := ConnectExternalDevice(s, req, simulate, population);
      var q := s.ports[i];
      var reached := Reaches(s, req.templateId, q.id) && !AllUnreal(r.value.profiles);
      && |u.ports| == |s.ports| + 1 && u.ports[|s.ports|] == r.value
      && u.ports[i] == (if reached && AllUnreal(q.profiles) then q.(profiles := r.value.profiles) else q)
      && (q.id in u.connected[r.value.id] <==>
            reached && (AllUnreal(q.profiles) || exists k | k in s.connected :: q.id in s.connected[k]))
  {
    hide Inv, Refused, ConnectedProfiles, HasDynamicRoutable, Routable, HasDynamicProfilesOnly, AllUnreal, AddSources, CopiedRoutes;
    var (u, r) := ConnectExternalDevice(s, req, simulate, population);
    var q := s.ports[i];
    ReachesMeans(s, req.templateId, q.id);
    AllUnrealMeans(q.profiles);
    AllUnrealMeans(r.value.profiles);
    FreshId(s, q, req.templateId);
    var plugged := PlugIn(s, req.templateId, r.value);
    assert plugged.ports[i] == q && q in plugged.ports;
    forall p | p in plugged.ports && p.id == q.id ensures p == q {
      if p != r.value { OnePortOf(s, p, q); }
    }
    SameClaims(s, q.id);
  }

  lemma SameClaims(s: Store, id: int)
    requires Inv(s)
    ensures Claimed(s.connected[s.nextPortId := {}], id) <==> exists k | k in s.connected :: id in s.connected[k]
  {
    hide IndexExact, SinksExclusive, RoutesOnPorts, StreamsOnConfigs, PatchesOnConfigs, ConfigsOnPorts, InitialsFixed, StreamLimits;
    if s.nextPortId in s.connected {
      var p :| p in s.ports && p.id == s.nextPortId;
      PortKnown(s, p);
    }
    var after := s.connected[s.nextPortId := {}];
    if k :| k in s.connected && id in s.connected[k] { assert k in after && id in after[k]; }
    if k :| k in after && id in after[k] { assert k in s.connected && id in s.connected[k]; }
  }

  lemma FreshId(s: Store, q: Port, template: int)
    requires Inv(s) && q in s.ports
    ensures q.id < s.nextPortId && s.nextPortId !in Routable(s.routes, template)
  {
    hide IndexExact, SinksExclusive, StreamsOnConfigs, PatchesOnConfigs, ConfigsOnPorts, InitialsFixed, StreamLimits, Routable;
    PortKnown(s, q);
    NumberedBelow(PortIds(s.ports), s.nextPortId);
  }

  lemma OnePortOf(s: Store, p: Port, q: Port)
    requires Inv(s) && p in s.ports && q in s.ports && p.id == q.id
    ensures p == q
  {
    hide IndexExact, SinksExclusive, RoutesOnPorts, StreamsOnConfigs, PatchesOnConfigs, ConfigsOnPorts, InitialsFixed, StreamLimits;
    FoundPort(s.ports, p);
    FoundPort(s.ports, q);
  }

  /**
   * The routes after a connection: each old one, with the new port added last to its sources where the
   * template was one; and a copy of each one into the template, leading to the new port instead.
   */
  lemma ConnectRoutes(s: Store, req: DeviceRequest, simulate: bool, population: Population)
    requires ConnectExternalDevice(s, req, simulate, population).1.Success?
    ensures
      var (u, r) := ConnectExternalDevice(s, req, simulate, population);
      var t, id := req.templateId, r.value.id;
      && |s.routes| <= |u.routes|
      && (forall i | 0 <= i < |s.routes| ::
            u.routes[i] == if s.routes[i].sink != t && t in s.routes[i].sources
                           then Route(s.routes[i].sources + [id], s.routes[i].sink, s.routes[i].isExclusive)
                           else s.routes[i])
      && (forall q :: q in u.routes[|s.routes|..] <==> q.sink == id && Route(q.sources, t, q.isExclusive) in s.routes)
  {
    hide Refused, ConnectedProfiles, HasDynamicRoutable, Routable, HasDynamicProfilesOnly, CopiedRoutes, Stuffed, NewClaims;
    var (u, r) := ConnectExternalDevice(s, req, simulate, population);
    var t, id := req.templateId, r.value.id;
    var added := AddSources(s.routes, t, id);
    assert u.routes == added + CopiedRoutes(s.routes, t, id);
    assert u.routes[|s.routes|..] == CopiedRoutes(s.routes, t, id);
    forall i | 0 <= i < |s.routes| ensures u.routes[i] == AddSource(s.routes[i], t, id) {}
    forall q ensures q in CopiedRoutes(s.routes, t, id) <==> q.sink == id && Route(q.sources, t, q.isExclusive) in s.routes {
      CopiesMean(s.routes, t, id, q);
    }
  }

  lemma {:induction false} CopiesMean(routes: seq<Route>, template: int, port: int, q: Route)
    ensures q in CopiedRoutes(routes, template, port) <==> q.sink == port && Route(q.sources, template, q.isExclusive) in routes
  {
    if |routes| > 0 {
      var n := |routes| - 1;
      CopiesMean(routes[..n], template, port, q);
      assert routes == routes[..n] + [routes[n]];
    }
  }

  /** A config on the port that is not one the module started with, or no longer as it started. */
  ghost predicate InTheWay(s: Store, port: int)
  {
    exists c | c in s.configs :: c.portId == port && c !in s.initials
  }

  /**
   * A port is disconnected exactly when it is a connected one and no client config is on it. It is gone
   * then with its entry and the routes into it; it is no source of the others; the ports that nobody claims
   * any more have lost their profiles, and no other port has changed.
   */
  lemma DisconnectsExactly(s: Store, port: int)
    requires Inv(s)
    ensures
      var (u, r) := DisconnectExternalDevice(s, port);
      && (r.Success? <==> port in s.connected && !InTheWay(s, port))
      && (!r.Success? ==> u == s)
      && (r.Success? ==>
            && u == s.(ports := u.ports, routes := u.routes, connected := u.connected)
            && u.connected == s.connected - {port}
            && (forall q :: q in u.ports ==> q.id != port)
            && (forall q | q in s.ports && q.id != port ::
                  var orphaned := q.id in s.connected[port] && forall k | k in s.connected && k != port :: q.id !in s.connected[k];
                  (if orphaned then q.(profiles := []) else q) in u.ports)
            && |u.ports| == |s.ports| - 1)
  {
    hide Inv, Find, FromClient, DropRoutes, Claimed, InTheWay;
    var (u, r) := DisconnectExternalDevice(s, port);
    ConnectedIsDevice(s, port);
    ClientConfigMeans(s, port);
    if r.Success? {
      var n := Find(PortIds(s.ports), port);
      assert s.ports[n].id == port;
      var kept := Erase(s.ports, n);
      forall q | q in s.ports && q.id != port
        ensures
          var orphaned := q.id in s.connected[port] && forall k | k in s.connected && k != port :: q.id !in s.connected[k];
          (if orphaned then q.(profiles := []) else q) in u.ports
      {
        var k :| 0 <= k < |s.ports| && s.ports[k] == q;
        var at := if k < n then k else k - 1;
        assert kept[at] == q;
        OrphanMeans(s, port, q.id);
        assert u.ports[at] == ClearedPort(q, s.connected[port], u.connected);
      }
      forall q | q in u.ports ensures q.id != port {
        var k :| 0 <= k < |u.ports| && u.ports[k] == q;
        assert u.ports[k].id == kept[k].id;
        ErasedIsOther(s, n, k);
      }
    }
  }

  lemma ErasedIsOther(s: Store, n: nat, k: nat)
    requires Inv(s) && n < |s.ports| && k < |s.ports| - 1
    ensures Erase(s.ports, n)[k].id != s.ports[n].id
  {
    hide IndexExact, SinksExclusive, RoutesOnPorts, StreamsOnConfigs, PatchesOnConfigs, ConfigsOnPorts, InitialsFixed, StreamLimits;
    var from := if k < n then k else k + 1;
    assert Erase(s.ports, n)[k] == s.ports[from];
    assert PortIds(s.ports)[from] == s.ports[from].id && PortIds(s.ports)[n] == s.ports[n].id;
  }

  lemma OrphanMeans(s: Store, port: int, id: int)
    ensures Claimed(s.connected - {port}, id) <==> exists k | k in s.connected && k != port :: id in s.connected[k]
  {
    if k :| k in s.connected && k != port && id in s.connected[k] { assert k in s.connected - {port}; }
    if k :| k in s.connected - {port} && id in (s.connected - {port})[k] { assert k in s.connected && k != port; }
  }

  lemma ConnectedIsDevice(s: Store, port: int)
    requires Inv(s)
    ensures port in s.connected ==>
      Find(PortIds(s.ports), port) < |s.ports| && s.ports[Find(PortIds(s.ports), port)].ext.DeviceExt?
  {
    hide IndexExact, SinksExclusive, RoutesOnPorts, StreamsOnConfigs, PatchesOnConfigs, ConfigsOnPorts, InitialsFixed, StreamLimits;
    if port in s.connected {
      var p :| p in s.ports && p.id == port && p.ext.DeviceExt?;
      FoundPort(s.ports, p);
    }
  }

  lemma ClientConfigMeans(s: Store, port: int)
    requires Inv(s)
    ensures InTheWay(s, port) <==> exists c | c in s.configs :: c.portId == port && FromClient(s.initials, c)
  {
    hide IndexExact, SinksExclusive, RoutesOnPorts, StreamsOnConfigs, PatchesOnConfigs, ConfigsOnPorts, StreamLimits;
    forall c | c in s.configs ensures FromClient(s.initials, c) <==> c !in s.initials {
      if c in s.initials { FoundConfig(s.initials, c); }
    }
  }

  /** A template nobody has heard of is refused without taking an id. */
  lemma UnknownTemplate(s: Store, req: DeviceRequest, simulate: bool, population: Population)
    requires forall p | p in s.ports :: p.id != req.templateId
    ensures ConnectExternalDevice(s, req, simulate, population) == (s, Failure(IllegalArgument))
  {
    assert forall i | 0 <= i < |s.ports| :: s.ports[i] in s.ports;
  }

  /** The routes after a disconnection: those that did not lead into the port, without it as a source. */
  lemma DisconnectRoutes(s: Store, port: int)
    requires DisconnectExternalDevice(s, port).1.Success?
    ensures
      var u := DisconnectExternalDevice(s, port).0;
      && (forall r | r in s.routes && r.sink != port :: exists q | q in u.routes :: Spared(r, q, port))
      && (forall q | q in u.routes :: exists r | r in s.routes :: r.sink != port && Spared(r, q, port))
  {
    SparedRoutes(s.routes, port);
    hide Without, FromClient, Find, Claimed, Erase, DropRoutes;
  }

  lemma SparedRoutes(routes: seq<Route>, port: int)
    ensures forall r | r in routes && r.sink != port :: exists q | q in DropRoutes(routes, port) :: Spared(r, q, port)
    ensures forall q | q in DropRoutes(routes, port) :: exists r | r in routes :: r.sink != port && Spared(r, q, port)
  {
    DroppedRoutes(routes, port);
    hide DropRoutes, Without, Spared;
    forall r: Route ensures Spared(r, r.(sources := Without(r.sources, port)), port) { SparedMeans(r, port); }
    forall r | r in routes && r.sink != port ensures exists q | q in DropRoutes(routes, port) :: Spared(r, q, port) {
      var q := r.(sources := Without(r.sources, port));
      assert q in DropRoutes(routes, port);
    }
  }

  /** The same route, without the port among its sources. */
  ghost predicate Spared(r: Route, q: Route, port: int)
  {
    && q.sink == r.sink && q.isExclusive == r.isExclusive
    && (forall x :: x in q.sources <==> x in r.sources && x != port)
    && (port !in r.sources ==> q == r)
  }

  lemma SparedMeans(r: Route, port: int)
    ensures Spared(r, r.(sources := Without(r.sources, port)), port)
  {
  }

  /** The places of the open streams listed under an id. */
  function Listed(streams: seq<Stream>, id: int): set<nat>
  {
    set i: nat | i < |streams| && (streams[i].configId == id || streams[i].portId == id)
  }

  lemma {:induction false} CountMeans(streams: seq<Stream>, id: int)
    ensures Count(streams, id) == |Listed(streams, id)|
  {
    if |streams| == 0 {
      assert Listed(streams, id) == {};
    } else {
      var n := |streams| - 1;
      CountMeans(streams[..n], id);
      var before := Listed(streams[..n], id);
      if streams[n].configId == id || streams[n].portId == id {
        assert Listed(streams, id) == before + {n};
      } else {
        assert Listed(streams, id) == before;
      }
    }
  }

  /** What a module fills in for external devices at its start: the standard profiles, 16 and 24 bit, mono and
      stereo, at six rates, wherever a device port has no profiles and the configuration gives none for it. */
  lemma PopulateMeans(s: Store, id: int)
    ensures
      var filled := Populate(s.ports, s.connectedProfiles);
      var needed := exists p | p in s.ports ::
        p.id == id && p.ext.DeviceExt? && p.ext.device.connection != "" && p.profiles == [];
      && (id in filled <==> id in s.connectedProfiles || needed)
      && (id in s.connectedProfiles ==> filled[id] == s.connectedProfiles[id])
      && (id in filled && id !in s.connectedProfiles ==>
            && |filled[id]| == 2 && filled[id][0].format == 1 && filled[id][1].format == 2
            && forall p | p in filled[id] ::
                 p.channelMasks == [1, 3] && p.sampleRates == [8000, 11025, 16000, 32000, 44100, 48000])
  {
  }
}
