/** External devices: connecting and disconnecting device ports. */
module AudioDevices {
  import opened Basics
  import opened AudioStores

  /** What `populateConnectedDevicePort` gave back. */
  datatype Population = Populated(profiles: seq<Profile>) | NotPopulated(status: Status)

  /** The template port to connect and the data of the actual device, which is a device port. */
  datatype DeviceRequest = DeviceRequest(templateId: int, address: string, descriptors: seq<int>)

  // ---------- Specification: routes ----------

  function AddSource(r: Route, template: int, port: int): Route
  {
    if r.sink != template && template in r.sources then r.(sources := r.sources + [port]) else r
  }

  function AddSources(routes: seq<Route>, template: int, port: int): (r: seq<Route>)
    ensures |r| == |routes| && forall i | 0 <= i < |r| :: r[i] == AddSource(routes[i], template, port)
  {
    seq(|routes|, i requires 0 <= i < |routes| => AddSource(routes[i], template, port))
  }

  /** Copies of the routes into the template, leading into the port instead. */
  function CopiedRoutes(routes: seq<Route>, template: int, port: int): (c: seq<Route>)
    ensures forall r | r in c :: r.sink == port && r.(sink := template) in routes
  {
    if |routes| == 0 then []
    else
      var last := routes[|routes| - 1];
      CopiedRoutes(routes[..|routes| - 1], template, port) +
      (if last.sink == template then [last.(sink := port)] else [])
  }

  function Without(ids: seq<int>, port: int): (r: seq<int>)
    ensures forall x :: x in r <==> x in ids && x != port
    ensures port !in ids ==> r == ids
  {
    if |ids| == 0 then []
    else
      var last := ids[|ids| - 1];
      assert ids == ids[..|ids| - 1] + [last];
      Without(ids[..|ids| - 1], port) + (if last == port then [] else [last])
  }

  /** Drops the routes into the port, and the port from the sources of the others. */
  function DropRoutes(routes: seq<Route>, port: int): seq<Route>
  {
    if |routes| == 0 then []
    else
      var last := routes[|routes| - 1];
      DropRoutes(routes[..|routes| - 1], port) +
      (if last.sink == port then [] else [last.(sources := Without(last.sources, port))])
  }

  lemma {:induction false} DroppedRoutes(routes: seq<Route>, port: int)
    ensures forall q | q in DropRoutes(routes, port) ::
      exists r | r in routes :: r.sink != port && q == r.(sources := Without(r.sources, port))
    ensures forall r | r in routes && r.sink != port :: r.(sources := Without(r.sources, port)) in DropRoutes(routes, port)
  {
    hide Without;
    if |routes| > 0 {
      var n := |routes| - 1;
      DroppedRoutes(routes[..n], port);
      assert routes == routes[..n] + [routes[n]];
    }
  }

  /** The ports at the other ends of the template's routes. */
  function Routable(routes: seq<Route>, template: int): (s: set<int>)
    ensures forall x | x in s :: exists r | r in routes :: x == r.sink || x in r.sources
  {
    if |routes| == 0 then {}
    else
      var last := routes[|routes| - 1];
      Routable(routes[..|routes| - 1], template) +
      (if last.sink == template then set x | x in last.sources
       else if template in last.sources then {last.sink}
       else {})
  }

  // ---------- Specification: connecting ----------

  /** The port that stands for the connected device, as far as it can be told before any change. */
  function Candidate(template: Port, req: DeviceRequest): Port
    requires template.ext.DeviceExt?
  {
    template.(descriptors := req.descriptors,
              ext := DeviceExt(template.ext.device.(address := req.address)))
  }

  /** The port `k` is in the table and is a device port. */
  predicate IsDevice(ports: seq<Port>, k: int)
  {
    var i := Find(PortIds(ports), k);
    i < |ports| && ports[i].ext.DeviceExt?
  }

  predicate SameDevice(ports: seq<Port>, k: int, device: Device)
  {
    var i := Find(PortIds(ports), k);
    i < |ports| && ports[i].ext == DeviceExt(device)
  }

  /** Why the request is refused before a port id is taken. */
  function Refused(s: Store, req: DeviceRequest): (r: Option<Reply<Port>>)
    ensures r.Some? ==> !r.value.Success?
  {
    var i := Find(PortIds(s.ports), req.templateId);
    if i == |s.ports| then Some(Failure(IllegalArgument))
    else if !s.ports[i].ext.DeviceExt? then Some(Failure(IllegalArgument))
    else if s.ports[i].ext.device.connection == "" then Some(Failure(IllegalArgument))
    else if req.templateId in s.connected then Some(Failure(IllegalArgument))
    else if exists k | k in s.connected :: !IsDevice(s.ports, k) then Some(Aborted)
    else if exists k | k in s.connected :: SameDevice(s.ports, k, Candidate(s.ports[i], req).ext.device) then
      Some(Failure(IllegalState))
    else None
  }

  /** The profiles of the connected port. */
  function ConnectedProfiles(s: Store, template: Port, simulate: bool, population: Population): Reply<seq<Profile>>
  {
    if !simulate then
      match population
      case Populated(profiles) => Success(profiles)
      case NotPopulated(status) => Failure(status)
    else if HasDynamicProfilesOnly(template.profiles) && template.id in s.connectedProfiles then
      Success(s.connectedProfiles[template.id])
    else Success(template.profiles)
  }

  const PCM_RATES := [8000, 11025, 16000, 32000, 44100, 48000]

  /** 16 and 24 bit PCM, mono and stereo. */
  const STANDARD_PROFILES := [Profile(1, [1, 3], PCM_RATES), Profile(2, [1, 3], PCM_RATES)]

  /** A port for external devices that lists no profiles of its own. */
  predicate LacksProfiles(p: Port)
  {
    p.ext.DeviceExt? && p.ext.device.connection != "" && p.profiles == []
  }

  /** `populateConnectedProfiles`: the standard profiles where the configuration gives none. */
  function Populate(ports: seq<Port>, given: map<int, seq<Profile>>): map<int, seq<Profile>>
  {
    map id | id in given.Keys + (set p | p in ports && LacksProfiles(p) :: p.id) ::
      if id in given then given[id] else STANDARD_PROFILES
  }

  /** In a fresh module a simulated connection of such a port always has real profiles. */
  lemma SimulatedConnectionIsReal(s: Store, template: Port, population: Population)
    requires template in s.ports && LacksProfiles(template)
    requires template.id in s.connectedProfiles ==> !HasDynamicProfilesOnly(s.connectedProfiles[template.id])
    ensures
      var r := ConnectedProfiles(s.(connectedProfiles := Populate(s.ports, s.connectedProfiles)), template, true, population);
      r.Success? && !HasDynamicProfilesOnly(r.value)
  {
    var p := STANDARD_PROFILES[0];
    assert p.channelMasks[0] in p.channelMasks && p.sampleRates[0] in p.sampleRates;
    assert p in STANDARD_PROFILES && !IsDynamic(p);
  }

  predicate HasDynamicRoutable(ports: seq<Port>, routable: set<int>)
  {
    exists p | p in ports :: p.id in routable && HasDynamicProfilesOnly(p.profiles)
  }

  /** Adds the port, its routes and its entry without claims. */
  function PlugIn(s: Store, template: int, p: Port): Store
  {
    s.(ports := s.ports + [p],
       routes := AddSources(s.routes, template, p.id) + CopiedRoutes(s.routes, template, p.id),
       connected := s.connected[p.id := {}],
       nextPortId := s.nextPortId + 1)
  }

  function StuffedPort(p: Port, routable: set<int>, profiles: seq<Profile>): Port
  {
    if p.id in routable && HasDynamicProfilesOnly(p.profiles) then p.(profiles := profiles) else p
  }

  function Stuffed(ports: seq<Port>, routable: set<int>, profiles: seq<Profile>): (r: seq<Port>)
    ensures |r| == |ports| && forall i | 0 <= i < |r| :: r[i] == StuffedPort(ports[i], routable, profiles)
  {
    seq(|ports|, i requires 0 <= i < |ports| => StuffedPort(ports[i], routable, profiles))
  }

  /** The routable ports that get the profiles, or got theirs from another connection. */
  function NewClaims(ports: seq<Port>, routable: set<int>, connected: map<int, set<int>>): set<int>
  {
    set p | p in ports && p.id in routable && (HasDynamicProfilesOnly(p.profiles) || Claimed(connected, p.id)) :: p.id
  }

  /** Hands the connected port's profiles to the dynamic ports it can reach. */
  function Stuff(s: Store, port: int, routable: set<int>, profiles: seq<Profile>): Store
  {
    s.(ports := Stuffed(s.ports, routable, profiles),
       connected := s.connected[port := NewClaims(s.ports, routable, s.connected)])
  }

  function ConnectExternalDevice(s: Store, req: DeviceRequest, simulate: bool, population: Population):
    (Store, Reply<Port>)
  {
    var refused := Refused(s, req);
    if refused.Some? then (s, refused.value)
    else
      var template := s.ports[Find(PortIds(s.ports), req.templateId)];
      var routable := Routable(s.routes, req.templateId);
      var taken := s.(nextPortId := s.nextPortId + 1);
      match ConnectedProfiles(s, template, simulate, population)
      case Aborted => (taken, Aborted)
      case Failure(status) => (taken, Failure(status))
      case Success(profiles) =>
        if HasDynamicProfilesOnly(profiles) && HasDynamicRoutable(s.ports, routable) then
          (taken, Failure(IllegalState))
        else
          var p := Candidate(template, req).(id := s.nextPortId, profiles := profiles);
          var plugged := PlugIn(s, req.templateId, p);
          (if HasDynamicProfilesOnly(profiles) || routable == {} then plugged
           else Stuff(plugged, p.id, routable, profiles), Success(p))
  }

  // ---------- Specification: disconnecting ----------

  /** The config was provided by the client. */
  predicate FromClient(initials: seq<Config>, c: Config)
  {
    var j := Find(ConfigIds(initials), c.id);
    j == |initials| || c != initials[j]
  }

  /** Takes out the port at place `i`, its routes and its entry. */
  function Unplug(s: Store, i: nat): Store
    requires i < |s.ports|
  {
    var port := s.ports[i].id;
    s.(ports := Erase(s.ports, i), routes := DropRoutes(s.routes, port), connected := s.connected - {port})
  }

  function ClearedPort(p: Port, claims: set<int>, connected: map<int, set<int>>): Port
  {
    if p.id in claims && !Claimed(connected, p.id) then p.(profiles := []) else p
  }

  /** Ports whose last claim has gone lose their profiles. */
  function Cleared(ports: seq<Port>, claims: set<int>, connected: map<int, set<int>>): (r: seq<Port>)
    ensures |r| == |ports| && forall i | 0 <= i < |r| :: r[i] == ClearedPort(ports[i], claims, connected)
  {
    seq(|ports|, i requires 0 <= i < |ports| => ClearedPort(ports[i], claims, connected))
  }

  function DisconnectExternalDevice(s: Store, port: int): (Store, Reply<()>)
  {
    var i := Find(PortIds(s.ports), port);
    if i == |s.ports| then (s, Failure(IllegalArgument))
    else if !s.ports[i].ext.DeviceExt? then (s, Failure(IllegalArgument))
    else if port !in s.connected then (s, Failure(IllegalArgument))
    else if exists c | c in s.configs :: c.portId == port && FromClient(s.initials, c) then
      (s, Failure(IllegalState))
    else
      var u := Unplug(s, i);
      (u.(ports := Cleared(u.ports, s.connected[port], u.connected)), Success(()))
  }

  // ---------- Changing profiles only ----------

  ghost predicate SameButProfiles(v: seq<Port>, w: seq<Port>)
  {
    |v| == |w| && forall i | 0 <= i < |v| :: w[i] == v[i].(profiles := w[i].profiles)
  }

  lemma ReprofiledTwin(v: seq<Port>, w: seq<Port>, p: Port) returns (q: Port)
    requires SameButProfiles(v, w) && p in v
    ensures q in w && q == p.(profiles := q.profiles)
  {
    var i :| 0 <= i < |v| && v[i] == p;
    q := w[i];
  }

  lemma ReprofiledOrigin(v: seq<Port>, w: seq<Port>, q: Port) returns (p: Port)
    requires SameButProfiles(v, w) && q in w
    ensures p in v && q == p.(profiles := q.profiles)
  {
    var i :| 0 <= i < |w| && w[i] == q;
    p := v[i];
  }

  /** Profiles and claims may change as long as claimed ports have real profiles. */
  lemma ReprofileKeepsInv(s: Store, u: Store)
    requires Inv(s) && u == s.(ports := u.ports, connected := u.connected)
    requires SameButProfiles(s.ports, u.ports) && u.connected.Keys == s.connected.Keys
    requires forall k, m | k in u.connected && m in u.connected[k] :: m < s.nextPortId
    requires ClaimsAreReal(u)
    ensures Inv(u)
  {
    hide ClaimsAreReal, InUse, SinksInto, HasSharedRoute, Numbered, Names;
    assert PortIds(u.ports) == PortIds(s.ports);
    forall t | t in u.streams ensures OnMixPort(u, t) {
      assert OnMixPort(s, t);
      var p :| p in s.ports && p.id == t.portId && p.ext.MixExt?;
      var q := ReprofiledTwin(s.ports, u.ports, p);
    }
    forall q | q in u.ports ensures WithinLimit(u, q) {
      var p := ReprofiledOrigin(s.ports, u.ports, q);
      assert WithinLimit(s, p);
    }
    forall k | k in u.connected ensures exists q | q in u.ports :: q.id == k && q.ext.DeviceExt? {
      var p :| p in s.ports && p.id == k && p.ext.DeviceExt?;
      var q := ReprofiledTwin(s.ports, u.ports, p);
    }
  }

  // ---------- Connecting keeps the invariant ----------

  lemma PortKnown(s: Store, p: Port)
    requires UniqueIds(s) && p in s.ports
    ensures p.id in PortIds(s.ports) && 0 < p.id < s.nextPortId
  {
    var i :| 0 <= i < |s.ports| && s.ports[i] == p;
    assert PortIds(s.ports)[i] in PortIds(s.ports);
  }

  lemma ConfigKnown(s: Store, c: Config)
    requires UniqueIds(s) && c in s.configs
    ensures c.id in ConfigIds(s.configs) && 0 < c.id < s.nextPortId
  {
    var i :| 0 <= i < |s.configs| && s.configs[i] == c;
    assert ConfigIds(s.configs)[i] in ConfigIds(s.configs);
  }

  lemma PlugInRoutes(s: Store, template: int, p: Port)
    requires Inv(s) && p.id == s.nextPortId
    ensures RoutesOnPorts(PlugIn(s, template, p))
  {
    hide IndexExact, SinksExclusive, PatchesOnConfigs, StreamsOnConfigs, ConfigsOnPorts, InitialsFixed, StreamLimits;
    hide ConnectedAreDevices, ClaimsAreReal, Numbered;
    var u := PlugIn(s, template, p);
    PortPushed(s.ports, p);
    forall q | q in u.routes
      ensures q.sink in PortIds(u.ports)
      ensures forall x | x in q.sources :: x in PortIds(u.ports)
      ensures exists x | x in q.sources :: x !in u.connected
    {
      var r: Route;
      if q in CopiedRoutes(s.routes, template, p.id) {
        r := q.(sink := template);
      } else {
        var i :| 0 <= i < |s.routes| && q == AddSource(s.routes[i], template, p.id);
        r := s.routes[i];
      }
      assert r in s.routes;
      var x :| x in r.sources && x !in s.connected;
      assert x in PortIds(s.ports) && x != p.id by { assert Numbered(PortIds(s.ports), s.nextPortId); NumberedBelow(PortIds(s.ports), s.nextPortId); }
      assert x in q.sources;
    }
  }

  lemma NumberedBelow(ids: seq<int>, next: int)
    requires Numbered(ids, next)
    ensures next !in ids
  {
  }

  lemma NumberedMore(ids: seq<int>, next: int)
    requires Numbered(ids, next) && next > 0
    ensures Numbered(ids, next + 1) && Numbered(ids + [next], next + 1)
  {
    NumberedBelow(ids, next);
    DistinctPush(ids, next);
  }

  lemma PlugInSinks(s: Store, template: int, p: Port)
    requires SinksExclusive(s)
    ensures SinksExclusive(PlugIn(s, template, p))
  {
    hide SinksInto, AddSource;
    var u := PlugIn(s, template, p);
    forall port: int | HasSharedRoute(s.routes, port) ensures HasSharedRoute(u.routes, port) {
      var r :| r in s.routes && r.sink == port && !r.isExclusive;
      var i :| 0 <= i < |s.routes| && s.routes[i] == r;
      SameSink(r, template, p.id);
      assert u.routes[i] == AddSource(r, template, p.id);
    }
  }

  lemma SameSink(r: Route, template: int, port: int)
    ensures AddSource(r, template, port).sink == r.sink
    ensures AddSource(r, template, port).isExclusive == r.isExclusive
  {
  }

  lemma PlugInPlaces(s: Store, template: int, p: Port)
    requires Inv(s) && p.id == s.nextPortId
    ensures
      var u := PlugIn(s, template, p);
      && UniqueIds(u) && ConfigsOnPorts(u) && InitialsFixed(u) && PatchesOnConfigs(u) && StreamsOnConfigs(u)
  {
    hide IndexExact, SinksExclusive, RoutesOnPorts, StreamLimits, ClaimsAreReal, ConnectedAreDevices;
    hide AddSources, CopiedRoutes;
    var u := PlugIn(s, template, p);
    PortPushed(s.ports, p);
    NumberedMore(PortIds(s.ports), s.nextPortId);
    NumberedMore(ConfigIds(s.configs), s.nextPortId);
    NumberedMore(ConfigIds(s.initials), s.nextPortId);
    forall c | c in s.configs
      ensures c.portId in PortIds(u.ports) && (c.id in PortIds(u.ports) ==> c.portId == c.id)
    {
      ConfigKnown(s, c);
    }
    forall t | t in s.streams ensures OnMixPort(u, t) {
      assert OnMixPort(s, t);
      var c :| c in s.configs && c.id == t.configId && c.portId == t.portId;
      ConfigKnown(s, c);
      var q :| q in s.ports && q.id == t.portId && q.ext.MixExt?;
      assert q in u.ports;
    }
  }

  lemma PlugInPorts(s: Store, template: int, p: Port)
    requires Inv(s) && p.id == s.nextPortId && p.ext.DeviceExt?
    ensures
      var u := PlugIn(s, template, p);
      && ConnectedAreDevices(u) && StreamLimits(u) && ClaimsAreReal(u)
      && !Claimed(u.connected, p.id)
  {
    hide IndexExact, SinksExclusive, RoutesOnPorts, PatchesOnConfigs, StreamsOnConfigs, ConfigsOnPorts, InitialsFixed;
    hide AddSources, CopiedRoutes, HasDynamicProfilesOnly, Count;
    var u := PlugIn(s, template, p);
    forall k | k in s.connected ensures exists q | q in u.ports :: q.id == k && q.ext.DeviceExt? {
      var q :| q in s.ports && q.id == k && q.ext.DeviceExt?;
      assert q in u.ports;
    }
    assert p in u.ports;
    forall q | q in u.ports ensures WithinLimit(u, q) {
      if q in s.ports { assert WithinLimit(s, q); }
    }
    forall q | q in s.ports && Claimed(u.connected, q.id) ensures Claimed(s.connected, q.id) {
      var k :| k in u.connected && q.id in u.connected[k];
      assert k in s.connected;
    }
  }

  lemma PlugInKeepsInv(s: Store, template: int, p: Port)
    requires Inv(s) && p.id == s.nextPortId && p.ext.DeviceExt?
    ensures Inv(PlugIn(s, template, p))
  {
    hide IndexExact, SinksExclusive, RoutesOnPorts, StreamLimits, ClaimsAreReal, ConnectedAreDevices;
    hide PatchesOnConfigs, StreamsOnConfigs, ConfigsOnPorts, InitialsFixed, UniqueIds;
    PlugInRoutes(s, template, p);
    PlugInSinks(s, template, p);
    PlugInPlaces(s, template, p);
    PlugInPorts(s, template, p);
    PlugInIndex(s, template, p);
  }

  lemma PlugInIndex(s: Store, template: int, p: Port)
    requires IndexExact(s)
    ensures IndexExact(PlugIn(s, template, p))
  {
    hide InUse;
  }

  lemma StuffKeepsInv(s: Store, port: int, routable: set<int>, profiles: seq<Profile>)
    requires Inv(s) && port in s.connected && s.connected[port] == {}
    requires !HasDynamicProfilesOnly(profiles)
    ensures Inv(Stuff(s, port, routable, profiles))
  {
    hide HasDynamicProfilesOnly, IndexExact, SinksExclusive, RoutesOnPorts, PatchesOnConfigs, StreamsOnConfigs;
    hide ConfigsOnPorts, InitialsFixed, StreamLimits;
    var u := Stuff(s, port, routable, profiles);
    forall k, m | k in u.connected && m in u.connected[k] ensures m < s.nextPortId {
      if k == port {
        var p :| p in s.ports && p.id == m;
        PortKnown(s, p);
      }
    }
    forall q | q in u.ports && Claimed(u.connected, q.id) ensures !HasDynamicProfilesOnly(q.profiles) {
      var i :| 0 <= i < |s.ports| && u.ports[i] == q;
      StuffedIsReal(s, port, routable, profiles, i);
    }
    assert u.connected.Keys == s.connected.Keys;
    ReprofileKeepsInv(s, u);
  }

  lemma StuffedIsReal(s: Store, port: int, routable: set<int>, profiles: seq<Profile>, i: nat)
    requires UniqueIds(s) && ClaimsAreReal(s) && i < |s.ports| && !HasDynamicProfilesOnly(profiles)
    requires Claimed(Stuff(s, port, routable, profiles).connected, s.ports[i].id)
    ensures !HasDynamicProfilesOnly(Stuff(s, port, routable, profiles).ports[i].profiles)
  {
    hide HasDynamicProfilesOnly;
    var u := Stuff(s, port, routable, profiles);
    var p := s.ports[i];
    var k :| k in u.connected && p.id in u.connected[k];
    if k == port {
      var q :| q in s.ports && q.id == p.id && (HasDynamicProfilesOnly(q.profiles) || Claimed(s.connected, q.id));
      FoundPort(s.ports, q);
      FoundPort(s.ports, p);
    } else {
      assert Claimed(s.connected, p.id);
    }
  }

  lemma TakenKeepsInv(s: Store)
    requires Inv(s)
    ensures Inv(s.(nextPortId := s.nextPortId + 1))
  {
    hide InUse, SinksInto, HasSharedRoute, Count, Claimed, Names, HasDynamicProfilesOnly;
    var u := s.(nextPortId := s.nextPortId + 1);
    forall t | t in u.streams ensures OnMixPort(u, t) { assert OnMixPort(s, t); }
    forall p | p in u.ports ensures WithinLimit(u, p) { assert WithinLimit(s, p); }
  }

  lemma ConnectKeepsInv(s: Store, req: DeviceRequest, simulate: bool, population: Population)
    requires Inv(s)
    ensures Inv(ConnectExternalDevice(s, req, simulate, population).0)
  {
    hide Inv, Routable, HasDynamicProfilesOnly, HasDynamicRoutable, Stuff, IsDevice, SameDevice;
    TakenKeepsInv(s);
    if Refused(s, req).None? {
      var template := s.ports[Find(PortIds(s.ports), req.templateId)];
      var result := ConnectedProfiles(s, template, simulate, population);
      if result.Success? {
        var p := Candidate(template, req).(id := s.nextPortId, profiles := result.value);
        var routable := Routable(s.routes, req.templateId);
        PlugInKeepsInv(s, req.templateId, p);
        if !HasDynamicProfilesOnly(result.value) {
          StuffKeepsInv(PlugIn(s, req.templateId, p), p.id, routable, result.value);
        }
      }
    }
  }

  /** The connected device ports are always found: the unchecked lookup is safe. */
  lemma ConnectNeverAborts(s: Store, req: DeviceRequest, simulate: bool, population: Population)
    requires Inv(s)
    ensures !ConnectExternalDevice(s, req, simulate, population).1.Aborted?
  {
    hide IndexExact, SinksExclusive, RoutesOnPorts, PatchesOnConfigs, StreamsOnConfigs, ConfigsOnPorts, InitialsFixed;
    hide StreamLimits, HasDynamicProfilesOnly, HasDynamicRoutable, PlugIn, Stuff;
    forall k | k in s.connected ensures IsDevice(s.ports, k) {
      var p :| p in s.ports && p.id == k && p.ext.DeviceExt?;
      FoundPort(s.ports, p);
    }
  }

  // ---------- Disconnecting keeps the invariant ----------

  /** The port is connected and no client config is left on it. */
  ghost predicate MayUnplug(s: Store, i: nat)
  {
    && i < |s.ports| && s.ports[i].ext.DeviceExt? && s.ports[i].id in s.connected
    && forall c | c in s.configs && c.portId == s.ports[i].id :: !FromClient(s.initials, c)
  }

  /** Initial configs never sit on a connected port, so no config at all is left on it. */
  lemma NoConfigLeft(s: Store, i: nat, c: Config)
    requires InitialsFixed(s) && MayUnplug(s, i) && c in s.configs
    ensures c.portId != s.ports[i].id
  {
  }

  lemma UnplugPlaces(s: Store, i: nat)
    requires Inv(s) && MayUnplug(s, i)
    ensures
      var u := Unplug(s, i);
      && UniqueIds(u) && ConfigsOnPorts(u) && InitialsFixed(u) && PatchesOnConfigs(u)
  {
    hide IndexExact, SinksExclusive, RoutesOnPorts, StreamsOnConfigs, StreamLimits, ClaimsAreReal, ConnectedAreDevices;
    hide FromClient, DropRoutes, Erase;
    PortErased(s.ports, i);
    DistinctErase(PortIds(s.ports), i);
    forall c | c in s.configs ensures c.portId != s.ports[i].id {
      NoConfigLeft(s, i, c);
    }
  }

  lemma UnplugRoutes(s: Store, i: nat)
    requires Inv(s) && MayUnplug(s, i)
    ensures RoutesOnPorts(Unplug(s, i))
  {
    hide IndexExact, SinksExclusive, PatchesOnConfigs, ConfigsOnPorts, InitialsFixed, StreamLimits;
    hide StreamsOnConfigs, ClaimsAreReal, ConnectedAreDevices, Erase, FromClient, DropRoutes;
    var u := Unplug(s, i);
    PortErased(s.ports, i);
    DistinctErase(PortIds(s.ports), i);
    forall q | q in u.routes
      ensures q.sink in PortIds(u.ports)
      ensures forall x | x in q.sources :: x in PortIds(u.ports)
      ensures exists x | x in q.sources :: x !in u.connected
    {
      DroppedRoutes(s.routes, s.ports[i].id);
      var r :| r in s.routes && r.sink != s.ports[i].id && q == r.(sources := Without(r.sources, s.ports[i].id));
      var x :| x in r.sources && x !in s.connected;
      assert x in q.sources;
    }
  }

  lemma UnplugPorts(s: Store, i: nat)
    requires Inv(s) && MayUnplug(s, i)
    ensures
      var u := Unplug(s, i);
      ConnectedAreDevices(u) && StreamLimits(u) && ClaimsAreReal(u) && StreamsOnConfigs(u)
  {
    hide IndexExact, SinksExclusive, PatchesOnConfigs, RoutesOnPorts, ConfigsOnPorts, InitialsFixed;
    hide FromClient, DropRoutes, HasDynamicProfilesOnly, Count;
    var u := Unplug(s, i);
    PortErased(s.ports, i);
    DistinctErase(PortIds(s.ports), i);
    forall p | p in s.ports && p.id != s.ports[i].id ensures p in u.ports {
      var j :| 0 <= j < |s.ports| && s.ports[j] == p;
      assert u.ports[if j < i then j else j - 1] == p;
    }
    forall k | k in u.connected ensures exists q | q in u.ports :: q.id == k && q.ext.DeviceExt? {
      var q :| q in s.ports && q.id == k && q.ext.DeviceExt?;
    }
    forall q | q in u.ports ensures WithinLimit(u, q) { assert WithinLimit(s, q); }
    forall q | q in u.ports && Claimed(u.connected, q.id) ensures Claimed(s.connected, q.id) {
      var k :| k in u.connected && q.id in u.connected[k];
    }
    forall t | t in s.streams ensures OnMixPort(u, t) {
      assert OnMixPort(s, t);
      var q :| q in s.ports && q.id == t.portId && q.ext.MixExt?;
      FoundPort(s.ports, q);
      FoundPort(s.ports, s.ports[i]);
    }
  }

  lemma UnplugSinks(s: Store, i: nat)
    requires Inv(s) && MayUnplug(s, i)
    ensures SinksExclusive(Unplug(s, i))
  {
    hide IndexExact, StreamsOnConfigs, PatchesOnConfigs, RoutesOnPorts, ConfigsOnPorts, ConnectedAreDevices;
    hide UniqueIds, StreamLimits, ClaimsAreReal, FromClient, Without, Erase, DropRoutes;
    var u := Unplug(s, i);
    forall a, b, port: int | a in u.patches && b in u.patches && a.id != b.id &&
        SinksInto(u.configs, a, port) && SinksInto(u.configs, b, port)
      ensures HasSharedRoute(u.routes, port)
    {
      var c :| c in s.configs && c.id in a.sinks && c.portId == port;
      NoConfigLeft(s, i, c);
      var r :| r in s.routes && r.sink == port && !r.isExclusive;
      DroppedRoutes(s.routes, s.ports[i].id);
      assert r.(sources := Without(r.sources, s.ports[i].id)) in u.routes;
    }
  }

  lemma UnplugKeepsInv(s: Store, i: nat)
    requires Inv(s) && MayUnplug(s, i)
    ensures Inv(Unplug(s, i))
  {
    hide SinksExclusive, RoutesOnPorts, StreamLimits, ClaimsAreReal, ConnectedAreDevices, InUse;
    hide PatchesOnConfigs, StreamsOnConfigs, ConfigsOnPorts, InitialsFixed, UniqueIds, MayUnplug;
    assert i < |s.ports| by { MayUnplugInRange(s, i); }
    UnplugPlaces(s, i);
    UnplugRoutes(s, i);
    UnplugPorts(s, i);
    UnplugSinks(s, i);
  }

  lemma MayUnplugInRange(s: Store, i: nat)
    requires MayUnplug(s, i)
    ensures i < |s.ports|
  {
  }

  lemma ClearKeepsInv(s: Store, claims: set<int>)
    requires Inv(s)
    ensures Inv(s.(ports := Cleared(s.ports, claims, s.connected)))
  {
    hide HasDynamicProfilesOnly, IndexExact, SinksExclusive, RoutesOnPorts, PatchesOnConfigs, StreamsOnConfigs;
    hide ConfigsOnPorts, InitialsFixed, StreamLimits, UniqueIds;
    var u := s.(ports := Cleared(s.ports, claims, s.connected));
    forall q | q in u.ports && Claimed(u.connected, q.id) ensures !HasDynamicProfilesOnly(q.profiles) {
      var i :| 0 <= i < |s.ports| && u.ports[i] == q;
      assert s.ports[i] in s.ports;
    }
    ReprofileKeepsInv(s, u);
  }

  lemma DisconnectKeepsInv(s: Store, port: int)
    requires Inv(s)
    ensures Inv(DisconnectExternalDevice(s, port).0)
  {
    hide Inv, FromClient, Unplug, Cleared;
    var i := Find(PortIds(s.ports), port);
    if DisconnectExternalDevice(s, port).1.Success? {
      UnplugKeepsInv(s, i);
      ClearKeepsInv(Unplug(s, i), s.connected[port]);
    }
  }
}
