/** What connections do to the profiles of mix ports, and how a disconnection undoes a connection. */
module AudioProfiles {
  import opened Basics
  import opened AudioStores
  import opened AudioDevices

  // ---------- Disconnecting undoes connecting ----------

  lemma {:induction false} DropAppend(a: seq<Route>, b: seq<Route>, port: int)
    ensures DropRoutes(a + b, port) == DropRoutes(a, port) + DropRoutes(b, port)
  {
    hide Without;
    if |b| == 0 {
      assert a + b == a;
    } else {
      var n := |b| - 1;
      assert (a + b)[..|a + b| - 1] == a + b[..n];
      assert (a + b)[|a + b| - 1] == b[n];
      DropAppend(a, b[..n], port);
    }
  }

  lemma {:induction false} DropCopies(copies: seq<Route>, port: int)
    requires forall r | r in copies :: r.sink == port
    ensures DropRoutes(copies, port) == []
  {
    if |copies| > 0 {
      DropCopies(copies[..|copies| - 1], port);
    }
  }

  lemma WithoutAdded(r: Route, template: int, port: int)
    requires r.sink != port && port !in r.sources
    ensures
      var a := AddSource(r, template, port);
      a.(sources := Without(a.sources, port)) == r && a.sink != port
  {
    assert (r.sources + [port])[..|r.sources|] == r.sources;
  }

  lemma {:induction false} DropSources(routes: seq<Route>, template: int, port: int)
    requires forall r | r in routes :: r.sink != port && port !in r.sources
    ensures DropRoutes(AddSources(routes, template, port), port) == routes
  {
    hide AddSource, Without;
    if |routes| > 0 {
      var n := |routes| - 1;
      DropSources(routes[..n], template, port);
      WithoutAdded(routes[n], template, port);
      assert AddSources(routes, template, port)[..n] == AddSources(routes[..n], template, port);
      assert routes == routes[..n] + [routes[n]];
    }
  }

  lemma DropPlugged(s: Store, template: int, p: Port)
    requires Inv(s) && p.id == s.nextPortId
    ensures DropRoutes(PlugIn(s, template, p).routes, p.id) == s.routes
  {
    hide IndexExact, SinksExclusive, StreamLimits, ClaimsAreReal, ConnectedAreDevices;
    hide PatchesOnConfigs, StreamsOnConfigs, ConfigsOnPorts, InitialsFixed, DropRoutes;
    forall r | r in s.routes ensures r.sink != p.id && p.id !in r.sources {
      NumberedBelow(PortIds(s.ports), s.nextPortId);
    }
    DropAppend(AddSources(s.routes, template, p.id), CopiedRoutes(s.routes, template, p.id), p.id);
    DropSources(s.routes, template, p.id);
    DropCopies(CopiedRoutes(s.routes, template, p.id), p.id);
  }

  /** The routable ports without real profiles, with their profiles emptied. */
  function Emptied(ports: seq<Port>, routable: set<int>): seq<Port>
  {
    Stuffed(ports, routable, [])
  }

  lemma UnplugPlugged(s: Store, template: int, p: Port)
    requires Inv(s) && p.id == s.nextPortId
    ensures Unplug(PlugIn(s, template, p), |s.ports|) == s.(nextPortId := s.nextPortId + 1)
  {
    hide IndexExact, SinksExclusive, StreamLimits, ClaimsAreReal, RoutesOnPorts;
    hide PatchesOnConfigs, StreamsOnConfigs, ConfigsOnPorts, InitialsFixed, DropRoutes;
    DropPlugged(s, template, p);
    var u := PlugIn(s, template, p);
    assert Erase(u.ports, |s.ports|) == s.ports;
    if p.id in s.connected {
      var q :| q in s.ports && q.id == p.id;
      PortKnown(s, q);
    }
    assert u.connected - {p.id} == s.connected;
  }

  /** Clearing after stuffing empties exactly the ports that were stuffed. */
  lemma ClearStuffed(s: Store, routable: set<int>, profiles: seq<Profile>, connected: map<int, set<int>>)
    requires UniqueIds(s) && ClaimsAreReal(s)
    requires forall m :: Claimed(connected, m) <==> Claimed(s.connected, m)
    ensures Cleared(Stuffed(s.ports, routable, profiles), NewClaims(s.ports, routable, connected), s.connected)
      == Emptied(s.ports, routable)
  {
    hide HasDynamicProfilesOnly, Claimed;
    var claims := NewClaims(s.ports, routable, connected);
    forall i | 0 <= i < |s.ports|
      ensures ClearedPort(StuffedPort(s.ports[i], routable, profiles), claims, s.connected) == StuffedPort(s.ports[i], routable, [])
    {
      var p := s.ports[i];
      assert p in s.ports;
      forall q | q in s.ports && q.id == p.id ensures q == p {
        FoundPort(s.ports, q);
        FoundPort(s.ports, p);
      }
    }
  }

  lemma RoutableKnown(s: Store, template: int)
    requires Inv(s)
    ensures s.nextPortId !in Routable(s.routes, template)
  {
    hide IndexExact, SinksExclusive, StreamLimits, ClaimsAreReal, ConnectedAreDevices, Routable;
    hide PatchesOnConfigs, StreamsOnConfigs, ConfigsOnPorts, InitialsFixed;
    NumberedBelow(PortIds(s.ports), s.nextPortId);
  }

  lemma StuffedPushed(v: seq<Port>, p: Port, routable: set<int>, profiles: seq<Profile>)
    requires p.id !in routable
    ensures Stuffed(v + [p], routable, profiles) == Stuffed(v, routable, profiles) + [p]
  {
  }

  lemma ClaimsPushed(v: seq<Port>, p: Port, routable: set<int>, connected: map<int, set<int>>)
    requires p.id !in routable
    ensures NewClaims(v + [p], routable, connected) == NewClaims(v, routable, connected)
  {
    hide HasDynamicProfilesOnly, Claimed;
    forall q | q in v ensures q in v + [p] {}
  }

  lemma FoundLast(v: seq<Port>, p: Port)
    requires p.id !in PortIds(v)
    ensures Find(PortIds(v + [p]), p.id) == |v|
  {
    PortPushed(v, p);
    assert PortIds(v + [p])[|v|] == p.id;
    forall i | 0 <= i < |v| ensures PortIds(v + [p])[i] != p.id {
      assert PortIds(v)[i] in PortIds(v);
    }
  }

  /** Taking out the port just plugged in and stuffed leaves only the emptied profiles. */
  lemma UnplugStuffed(s: Store, template: int, p: Port, routable: set<int>, profiles: seq<Profile>)
    requires Inv(s) && p.id == s.nextPortId && p.id !in routable
    ensures
      var u := Stuff(PlugIn(s, template, p), p.id, routable, profiles);
      var w := Unplug(u, |s.ports|);
      && |s.ports| < |u.ports| && u.ports[|s.ports|] == p
      && p.id in u.connected
      && w == s.(ports := w.ports, nextPortId := s.nextPortId + 1)
      && Cleared(w.ports, u.connected[p.id], w.connected) == Emptied(s.ports, routable)
  {
    hide IndexExact, SinksExclusive, StreamLimits, RoutesOnPorts, HasDynamicProfilesOnly, NewClaims, Emptied, Cleared;
    hide PatchesOnConfigs, StreamsOnConfigs, ConfigsOnPorts, InitialsFixed, DropRoutes, ConnectedAreDevices, Claimed;
    var plugged := PlugIn(s, template, p);
    var u := Stuff(plugged, p.id, routable, profiles);
    UnplugPlugged(s, template, p);
    StuffedPushed(s.ports, p, routable, profiles);
    ClaimsPushed(s.ports, p, routable, plugged.connected);
    assert Erase(u.ports, |s.ports|) == Stuffed(s.ports, routable, profiles);
    assert u.connected - {p.id} == plugged.connected - {p.id};
    forall m ensures Claimed(plugged.connected, m) <==> Claimed(s.connected, m) {
      ClaimedPlugged(s.connected, p.id, m);
    }
    ClearStuffed(s, routable, profiles, plugged.connected);
  }

  lemma ClaimedPlugged(connected: map<int, set<int>>, port: int, m: int)
    requires port !in connected
    ensures Claimed(connected[port := {}], m) <==> Claimed(connected, m)
  {
    if Claimed(connected, m) {
      var k :| k in connected && m in connected[k];
      assert k in connected[port := {}];
    }
  }

  /** The profiles that a connection would fill in were all empty lists. */
  ghost predicate BlankWhereDynamic(ports: seq<Port>, routable: set<int>)
  {
    forall p | p in ports && p.id in routable && HasDynamicProfilesOnly(p.profiles) :: p.profiles == []
  }

  lemma EmptiedIsSame(ports: seq<Port>, routable: set<int>)
    ensures Emptied(ports, routable) == ports <==> BlankWhereDynamic(ports, routable)
  {
    hide HasDynamicProfilesOnly;
    if BlankWhereDynamic(ports, routable) {
      forall i | 0 <= i < |ports| ensures StuffedPort(ports[i], routable, []) == ports[i] {
        assert ports[i] in ports;
      }
    }
    if Emptied(ports, routable) == ports {
      forall p | p in ports && p.id in routable && HasDynamicProfilesOnly(p.profiles) ensures p.profiles == [] {
        var i :| 0 <= i < |ports| && ports[i] == p;
        assert Emptied(ports, routable)[i] == StuffedPort(p, routable, []);
      }
    }
  }

  /**
   * Connecting a device and disconnecting the port it got gives back every table: only the id counter
   * has moved, and dynamic profiles that were filled in come back as empty lists. So the ports are the
   * same exactly when nothing was filled in, or what was filled in had been empty.
   */
  lemma ConnectThenDisconnect(s: Store, req: DeviceRequest, simulate: bool, population: Population)
    requires Inv(s) && ConnectExternalDevice(s, req, simulate, population).1.Success?
    ensures
      var (u, r) := ConnectExternalDevice(s, req, simulate, population);
      var (w, q) := DisconnectExternalDevice(u, r.value.id);
      var routable := Routable(s.routes, req.templateId);
      && q.Success?
      && w == s.(ports := w.ports, nextPortId := s.nextPortId + 1)
      && (w.ports == s.ports <==> HasDynamicProfilesOnly(r.value.profiles) || BlankWhereDynamic(s.ports, routable))
  {
    hide Inv, Routable, HasDynamicProfilesOnly, IsDevice, SameDevice, PlugIn, Unplug, Stuff, Cleared, FromClient;
    hide HasDynamicRoutable, BlankWhereDynamic, Emptied, Claimed;
    var (u, r) := ConnectExternalDevice(s, req, simulate, population);
    var routable := Routable(s.routes, req.templateId);
    var p := r.value;
    PluggedMayLeave(s, req.templateId, p);
    var plugged := PlugIn(s, req.templateId, p);
    var n := |s.ports|;
    UnplugPlugged(s, req.templateId, p);
    EmptiedIsSame(s.ports, routable);
    if HasDynamicProfilesOnly(p.profiles) {
      NothingToClear(s.ports, s.connected);
    } else if routable == {} {
      NothingToClear(s.ports, s.connected);
      BlankNowhere(s.ports);
    } else {
      RoutableKnown(s, req.templateId);
      UnplugStuffed(s, req.templateId, p, routable, p.profiles);
      StuffedIds(plugged, p.id, routable, p.profiles);
    }
  }

  lemma NothingToClear(ports: seq<Port>, connected: map<int, set<int>>)
    ensures Cleared(ports, {}, connected) == ports
  {
  }

  lemma BlankNowhere(ports: seq<Port>)
    ensures BlankWhereDynamic(ports, {})
  {
  }

  lemma StuffedIds(s: Store, port: int, routable: set<int>, profiles: seq<Profile>)
    ensures PortIds(Stuff(s, port, routable, profiles).ports) == PortIds(s.ports)
    ensures Stuff(s, port, routable, profiles).configs == s.configs
    ensures Stuff(s, port, routable, profiles).initials == s.initials
  {
  }

  /** Nothing keeps the fresh port from being disconnected. */
  lemma PluggedMayLeave(s: Store, template: int, p: Port)
    requires Inv(s) && p.id == s.nextPortId
    ensures
      var u := PlugIn(s, template, p);
      && |u.ports| == |s.ports| + 1 && u.ports[|s.ports|] == p
      && Find(PortIds(u.ports), p.id) == |s.ports|
      && p.id in u.connected && u.connected[p.id] == {}
      && u.configs == s.configs && u.initials == s.initials
      && (forall c | c in u.configs :: c.portId != p.id)
  {
    hide IndexExact, SinksExclusive, StreamLimits, ClaimsAreReal, ConnectedAreDevices, RoutesOnPorts;
    hide PatchesOnConfigs, StreamsOnConfigs, InitialsFixed;
    NumberedBelow(PortIds(s.ports), s.nextPortId);
    FoundLast(s.ports, p);
  }

  // ---------- Profiles follow the connections ----------

  /** What has become of a port the module started with. */
  ghost predicate Follows(origin: Port, p: Port, connected: map<int, set<int>>)
  {
    && p == origin.(profiles := p.profiles)
    && (if HasDynamicProfilesOnly(origin.profiles)
        then !HasDynamicProfilesOnly(p.profiles) <==> Claimed(connected, p.id)
        else p.profiles == origin.profiles && !Claimed(connected, p.id))
  }

  /** The ports are those the module started with, followed by the connected device ports. */
  ghost predicate ProfilesFollow(origins: seq<Port>, s: Store)
  {
    && |origins| <= |s.ports|
    && (forall i | 0 <= i < |origins| :: Follows(origins[i], s.ports[i], s.connected) && origins[i].id !in s.connected)
    && (forall i | |origins| <= i < |s.ports| :: s.ports[i].id in s.connected)
  }

  lemma PlugInFollows(origins: seq<Port>, s: Store, template: int, p: Port)
    requires Inv(s) && ProfilesFollow(origins, s) && p.id == s.nextPortId
    ensures ProfilesFollow(origins, PlugIn(s, template, p))
    ensures forall i | 0 <= i < |origins| :: origins[i].id != p.id
  {
    hide IndexExact, SinksExclusive, StreamLimits, ClaimsAreReal, RoutesOnPorts, HasDynamicProfilesOnly;
    hide PatchesOnConfigs, StreamsOnConfigs, ConfigsOnPorts, InitialsFixed, AddSources, CopiedRoutes, Claimed;
    var u := PlugIn(s, template, p);
    UnplugPlugged(s, template, p);
    forall i | 0 <= i < |origins|
      ensures Follows(origins[i], u.ports[i], u.connected) && origins[i].id != p.id
    {
      PortKnown(s, s.ports[i]);
      ClaimedPlugged(s.connected, p.id, s.ports[i].id);
    }
  }

  lemma StuffFollows(origins: seq<Port>, s: Store, port: int, routable: set<int>, profiles: seq<Profile>)
    requires UniqueIds(s) && ProfilesFollow(origins, s) && port in s.connected && s.connected[port] == {}
    requires !HasDynamicProfilesOnly(profiles)
    ensures ProfilesFollow(origins, Stuff(s, port, routable, profiles))
  {
    hide HasDynamicProfilesOnly, NewClaims, Claimed, UniqueIds;
    var u := Stuff(s, port, routable, profiles);
    forall i | 0 <= i < |origins| ensures Follows(origins[i], u.ports[i], u.connected) {
      ClaimedStuffed(s, port, routable, profiles, i);
    }
  }

  /** A port is claimed after stuffing exactly when it was claimed, or was reached and dynamic. */
  lemma ClaimedStuffed(s: Store, port: int, routable: set<int>, profiles: seq<Profile>, i: nat)
    requires UniqueIds(s) && port in s.connected && s.connected[port] == {} && i < |s.ports|
    ensures
      var p := s.ports[i];
      Claimed(Stuff(s, port, routable, profiles).connected, p.id) <==>
      Claimed(s.connected, p.id) || (p.id in routable && HasDynamicProfilesOnly(p.profiles))
  {
    hide HasDynamicProfilesOnly;
    var u := Stuff(s, port, routable, profiles);
    var p := s.ports[i];
    assert p in s.ports;
    forall q | q in s.ports && q.id == p.id ensures q == p {
      FoundPort(s.ports, q);
      FoundPort(s.ports, p);
    }
    if Claimed(s.connected, p.id) {
      var k :| k in s.connected && p.id in s.connected[k];
      assert k in u.connected && p.id in u.connected[k];
    } else if p.id in routable && HasDynamicProfilesOnly(p.profiles) {
      assert p.id in u.connected[port];
    } else {
      forall k | k in u.connected ensures p.id !in u.connected[k] {
        if k != port { assert u.connected[k] == s.connected[k]; }
      }
    }
  }

  lemma ConnectFollows(origins: seq<Port>, s: Store, req: DeviceRequest, simulate: bool, population: Population)
    requires Inv(s) && ProfilesFollow(origins, s)
    ensures ProfilesFollow(origins, ConnectExternalDevice(s, req, simulate, population).0)
  {
    hide Inv, Routable, HasDynamicProfilesOnly, HasDynamicRoutable, Stuff, IsDevice, SameDevice, Follows;
    var (u, r) := ConnectExternalDevice(s, req, simulate, population);
    if r.Success? {
      var p := r.value;
      var plugged := PlugIn(s, req.templateId, p);
      PlugInFollows(origins, s, req.templateId, p);
      if !HasDynamicProfilesOnly(p.profiles) {
        PlugInKeepsInv(s, req.templateId, p);
        assert UniqueIds(plugged) by { InvHasUniqueIds(plugged); }
        StuffFollows(origins, plugged, p.id, Routable(s.routes, req.templateId), p.profiles);
      }
    }
  }

  lemma InvHasUniqueIds(s: Store)
    requires Inv(s)
    ensures UniqueIds(s)
  {
  }

  lemma ClaimedWithout(connected: map<int, set<int>>, port: int, m: int)
    requires port in connected
    ensures Claimed(connected, m) <==> Claimed(connected - {port}, m) || m in connected[port]
  {
    if Claimed(connected, m) {
      var k :| k in connected && m in connected[k];
      if k != port { assert k in connected - {port}; }
    }
    if Claimed(connected - {port}, m) {
      var k :| k in connected - {port} && m in (connected - {port})[k];
      assert k in connected;
    }
  }

  lemma DisconnectFollows(origins: seq<Port>, s: Store, port: int)
    requires Inv(s) && ProfilesFollow(origins, s)
    ensures ProfilesFollow(origins, DisconnectExternalDevice(s, port).0)
  {
    hide Inv, HasDynamicProfilesOnly, FromClient, DropRoutes, Claimed, Erase;
    var (u, r) := DisconnectExternalDevice(s, port);
    if r.Success? {
      var n := Find(PortIds(s.ports), port);
      assert |origins| <= n;
      ErasedPlaces(s.ports, n);
      OthersStayConnected(s, n);
      forall i | 0 <= i < |origins| ensures Follows(origins[i], u.ports[i], u.connected) {
        ClaimedWithout(s.connected, port, s.ports[i].id);
        NoProfilesIsDynamic();
      }
    }
  }

  lemma NoProfilesIsDynamic()
    ensures HasDynamicProfilesOnly([])
  {
  }

  lemma ErasedPlaces<T>(v: seq<T>, n: nat)
    requires n < |v|
    ensures |Erase(v, n)| == |v| - 1
    ensures forall i | 0 <= i < n :: Erase(v, n)[i] == v[i]
    ensures forall i | n <= i < |v| - 1 :: Erase(v, n)[i] == v[i + 1]
  {
  }

  lemma OthersStayConnected(s: Store, n: nat)
    requires Inv(s) && n < |s.ports|
    ensures forall i | 0 <= i < |s.ports| && i != n :: s.ports[i].id != s.ports[n].id
  {
    hide IndexExact, SinksExclusive, StreamLimits, ClaimsAreReal, RoutesOnPorts, ConnectedAreDevices;
    hide PatchesOnConfigs, StreamsOnConfigs, ConfigsOnPorts, InitialsFixed;
    assert forall i | 0 <= i < |s.ports| :: PortIds(s.ports)[i] == s.ports[i].id;
  }

  // ---------- The connected port is routed like its template ----------

  lemma {:induction false} RoutableAppend(a: seq<Route>, b: seq<Route>, port: int)
    ensures Routable(a + b, port) == Routable(a, port) + Routable(b, port)
  {
    if |b| == 0 {
      assert a + b == a;
    } else {
      var n := |b| - 1;
      assert (a + b)[..|a + b| - 1] == a + b[..n];
      RoutableAppend(a, b[..n], port);
    }
  }

  /** The ports a route leads to from `port`. */
  function Ends(r: Route, port: int): set<int>
  {
    if r.sink == port then set x | x in r.sources else if port in r.sources then {r.sink} else {}
  }

  lemma EndsLikeTemplate(r: Route, template: int, port: int)
    requires r.sink != port && port !in r.sources
    ensures Ends(r, template) ==
      Ends(AddSource(r, template, port), port) + (if r.sink == template then Ends(r.(sink := port), port) else {})
  {
  }

  lemma {:induction false} RoutedLikeTemplate(routes: seq<Route>, template: int, port: int)
    requires forall r | r in routes :: r.sink != port && port !in r.sources
    ensures Routable(routes, template) ==
      Routable(AddSources(routes, template, port), port) + Routable(CopiedRoutes(routes, template, port), port)
  {
    hide AddSource, Ends, CopiedRoutes;
    if |routes| > 0 {
      var n := |routes| - 1;
      var last := routes[n];
      RoutedLikeTemplate(routes[..n], template, port);
      EndsLikeTemplate(last, template, port);
      assert AddSources(routes, template, port)[..n] == AddSources(routes[..n], template, port);
      RoutableStep(routes, template);
      RoutableStep(AddSources(routes, template, port), port);
      CopiesStep(routes, template, port);
    }
  }

  lemma CopiesStep(routes: seq<Route>, template: int, port: int)
    requires |routes| > 0
    ensures
      var last := routes[|routes| - 1];
      Routable(CopiedRoutes(routes, template, port), port) ==
      Routable(CopiedRoutes(routes[..|routes| - 1], template, port), port) +
      (if last.sink == template then Ends(last.(sink := port), port) else {})
  {
    hide Ends, Routable;
    var last := routes[|routes| - 1];
    var copies := CopiedRoutes(routes[..|routes| - 1], template, port);
    if last.sink == template {
      RoutableAppend(copies, [last.(sink := port)], port);
      RoutableOne(last.(sink := port), port);
    } else {
      assert copies + [] == copies;
      assert CopiedRoutes(routes, template, port) == copies;
    }
  }

  lemma RoutableStep(routes: seq<Route>, port: int)
    requires |routes| > 0
    ensures Routable(routes, port) == Routable(routes[..|routes| - 1], port) + Ends(routes[|routes| - 1], port)
  {
  }

  lemma RoutableOne(r: Route, port: int)
    ensures Routable([r], port) == Ends(r, port)
  {
    assert [r][..0] == [];
  }

  /** A connected device reaches exactly the ports its template reached. */
  lemma ConnectedReachesSame(s: Store, req: DeviceRequest, simulate: bool, population: Population)
    requires Inv(s) && ConnectExternalDevice(s, req, simulate, population).1.Success?
    ensures
      var (u, r) := ConnectExternalDevice(s, req, simulate, population);
      && r.value.id !in PortIds(s.ports)
      && Routable(u.routes, r.value.id) == Routable(s.routes, req.templateId)
  {
    hide IndexExact, SinksExclusive, StreamLimits, ClaimsAreReal, ConnectedAreDevices, Routable, AddSource, Claimed;
    hide PatchesOnConfigs, StreamsOnConfigs, ConfigsOnPorts, InitialsFixed, HasDynamicProfilesOnly, HasDynamicRoutable;
    hide IsDevice, SameDevice, CopiedRoutes;
    NumberedBelow(PortIds(s.ports), s.nextPortId);
    RoutedLikeTemplate(s.routes, req.templateId, s.nextPortId);
    RoutableAppend(AddSources(s.routes, req.templateId, s.nextPortId),
                   CopiedRoutes(s.routes, req.templateId, s.nextPortId), s.nextPortId);
  }

  // ---------- A device is connected at most once ----------

  ghost predicate DevicesDistinct(s: Store)
  {
    forall p, q | p in s.ports && q in s.ports && p.id in s.connected && q.id in s.connected && p.id != q.id ::
      p.ext != q.ext
  }

  lemma ReprofileKeepsDevices(s: Store, u: Store)
    requires DevicesDistinct(s) && SameButProfiles(s.ports, u.ports) && u.connected.Keys <= s.connected.Keys
    ensures DevicesDistinct(u)
  {
    forall p, q | p in u.ports && q in u.ports && p.id in u.connected && q.id in u.connected && p.id != q.id
      ensures p.ext != q.ext
    {
      var p0 := ReprofiledOrigin(s.ports, u.ports, p);
      var q0 := ReprofiledOrigin(s.ports, u.ports, q);
    }
  }

  lemma NewDevice(s: Store, req: DeviceRequest, q: Port)
    requires Inv(s) && Refused(s, req).None? && q in s.ports && q.id in s.connected
    ensures q.ext != Candidate(s.ports[Find(PortIds(s.ports), req.templateId)], req).ext
  {
    hide IndexExact, SinksExclusive, StreamLimits, ClaimsAreReal, ConnectedAreDevices, RoutesOnPorts;
    hide PatchesOnConfigs, StreamsOnConfigs, ConfigsOnPorts, InitialsFixed, IsDevice, Find;
    FoundPort(s.ports, q);
  }

  lemma ConnectKeepsDevices(s: Store, req: DeviceRequest, simulate: bool, population: Population)
    requires Inv(s) && DevicesDistinct(s)
    ensures DevicesDistinct(ConnectExternalDevice(s, req, simulate, population).0)
  {
    hide Inv, Refused, Routable, HasDynamicProfilesOnly, HasDynamicRoutable, DevicesDistinct, Claimed, AddSources, CopiedRoutes;
    var (u, r) := ConnectExternalDevice(s, req, simulate, population);
    if r.Success? {
      var plugged := PlugIn(s, req.templateId, r.value);
      PluggedDevices(s, req, r.value);
      ReprofileKeepsDevices(plugged, u);
    } else {
      ReprofileKeepsDevices(s, u);
    }
  }

  lemma PluggedDevices(s: Store, req: DeviceRequest, p: Port)
    requires Inv(s) && DevicesDistinct(s) && Refused(s, req).None? && p.id == s.nextPortId
    requires p.ext == Candidate(s.ports[Find(PortIds(s.ports), req.templateId)], req).ext
    ensures DevicesDistinct(PlugIn(s, req.templateId, p))
  {
    hide Inv, Refused, AddSources, CopiedRoutes, Find;
    forall q | q in s.ports && q.id in s.connected ensures q.ext != p.ext {
      NewDevice(s, req, q);
    }
    assert UniqueIds(s) by { InvHasUniqueIds(s); }
    forall q | q in s.ports ensures q.id != p.id { PortKnown(s, q); }
  }

  lemma DisconnectKeepsDevices(s: Store, port: int)
    requires DevicesDistinct(s)
    ensures DevicesDistinct(DisconnectExternalDevice(s, port).0)
  {
    hide FromClient, DropRoutes, Claimed, DevicesDistinct;
    var (u, r) := DisconnectExternalDevice(s, port);
    if r.Success? {
      var plugged := Unplug(s, Find(PortIds(s.ports), port));
      assert DevicesDistinct(plugged) by { UnpluggedDevices(s, Find(PortIds(s.ports), port)); }
      ReprofileKeepsDevices(plugged, u);
    }
  }

  lemma UnpluggedDevices(s: Store, i: nat)
    requires DevicesDistinct(s) && i < |s.ports|
    ensures DevicesDistinct(Unplug(s, i))
  {
    hide DropRoutes;
  }
}
