/** The audio module as an object, proved against the calls on its tables. */
module AudioModules {
  import opened Basics
  import opened AudioStores
  import opened AudioConfigs
  import opened AudioPatches
  import opened AudioDevices
  import StreamDevices

  // ---------- Small facts about the loops ----------

  lemma {:induction false} FindIs(ids: seq<int>, id: int, i: nat)
    requires i <= |ids| && id !in ids[..i] && (i < |ids| ==> ids[i] == id)
    ensures Find(ids, id) == i
  {
    var f := Find(ids, id);
    assert forall k | 0 <= k < i :: ids[..i][k] == ids[k];
    assert forall k | 0 <= k < f :: ids[..f][k] == ids[k];
  }

  lemma {:induction false} CleanUpAppend(a: seq<(int, int)>, b: seq<(int, int)>, patchId: int)
    ensures CleanUpPatch(a + b, patchId) == CleanUpPatch(a, patchId) + CleanUpPatch(b, patchId)
  {
    if |b| == 0 {
      assert a + b == a;
    } else {
      var n := |b| - 1;
      assert (a + b)[..|a + b| - 1] == a + b[..n];
      CleanUpAppend(a, b[..n], patchId);
    }
  }

  /** Erasing an entry that clean-up would drop anyway. */
  lemma CleanUpErase(index: seq<(int, int)>, i: nat, patchId: int)
    requires i < |index| && index[i].1 == patchId
    ensures CleanUpPatch(Erase(index, i), patchId) == CleanUpPatch(index, patchId)
  {
    var a, b := index[..i], index[i + 1..];
    assert index == a + ([index[i]] + b);
    CleanUpAppend(a, [index[i]] + b, patchId);
    CleanUpAppend([index[i]], b, patchId);
    CleanUpAppend(a, b, patchId);
  }

  lemma {:induction false} NothingToCleanUp(index: seq<(int, int)>, patchId: int)
    requires forall e | e in index :: e.1 != patchId
    ensures CleanUpPatch(index, patchId) == index
  {
    if |index| > 0 {
      NothingToCleanUp(index[..|index| - 1], patchId);
      assert index == index[..|index| - 1] + [index[|index| - 1]];
    }
  }

  lemma PairsStep(configs: seq<Config>, ids: seq<int>, i: nat, patchId: int)
    requires i < |ids|
    ensures Pairs(configs, ids[..i + 1], patchId) == Pairs(configs, ids[..i], patchId) + PairsFor(configs, ids[i], patchId)
  {
    assert ids[..i + 1][..i] == ids[..i];
  }

  // ---------- Patches: what the loops of setAudioPatch find ----------

  /** `selected` holds exactly the configs with these ids. */
  ghost predicate SelectedBy(configs: seq<Config>, ids: seq<int>, selected: seq<Config>)
  {
    forall c :: c in selected <==> c in configs && c.id in ids
  }

  ghost function RoutesFrom(routes: seq<Route>, sources: seq<Config>): set<Route>
  {
    set r | r in routes && exists c | c in sources :: c.portId in r.sources
  }

  /** The sinks of these routes, and whether one of the routes is not exclusive. */
  ghost predicate AllowedBy(hits: set<Route>, allowed: map<int, bool>)
  {
    && (forall sink :: sink in allowed <==> exists r | r in hits :: r.sink == sink)
    && (forall sink | sink in allowed :: allowed[sink] <==> exists r | r in hits :: r.sink == sink && !r.isExclusive)
  }

  lemma AllowedStep(hits: set<Route>, allowed: map<int, bool>, r: Route)
    requires AllowedBy(hits, allowed)
    ensures
      var better := !(r.sink in allowed && allowed[r.sink]);
      AllowedBy(hits + {r}, if better then allowed[r.sink := !r.isExclusive] else allowed)
  {
    var after := hits + {r};
    var next := if !(r.sink in allowed && allowed[r.sink]) then allowed[r.sink := !r.isExclusive] else allowed;
    assert r in after;
    forall sink | sink in allowed ensures exists q | q in after :: q.sink == sink {
      var q :| q in hits && q.sink == sink;
      assert q in after;
    }
    forall sink | sink in next
      ensures next[sink] <==> exists q | q in after :: q.sink == sink && !q.isExclusive
    {
      if sink in allowed && allowed[sink] {
        var q :| q in hits && q.sink == sink && !q.isExclusive;
        assert q in after;
      }
    }
  }

  /** The sink ports the sources reach, and whether over a route that is not exclusive. */
  ghost predicate AllowedFrom(routes: seq<Route>, sources: seq<Config>, allowed: map<int, bool>)
  {
    AllowedBy(RoutesFrom(routes, sources), allowed)
  }

  lemma SelectedLeads(configs: seq<Config>, ids: seq<int>, sources: seq<Config>, r: Route)
    requires SelectedBy(configs, ids, sources)
    ensures LeadsFrom(configs, ids, r) <==> exists c | c in sources :: c.portId in r.sources
  {
  }

  lemma AllowedMeans(s: Store, ids: seq<int>, sources: seq<Config>, allowed: map<int, bool>, sink: int)
    requires SelectedBy(s.configs, ids, sources) && AllowedFrom(s.routes, sources, allowed)
    ensures sink in allowed <==> Routed(s, ids, sink)
    ensures sink in allowed ==> (allowed[sink] <==> Shareable(s, ids, sink))
  {
    hide SelectedBy;
    hide LeadsFrom;
    var hits := RoutesFrom(s.routes, sources);
    forall r ensures r in hits <==> r in s.routes && LeadsFrom(s.configs, ids, r) {
      SelectedLeads(s.configs, ids, sources, r);
    }
  }

  lemma AllRoutedMeans(s: Store, req: Patch, sources: seq<Config>, sinks: seq<Config>, allowed: map<int, bool>)
    requires SelectedBy(s.configs, req.sources, sources) && SelectedBy(s.configs, req.sinks, sinks)
    requires AllowedFrom(s.routes, sources, allowed)
    ensures (forall c | c in sinks :: c.portId in allowed) <==> AllRouted(s, req)
  {
    hide AllowedFrom, Routed;
    forall c: Config ensures c.portId in allowed <==> Routed(s, req.sources, c.portId) {
      AllowedMeans(s, req.sources, sources, allowed, c.portId);
    }
  }

  lemma TakenMeans(s: Store, index: seq<(int, int)>, req: Patch, sources: seq<Config>, allowed: map<int, bool>)
    requires SelectedBy(s.configs, req.sources, sources) && AllowedFrom(s.routes, sources, allowed)
    ensures (exists k | k in allowed :: !allowed[k] && HasKey(index, k)) <==> ExclusiveInUse(s, index, req)
  {
    hide AllowedFrom, HasKey, LeadsFrom, Shareable;
    forall k ensures k in allowed <==> Routed(s, req.sources, k)
      ensures k in allowed ==> (allowed[k] <==> Shareable(s, req.sources, k))
    {
      AllowedMeans(s, req.sources, sources, allowed, k);
    }
    if k :| k in allowed && !allowed[k] && HasKey(index, k) {
      var r :| r in s.routes && r.sink == k && LeadsFrom(s.configs, req.sources, r);
    }
    if ExclusiveInUse(s, index, req) {
      var r :| r in s.routes && LeadsFrom(s.configs, req.sources, r) && !Shareable(s, req.sources, r.sink) && HasKey(index, r.sink);
      assert Routed(s, req.sources, r.sink);
    }
  }

  // ---------- Devices: what the loops of connectExternalDevice find ----------

  lemma ClaimsStep(ports: seq<Port>, i: nat, routable: set<int>, connected: map<int, set<int>>)
    requires i < |ports|
    ensures
      var p := ports[i];
      NewClaims(ports[..i + 1], routable, connected) == NewClaims(ports[..i], routable, connected) +
      if p.id in routable && (HasDynamicProfilesOnly(p.profiles) || Claimed(connected, p.id)) then {p.id} else {}
  {
    hide HasDynamicProfilesOnly, Claimed;
    assert ports[..i + 1] == ports[..i] + [ports[i]];
  }

  /** The claims made so far are of other ports, so they do not change whether this one is claimed. */
  lemma ClaimedWhileFilling(ports: seq<Port>, i: nat, routable: set<int>, connected: map<int, set<int>>, port: int)
    requires i < |ports| && Distinct(PortIds(ports)) && port in connected && connected[port] == {}
    ensures
      var so := connected[port := NewClaims(ports[..i], routable, connected)];
      Claimed(so, ports[i].id) <==> Claimed(connected, ports[i].id)
  {
    hide HasDynamicProfilesOnly;
    var id := ports[i].id;
    var claims := NewClaims(ports[..i], routable, connected);
    var so := connected[port := claims];
    forall p | p in ports[..i] ensures p.id != id {
      var j :| 0 <= j < i && ports[j] == p;
      assert PortIds(ports)[j] != PortIds(ports)[i];
    }
    assert id !in claims;
    if Claimed(connected, id) {
      var k :| k in connected && id in connected[k];
      assert k in so && id in so[k];
    }
    if Claimed(so, id) {
      var k :| k in so && id in so[k];
      assert k in connected && id in connected[k];
    }
  }

  lemma NoCopies(template: int, port: int)
    ensures CopiedRoutes([], template, port) == []
  {
  }

  lemma CopiesGrow(routes: seq<Route>, i: nat, template: int, port: int)
    requires i < |routes|
    ensures CopiedRoutes(routes[..i + 1], template, port) == CopiedRoutes(routes[..i], template, port) +
      (if routes[i].sink == template then [routes[i].(sink := port)] else [])
  {
    assert routes[..i + 1][..i] == routes[..i];
  }

  lemma PopulateStep(ports: seq<Port>, i: nat, given: map<int, seq<Profile>>)
    requires i < |ports|
    ensures
      var before, p := Populate(ports[..i], given), ports[i];
      && Populate([], given) == given
      && Populate(ports[..i + 1], given) ==
           if LacksProfiles(p) && p.id !in before then before[p.id := STANDARD_PROFILES] else before
  {
    assert ports[..i + 1] == ports[..i] + [ports[i]];
  }

  lemma ProfilesDoNotMatter(s: Store, profiles: map<int, seq<Profile>>)
    requires Inv(s)
    ensures Inv(s.(connectedProfiles := profiles))
  {
    hide Numbered, Names, InUse, SinksInto, HasSharedRoute, Claimed, Count, HasDynamicProfilesOnly;
    var u := s.(connectedProfiles := profiles);
    forall t | t in u.streams ensures OnMixPort(u, t) { assert OnMixPort(s, t); }
    forall p | p in u.ports ensures WithinLimit(u, p) { assert WithinLimit(s, p); }
  }

  lemma DevicesKnown(s: Store)
    requires Inv(s)
    ensures forall k | k in s.connected :: IsDevice(s.ports, k)
  {
    hide IndexExact, SinksExclusive, RoutesOnPorts, PatchesOnConfigs, StreamsOnConfigs, ConfigsOnPorts, InitialsFixed;
    forall k | k in s.connected ensures IsDevice(s.ports, k) {
      var p :| p in s.ports && p.id == k && p.ext.DeviceExt?;
      FoundPort(s.ports, p);
    }
  }

  lemma PushedDistinct(s: Store, p: Port)
    requires Inv(s) && p.id == s.nextPortId
    ensures Distinct(PortIds(s.ports + [p]))
  {
    hide IndexExact, SinksExclusive, RoutesOnPorts, PatchesOnConfigs, StreamsOnConfigs, ConfigsOnPorts, InitialsFixed;
    PortPushed(s.ports, p);
    NumberedBelow(PortIds(s.ports), s.nextPortId);
    DistinctPush(PortIds(s.ports), p.id);
  }

  lemma UnpluggedDistinct(s: Store, i: nat)
    requires Inv(s) && i < |s.ports|
    ensures Distinct(PortIds(Unplug(s, i).ports))
  {
    hide IndexExact, SinksExclusive, RoutesOnPorts, PatchesOnConfigs, StreamsOnConfigs, ConfigsOnPorts, InitialsFixed;
    PortErased(s.ports, i);
    DistinctErase(PortIds(s.ports), i);
  }

  // ---------- Streams: what the loop of findConnectedPortConfigIds finds ----------

  /** For an id that is no port's, the index lists exactly the patches that name it. */
  lemma ListedIsNamed(s: Store, id: int, a: Patch)
    requires Inv(s) && id !in PortIds(s.ports) && a in s.patches
    ensures (id, a.id) in s.index <==> Names(a, id)
  {
    hide SinksExclusive, StreamsOnConfigs, StreamLimits, RoutesOnPorts, InitialsFixed, ConnectedAreDevices, ClaimsAreReal;
    if (id, a.id) in s.index {
      var b :| b in s.patches && b.id == a.id && Uses(s.configs, b, id);
      FoundPatch(s.patches, a);
      FoundPatch(s.patches, b);
    }
    if Names(a, id) {
      assert id in ConfigIds(s.configs);
      var i :| 0 <= i < |s.configs| && ConfigIds(s.configs)[i] == id;
      assert s.configs[i] in s.configs && Uses(s.configs, a, id);
      assert InUse(s.configs, s.patches, id, a.id);
    }
  }

  /** The other sides of the patches that these index entries lead to from `id`. */
  ghost predicate Gathered(patches: seq<Patch>, entries: seq<(int, int)>, id: int, ids: set<int>)
  {
    forall x :: x in ids <==> exists a | a in patches :: (id, a.id) in entries && x in StreamDevices.Other(a, id)
  }

  lemma GatherEntry(patches: seq<Patch>, index: seq<(int, int)>, i: nat, id: int, ids: set<int>, p: nat)
    requires i < |index| && p < |patches| && Distinct(PatchIds(patches)) && index[i] == (id, patches[p].id)
    requires Gathered(patches, index[..i], id, ids)
    ensures Gathered(patches, index[..i + 1], id, ids + StreamDevices.Other(patches[p], id))
  {
    assert index[..i + 1] == index[..i] + [index[i]];
    assert patches[p] in patches;
    forall a | a in patches && a.id == patches[p].id ensures a == patches[p] {
      FoundPatch(patches, a);
      FoundPatch(patches, patches[p]);
    }
  }

  lemma NothingGathered(patches: seq<Patch>, id: int)
    ensures Gathered(patches, [], id, {})
  {
  }

  lemma EntryIsFound(s: Store, i: nat)
    requires Inv(s) && i < |s.index|
    ensures Find(PatchIds(s.patches), s.index[i].1) < |s.patches|
  {
    hide SinksExclusive, StreamsOnConfigs, StreamLimits, RoutesOnPorts, InitialsFixed, ConnectedAreDevices, ClaimsAreReal;
    assert (s.index[i].0, s.index[i].1) in s.index;
    IndexLeadsSomewhere(s, s.index[i].0, s.index[i].1);
  }

  lemma SkipIndexEntry(patches: seq<Patch>, index: seq<(int, int)>, i: nat, id: int, ids: set<int>)
    requires i < |index| && index[i].0 != id && Gathered(patches, index[..i], id, ids)
    ensures Gathered(patches, index[..i + 1], id, ids)
  {
    assert index[..i + 1] == index[..i] + [index[i]];
  }

  lemma GatheredAll(s: Store, id: int, ids: set<int>)
    requires Inv(s) && id !in PortIds(s.ports) && Gathered(s.patches, s.index, id, ids)
    ensures ids == StreamDevices.ConnectedIds(s.patches, id)
  {
    hide Inv, Names;
    forall a | a in s.patches ensures (id, a.id) in s.index <==> Names(a, id) { ListedIsNamed(s, id, a); }
    hide StreamDevices.Other;
    assert forall x :: x in ids <==> x in StreamDevices.ConnectedIds(s.patches, id);
  }

  class Module {
    var ports: seq<Port>
    var configs: seq<Config>
    var initials: seq<Config>
    var routes: seq<Route>
    var patches: seq<Patch>
    var nextPortId: int
    var nextPatchId: int
    var index: seq<(int, int)>
    var connected: map<int, set<int>>
    var connectedProfiles: map<int, seq<Profile>>
    var streams: seq<Stream>

    /** Takes over a configuration, and fills in profiles for its external devices. */
    constructor (config: Store)
      requires Inv(config)
      ensures View() == config.(connectedProfiles := Populate(config.ports, config.connectedProfiles))
      ensures Valid()
    {
      ports, configs, initials, routes := config.ports, config.configs, config.initials, config.routes;
      patches, nextPortId, nextPatchId := config.patches, config.nextPortId, config.nextPatchId;
      index, connected, streams := config.index, config.connected, config.streams;
      connectedProfiles := config.connectedProfiles;
      new;
      PopulateConnectedProfiles();
      ProfilesDoNotMatter(config, connectedProfiles);
    }

    method PopulateConnectedProfiles()
      modifies this`connectedProfiles
      ensures connectedProfiles == Populate(ports, old(connectedProfiles))
    {
      ghost var given := connectedProfiles;
      var i := 0;
      while i < |ports|
        invariant i <= |ports| && connectedProfiles == Populate(ports[..i], given)
      {
        PopulateStep(ports, i, given);
        var p := ports[i];
        if LacksProfiles(p) && p.id !in connectedProfiles {
          connectedProfiles := connectedProfiles[p.id := STANDARD_PROFILES];
        }
        i := i + 1;
      }
      assert ports[..i] == ports;
    }

    ghost function View(): Store
      reads this
    {
      Store(ports, configs, initials, routes, patches, nextPortId, nextPatchId, index, connected,
            connectedProfiles, streams)
    }

    ghost predicate Valid()
      reads this
    {
      Inv(View())
    }

    // ---------- Looking things up ----------

    method PortPlace(id: int) returns (i: nat)
      ensures i == Find(PortIds(ports), id)
    {
      i := 0;
      while i < |ports| && ports[i].id != id
        invariant i <= |ports| && id !in PortIds(ports)[..i]
      {
        i := i + 1;
      }
      FindIs(PortIds(ports), id, i);
    }

    method ConfigPlace(id: int) returns (i: nat)
      ensures i == Find(ConfigIds(configs), id)
    {
      i := 0;
      while i < |configs| && configs[i].id != id
        invariant i <= |configs| && id !in ConfigIds(configs)[..i]
      {
        i := i + 1;
      }
      FindIs(ConfigIds(configs), id, i);
    }

    method InitialPlace(id: int) returns (i: nat)
      ensures i == Find(ConfigIds(initials), id)
    {
      i := 0;
      while i < |initials| && initials[i].id != id
        invariant i <= |initials| && id !in ConfigIds(initials)[..i]
      {
        i := i + 1;
      }
      FindIs(ConfigIds(initials), id, i);
    }

    method PatchPlace(id: int) returns (i: nat)
      ensures i == Find(PatchIds(patches), id)
    {
      i := 0;
      while i < |patches| && patches[i].id != id
        invariant i <= |patches| && id !in PatchIds(patches)[..i]
      {
        i := i + 1;
      }
      FindIs(PatchIds(patches), id, i);
    }

    method IndexHas(key: int) returns (found: bool)
      ensures found <==> HasKey(index, key)
    {
      var i := 0;
      while i < |index|
        invariant i <= |index| && forall e | e in index[..i] :: e.0 != key
      {
        if index[i].0 == key {
          return true;
        }
        i := i + 1;
      }
      assert index[..i] == index;
      found := false;
    }

    method CountStreams(id: int) returns (n: nat)
      ensures n == Count(streams, id)
    {
      n := 0;
      var i := 0;
      while i < |streams|
        invariant i <= |streams| && n == Count(streams[..i], id)
      {
        assert streams[..i + 1][..i] == streams[..i];
        if streams[i].configId == id || streams[i].portId == id {
          n := n + 1;
        }
        i := i + 1;
      }
      assert streams[..i] == streams;
    }

    // ---------- Patches ----------

    method CleanUp(patchId: int)
      modifies this`index
      ensures index == CleanUpPatch(old(index), patchId)
    {
      var i := 0;
      while i < |index|
        invariant i <= |index|
        invariant CleanUpPatch(index, patchId) == CleanUpPatch(old(index), patchId)
        invariant forall e | e in index[..i] :: e.1 != patchId
        decreases |index| - i
      {
        if index[i].1 == patchId {
          CleanUpErase(index, i, patchId);
          assert Erase(index, i)[..i] == index[..i];
          index := Erase(index, i);
        } else {
          i := i + 1;
        }
      }
      assert index[..i] == index;
      NothingToCleanUp(index, patchId);
    }

    method InsertPairsFor(configId: int, patchId: int)
      modifies this`index
      ensures index == old(index) + PairsFor(configs, configId, patchId)
    {
      hide Find;
      var i := ConfigPlace(configId);
      if i < |configs| {
        index := index + [(configId, patchId)];
        if configs[i].portId != configId {
          index := index + [(configs[i].portId, patchId)];
        }
      }
    }

    method InsertPairs(ids: seq<int>, patchId: int)
      modifies this`index
      ensures index == old(index) + Pairs(configs, ids, patchId)
    {
      var n := 0;
      while n < |ids|
        invariant n <= |ids| && index == old(index) + Pairs(configs, ids[..n], patchId)
      {
        hide Pairs, Find;
        PairsStep(configs, ids, n, patchId);
        InsertPairsFor(ids[n], patchId);
        n := n + 1;
      }
      assert ids[..n] == ids;
    }

    method Register(a: Patch)
      modifies this`index
      ensures index == RegisterPatch(old(index), configs, a)
    {
      InsertPairs(a.sources, a.id);
      InsertPairs(a.sinks, a.id);
    }

    /** The configs with these ids, and whether an id was not found. */
    method SelectByIds(ids: seq<int>) returns (selected: seq<Config>, missing: bool)
      requires Distinct(ConfigIds(configs))
      ensures SelectedBy(configs, ids, selected)
      ensures missing <==> !AllPresent(configs, ids)
    {
      var left := set id | id in ids;
      selected := [];
      var i := 0;
      while i < |configs|
        invariant i <= |configs|
        invariant forall c :: c in selected <==> c in configs[..i] && c.id in ids
        invariant forall id :: id in left <==> id in ids && id !in ConfigIds(configs)[..i]
      {
        var c := configs[i];
        assert configs[..i + 1] == configs[..i] + [c];
        assert ConfigIds(configs)[..i + 1] == ConfigIds(configs)[..i] + [c.id];
        if c.id in left {
          selected := selected + [c];
          left := left - {c.id};
        }
        i := i + 1;
      }
      assert configs[..i] == configs && ConfigIds(configs)[..i] == ConfigIds(configs);
      missing := left != {};
      if missing { SomeIn(left); }
    }

    method AllowedSinks(sources: seq<Config>) returns (allowed: map<int, bool>)
      ensures AllowedFrom(routes, sources, allowed)
    {
      allowed := map[];
      var i := 0;
      while i < |sources|
        invariant i <= |sources| && AllowedFrom(routes, sources[..i], allowed)
      {
        allowed := AllowFrom(sources[..i], sources[i], allowed);
        assert sources[..i + 1] == sources[..i] + [sources[i]];
        i := i + 1;
      }
      assert sources[..i] == sources;
    }

    /** The inner loop over the routes, for one source. */
    method AllowFrom(done: seq<Config>, source: Config, before: map<int, bool>) returns (allowed: map<int, bool>)
      requires AllowedFrom(routes, done, before)
      ensures AllowedFrom(routes, done + [source], allowed)
    {
      hide AllowedBy;
      allowed := before;
      ghost var hits := RoutesFrom(routes, done);
      var j := 0;
      while j < |routes|
        invariant j <= |routes| && AllowedBy(hits, allowed)
        invariant forall r :: r in hits <==> r in RoutesFrom(routes, done) || (r in routes[..j] && source.portId in r.sources)
      {
        assert routes[..j + 1] == routes[..j] + [routes[j]];
        var r := routes[j];
        if source.portId in r.sources {
          AllowedStep(hits, allowed, r);
          hits := hits + {r};
          if !(r.sink in allowed && allowed[r.sink]) {
            allowed := allowed[r.sink := !r.isExclusive];
          }
        }
        j := j + 1;
      }
      assert routes[..j] == routes;
      assert hits == RoutesFrom(routes, done + [source]);
    }

    method AllAllowed(sinks: seq<Config>, allowed: map<int, bool>) returns (ok: bool)
      ensures ok <==> forall c | c in sinks :: c.portId in allowed
    {
      var i := 0;
      while i < |sinks|
        invariant i <= |sinks| && forall c | c in sinks[..i] :: c.portId in allowed
      {
        if sinks[i].portId !in allowed {
          return false;
        }
        i := i + 1;
      }
      assert sinks[..i] == sinks;
      ok := true;
    }

    /** Walks the map in any order. */
    method ExclusiveTaken(allowed: map<int, bool>) returns (taken: bool)
      ensures taken <==> exists k | k in allowed :: !allowed[k] && HasKey(index, k)
    {
      var todo := allowed.Keys;
      while todo != {}
        invariant todo <= allowed.Keys
        invariant forall k | k in allowed && k !in todo :: allowed[k] || !HasKey(index, k)
        decreases |todo|
      {
        SomeIn(todo);
        var k :| k in todo;
        var used := IndexHas(k);
        if !allowed[k] && used {
          return true;
        }
        todo := todo - {k};
      }
      taken := false;
    }

    /** The checks that need no table changed. */
    method CheckRequest(req: Patch) returns (ok: bool, allowed: map<int, bool>, ghost sources: seq<Config>)
      requires Valid()
      ensures ok <==> AudioPatches.WellFormed(View(), req)
      ensures ok ==> SelectedBy(configs, req.sources, sources) && AllowedFrom(routes, sources, allowed)
    {
      hide IndexExact, SinksExclusive, PatchesOnConfigs, StreamsOnConfigs, StreamLimits, ClaimsAreReal;
      hide ConfigsOnPorts, RoutesOnPorts, ConnectedAreDevices, InitialsFixed, SelectedBy, AllowedFrom, AllRouted;
      allowed, sources := map[], [];
      if req.sources == [] || !Distinct(req.sources) || req.sinks == [] || !Distinct(req.sinks) {
        return false, allowed, sources;
      }
      var selected, missing := SelectByIds(req.sources);
      if missing {
        return false, allowed, sources;
      }
      var sinks, missingSinks := SelectByIds(req.sinks);
      if missingSinks {
        return false, allowed, sources;
      }
      allowed := AllowedSinks(selected);
      ok := AllAllowed(sinks, allowed);
      sources := selected;
      AllRoutedMeans(View(), req, selected, sinks, allowed);
    }

    method SetAudioPatch(req: Patch, h: Hooks) returns (r: Reply<Patch>)
      requires Valid()
      modifies this`index, this`patches, this`nextPatchId
      ensures (View(), r) == AudioPatches.SetAudioPatch(old(View()), req, h)
      ensures Valid() <==> !LateUpdateFailure(old(View()), req, h)
    {
      hide Inv, AudioPatches.WellFormed, SelectedBy, AllowedFrom, ExclusiveInUse, HasKey, RegisterPatch, CleanUpPatch, Find;
      ghost var s := View();
      SetPatchKeepsInv(s, req, h);
      var ok, allowed, sources := CheckRequest(req);
      if !ok {
        return Failure(IllegalArgument);
      }
      if h.endpoints.Some? {
        return Failure(h.endpoints.value);
      }
      var existing, backup := |patches|, index;
      if req.id != 0 {
        existing := PatchPlace(req.id);
        if existing == |patches| {
          return Failure(IllegalArgument);
        }
        CleanUp(req.id);
      }
      var taken := ExclusiveTaken(allowed);
      TakenMeans(s, index, req, sources, allowed);
      if taken || h.bufferFrames.None? {
        index := backup;
        return Failure(IllegalState);
      }
      var a := Patch(if req.id != 0 then req.id else nextPatchId, req.sources, req.sinks, h.bufferFrames.value,
                     seq(|req.sinks|, i => h.latency));
      var created, oldPatch := existing == |patches|, a;
      if created {
        nextPatchId := nextPatchId + 1;
        patches := patches + [a];
      } else {
        oldPatch := patches[existing];
        patches := patches[existing := a];
      }
      backup := index;
      Register(a);
      if h.streams.Some? {
        index := backup;
        if created {
          patches := patches[..|patches| - 1];
        } else {
          patches := patches[existing := oldPatch];
        }
        assert patches == s.patches;
        return Failure(h.streams.value);
      }
      r := Success(a);
    }

    method ResetAudioPatch(patchId: int, streamsStatus: Option<Status>) returns (r: Reply<()>)
      requires Valid()
      modifies this`index, this`patches
      ensures Valid() && (View(), r) == AudioPatches.ResetAudioPatch(old(View()), patchId, streamsStatus)
    {
      hide Inv, CleanUpPatch, Find, Erase;
      ghost var s := View();
      ResetKeepsInv(s, patchId, streamsStatus);
      var i := PatchPlace(patchId);
      if i == |patches| {
        return Failure(IllegalArgument);
      }
      var backup := index;
      CleanUp(patches[i].id);
      if streamsStatus.Some? {
        index := backup;
        return Failure(streamsStatus.value);
      }
      patches := Erase(patches, i);
      r := Success(());
    }

    // ---------- Port configs and streams ----------

    /** Fills in a fresh config from the first static profile. */
    method GenerateDefault(p: Port) returns (c: Option<Config>)
      ensures c == DefaultConfig(p)
    {
      var i := 0;
      while i < |p.profiles|
        invariant i <= |p.profiles| && FirstStatic(p.profiles) == FirstStatic(p.profiles[i..])
      {
        var profile := p.profiles[i];
        if !IsDynamic(profile) {
          return Some(Config(0, p.id, profile.format, profile.channelMasks[0], profile.sampleRates[0], p.flags, None, p.ext));
        }
        i := i + 1;
      }
      if p.ext.DeviceExt? {
        return Some(Config(0, p.id, 0, 0, 0, p.flags, None, p.ext));
      }
      c := None;
    }

    /** Goes over the requested fields one by one. */
    method Adjust(p: Port, start: Config, req: ConfigRequest, gainOk: bool) returns (r: Reply<Suggestion>)
      ensures r == Suggest(p, start, req, gainOk)
    {
      hide FormatSupported, MaskSupported, RateSupported;
      var config, valid, full := start, true, true;
      if req.flags.None? {
        full := false;
      } else if req.flags.value != p.flags {
        valid := false;
      }
      if req.format.None? {
        full := false;
      } else if FormatSupported(p, req.format.value) {
        config := config.(format := req.format.value);
      } else {
        valid := false;
      }
      if !FormatSupported(p, config.format) {
        return Failure(IllegalArgument);
      }
      if req.channelMask.None? {
        full := false;
      } else if MaskSupported(p, config.format, req.channelMask.value) {
        config := config.(channelMask := req.channelMask.value);
      } else {
        valid := false;
      }
      if req.sampleRate.None? {
        full := false;
      } else if RateSupported(p, config.format, req.sampleRate.value) {
        config := config.(sampleRate := req.sampleRate.value);
      } else {
        valid := false;
      }
      if req.gain.Some? {
        if !gainOk {
          return Failure(IllegalArgument);
        }
        config := config.(gain := req.gain);
      }
      if !req.ext.Unspecified? {
        if !SameTag(req.ext, config.ext) {
          valid := false;
        } else if config.ext.MixExt? {
          config := config.(ext := config.ext.(handle := req.ext.handle, usecase := req.ext.usecase));
        }
      }
      r := Success(Suggestion(config, valid, full));
    }

    method SetAudioPortConfig(req: ConfigRequest, gainOk: bool) returns (r: Reply<(Config, bool)>)
      requires Valid()
      modifies this`configs, this`nextPortId
      ensures Valid() && (View(), r) == AudioConfigs.SetAudioPortConfig(old(View()), req, gainOk)
    {
      hide Inv, Suggest, Find, DefaultConfig;
      SetConfigKeepsInv(View(), req, gainOk);
      var existing := |configs|;
      if req.id != 0 {
        existing := ConfigPlace(req.id);
        if existing == |configs| {
          return Failure(IllegalArgument);
        }
      }
      var portId := if existing < |configs| then configs[existing].portId else req.portId;
      if portId == 0 {
        return Failure(IllegalArgument);
      }
      var i := PortPlace(portId);
      if i == |ports| {
        return Failure(IllegalArgument);
      }
      if NeedsConnection(ports[i]) && portId !in connected {
        return Failure(IllegalArgument);
      }
      var start: Config;
      if existing < |configs| {
        start := configs[existing];
      } else {
        var generated := GenerateDefault(ports[i]);
        if generated.None? {
          return Failure(IllegalArgument);
        }
        start := generated.value;
      }
      var suggested := Adjust(ports[i], start, req, gainOk);
      match suggested
      case Aborted => r := Aborted;
      case Failure(status) => r := Failure(status);
      case Success(so) =>
        if existing == |configs| && so.valid && so.full {
          var c := so.config.(id := nextPortId);
          nextPortId := nextPortId + 1;
          configs := configs + [c];
          r := Success((c, true));
        } else if existing < |configs| && so.valid {
          configs := configs[existing := so.config];
          r := Success((so.config, true));
        } else {
          r := Success((so.config, false));
        }
    }

    method ResetAudioPortConfig(configId: int) returns (r: Reply<()>)
      requires Valid()
      modifies this`configs
      ensures Valid() && (View(), r) == AudioConfigs.ResetAudioPortConfig(old(View()), configId)
    {
      hide Inv, Find, HasKey, Count, Erase;
      ResetConfigKeepsInv(View(), configId);
      var i := ConfigPlace(configId);
      if i == |configs| {
        return Failure(IllegalArgument);
      }
      var open := CountStreams(configId);
      if open != 0 {
        return Failure(IllegalState);
      }
      var used := IndexHas(configId);
      if used {
        return Failure(IllegalState);
      }
      var j := InitialPlace(configId);
      if j == |initials| {
        configs := Erase(configs, i);
      } else if configs[i] != initials[j] {
        configs := configs[i := initials[j]];
      } else {
        assert configs[i := initials[j]] == configs;
      }
      r := Success(());
    }

    method OpenStream(configId: int, input: bool, prepared: Option<Status>) returns (r: Reply<Stream>)
      requires Valid()
      modifies this`streams
      ensures Valid() && (View(), r) == AudioConfigs.OpenStream(old(View()), configId, input, prepared)
    {
      hide Inv, Find, Count;
      OpenKeepsInv(View(), configId, input, prepared);
      var i := ConfigPlace(configId);
      if i == |configs| {
        return Failure(IllegalArgument);
      }
      var portId := configs[i].portId;
      if portId == configId {
        return Aborted;
      }
      var j := PortPlace(portId);
      if j == |ports| {
        return Failure(IllegalArgument);
      }
      var onConfig := CountStreams(configId);
      if onConfig != 0 {
        return Failure(IllegalState);
      }
      if !ports[j].ext.MixExt? {
        return Failure(IllegalArgument);
      }
      var most := ports[j].ext.maxOpenStreamCount;
      var onPort := CountStreams(portId);
      if most != 0 && onPort >= most {
        return Failure(IllegalState);
      }
      if ports[j].flags.Input? != input {
        return Failure(IllegalArgument);
      }
      if prepared.Some? {
        return Failure(prepared.value);
      }
      var t := Stream(configId, ports[j].id);
      streams := streams + [t];
      r := Success(t);
    }

    /** The configs at the other ends of the patches of a config; every patch is found. */
    method FindConnectedPortConfigIds(configId: int) returns (ids: set<int>)
      requires Valid() && configId !in PortIds(ports)
      ensures ids == StreamDevices.ConnectedIds(patches, configId)
    {
      hide Inv, StreamDevices.Other, Gathered, Find;
      StreamDevices.DistinctConfigs(View());
      ids := {};
      var i := 0;
      NothingGathered(patches, configId);
      assert index[..0] == [];
      while i < |index|
        invariant i <= |index| && Gathered(patches, index[..i], configId, ids)
      {
        if index[i].0 == configId {
          EntryIsFound(View(), i);
          var p := PatchPlace(index[i].1);
          GatherEntry(patches, index, i, configId, ids, p);
          ids := ids + StreamDevices.Other(patches[p], configId);
        } else {
          SkipIndexEntry(patches, index, i, configId, ids);
        }
        i := i + 1;
      }
      assert index[..i] == index;
      GatheredAll(View(), configId, ids);
    }

    method CloseStream(t: nat)
      requires Valid()
      modifies this`streams
      ensures Valid() && View() == AudioConfigs.CloseStream(old(View()), t)
    {
      hide Inv, Erase;
      CloseKeepsInv(View(), t);
      if t < |streams| {
        streams := Erase(streams, t);
      }
    }

    // ---------- External devices ----------

    /** Whether the external device is connected already; every connected port is found. */
    method AlreadyConnected(device: Device) returns (found: bool)
      requires forall k | k in connected :: IsDevice(ports, k)
      ensures found <==> exists k | k in connected :: SameDevice(ports, k, device)
    {
      hide Find;
      var todo := connected.Keys;
      while todo != {}
        invariant todo <= connected.Keys
        invariant forall k | k in connected && k !in todo :: !SameDevice(ports, k, device)
        decreases |todo|
      {
        SomeIn(todo);
        var k :| k in todo;
        var i := PortPlace(k);
        assert IsDevice(ports, k);
        if ports[i].ext.device == device {
          assert SameDevice(ports, k, device);
          return true;
        }
        todo := todo - {k};
      }
      found := false;
    }

    method RoutablePorts(template: int) returns (routable: set<int>)
      ensures routable == Routable(routes, template)
    {
      routable := {};
      var i := 0;
      while i < |routes|
        invariant i <= |routes| && routable == Routable(routes[..i], template)
      {
        assert routes[..i + 1][..i] == routes[..i];
        var r := routes[i];
        if r.sink == template {
          routable := routable + set x | x in r.sources;
        } else if template in r.sources {
          routable := routable + {r.sink};
        }
        i := i + 1;
      }
      assert routes[..i] == routes;
    }

    /** Adds the port to the sources of the template's routes, and copies the routes into the template. */
    method ExtendRoutes(template: int, port: int)
      modifies this`routes
      ensures routes == AddSources(old(routes), template, port) + CopiedRoutes(old(routes), template, port)
    {
      hide CopiedRoutes;
      ghost var before := routes;
      var newRoutes: seq<Route> := [];
      NoCopies(template, port);
      var i := 0;
      while i < |routes|
        invariant i <= |routes| == |before|
        invariant newRoutes == CopiedRoutes(before[..i], template, port)
        invariant forall j | 0 <= j < |before| ::
          routes[j] == if j < i then AddSource(before[j], template, port) else before[j]
      {
        CopiesGrow(before, i, template, port);
        var r := routes[i];
        if r.sink == template {
          newRoutes := newRoutes + [Route(r.sources, port, r.isExclusive)];
        } else if template in r.sources {
          routes := routes[i := r.(sources := r.sources + [port])];
        }
        i := i + 1;
      }
      assert before[..i] == before;
      assert routes == AddSources(before, template, port);
      routes := routes + newRoutes;
    }

    /** Fills dynamic routable ports, and claims those that are filled here or were filled before. */
    method FillPorts(port: int, routable: set<int>, profiles: seq<Profile>)
      requires port in connected && connected[port] == {}
      requires Distinct(PortIds(ports))
      modifies this`ports, this`connected
      ensures ports == Stuffed(old(ports), routable, profiles)
      ensures connected == old(connected)[port := NewClaims(old(ports), routable, old(connected))]
    {
      hide HasDynamicProfilesOnly, Claimed;
      ghost var before := ports;
      ghost var was := connected;
      ghost var claims := {};
      assert was == was[port := {}];
      var i := 0;
      while i < |ports|
        invariant i <= |ports| == |before|
        invariant forall j | 0 <= j < |before| ::
          ports[j] == if j < i then StuffedPort(before[j], routable, profiles) else before[j]
        invariant claims == NewClaims(before[..i], routable, was) && connected == was[port := claims]
      {
        ClaimsStep(before, i, routable, was);
        ClaimedWhileFilling(before, i, routable, was, port);
        var p := ports[i];
        if p.id in routable {
          if HasDynamicProfilesOnly(p.profiles) {
            ports := ports[i := p.(profiles := profiles)];
            connected := connected[port := connected[port] + {p.id}];
            claims := claims + {p.id};
          } else if Claimed(connected, p.id) {
            connected := connected[port := connected[port] + {p.id}];
            claims := claims + {p.id};
          }
        }
        i := i + 1;
      }
      assert before[..i] == before;
    }

    method ConnectExternalDevice(req: DeviceRequest, simulate: bool, population: Population) returns (r: Reply<Port>)
      requires Valid()
      modifies this`ports, this`routes, this`connected, this`nextPortId
      ensures Valid() && (View(), r) == AudioDevices.ConnectExternalDevice(old(View()), req, simulate, population)
    {
      hide Inv, Find, Routable, HasDynamicProfilesOnly, HasDynamicRoutable, IsDevice, SameDevice, PlugIn, Stuff;
      ghost var s := View();
      ConnectKeepsInv(s, req, simulate, population);
      DevicesKnown(s);
      var i := PortPlace(req.templateId);
      if i == |ports| || !ports[i].ext.DeviceExt? || ports[i].ext.device.connection == "" || req.templateId in connected {
        return Failure(IllegalArgument);
      }
      var p := Candidate(ports[i], req);
      var already := AlreadyConnected(p.ext.device);
      if already {
        return Failure(IllegalState);
      }
      var routable := RoutablePorts(req.templateId);
      var portId := nextPortId;
      nextPortId := nextPortId + 1;
      if !simulate {
        match population
        case NotPopulated(status) => return Failure(status);
        case Populated(profiles) => p := p.(profiles := profiles);
      } else if HasDynamicProfilesOnly(p.profiles) && req.templateId in connectedProfiles {
        p := p.(profiles := connectedProfiles[req.templateId]);
      }
      if HasDynamicProfilesOnly(p.profiles) && HasDynamicRoutable(ports, routable) {
        return Failure(IllegalState);
      }
      p := p.(id := portId);
      PushedDistinct(s, p);
      Attach(req.templateId, p, routable);
      r := Success(p);
    }

    /** Enters the port in the tables, and hands its profiles to the ports it can reach. */
    method Attach(template: int, p: Port, routable: set<int>)
      requires Distinct(PortIds(ports + [p]))
      requires nextPortId == p.id + 1
      modifies this`ports, this`routes, this`connected
      ensures
        var plugged := PlugIn(old(View()).(nextPortId := p.id), template, p);
        View() == if HasDynamicProfilesOnly(p.profiles) || routable == {} then plugged
                  else Stuff(plugged, p.id, routable, p.profiles)
    {
      hide HasDynamicProfilesOnly, AddSources, CopiedRoutes, Stuffed, NewClaims;
      connected := connected[p.id := {}];
      ports := ports + [p];
      ExtendRoutes(template, p.id);
      assert View() == PlugIn(old(View()).(nextPortId := p.id), template, p);
      if !HasDynamicProfilesOnly(p.profiles) && routable != {} {
        FillPorts(p.id, routable, p.profiles);
      }
    }

    method DropFromRoutes(port: int)
      modifies this`routes
      ensures routes == DropRoutes(old(routes), port)
    {
      var kept: seq<Route> := [];
      var i := 0;
      while i < |routes|
        invariant i <= |routes| && kept == DropRoutes(routes[..i], port)
      {
        assert routes[..i + 1][..i] == routes[..i];
        if routes[i].sink != port {
          kept := kept + [routes[i].(sources := Without(routes[i].sources, port))];
        }
        i := i + 1;
      }
      assert routes[..i] == routes;
      routes := kept;
    }

    method HasClientConfig(port: int) returns (found: bool)
      ensures found <==> exists c | c in configs :: c.portId == port && FromClient(initials, c)
    {
      hide Find;
      var i := 0;
      while i < |configs|
        invariant i <= |configs|
        invariant forall c | c in configs[..i] :: !(c.portId == port && FromClient(initials, c))
      {
        if configs[i].portId == port {
          var j := InitialPlace(configs[i].id);
          if j == |initials| || configs[i] != initials[j] {
            assert FromClient(initials, configs[i]);
            return true;
          }
        }
        i := i + 1;
      }
      assert configs[..i] == configs;
      found := false;
    }

    /** The ports of `claims` that nobody else claims. */
    method NotClaimedElsewhere(claims: set<int>) returns (left: set<int>)
      ensures forall id :: id in left <==> id in claims && !Claimed(connected, id)
    {
      left := claims;
      var todo := connected.Keys;
      while todo != {}
        invariant todo <= connected.Keys
        invariant forall id :: id in left <==>
          id in claims && forall k | k in connected && k !in todo :: id !in connected[k]
        decreases |todo|
      {
        SomeIn(todo);
        var k :| k in todo;
        left := left - connected[k];
        todo := todo - {k};
      }
    }

    method ClearPorts(ids: set<int>)
      requires Distinct(PortIds(ports))
      modifies this`ports
      ensures |ports| == |old(ports)|
      ensures forall i | 0 <= i < |ports| ::
        ports[i] == if old(ports)[i].id in ids then old(ports)[i].(profiles := []) else old(ports)[i]
    {
      ghost var before := ports;
      var todo := ids;
      while todo != {}
        invariant todo <= ids && |ports| == |before| && PortIds(ports) == PortIds(before)
        invariant forall i | 0 <= i < |before| ::
          ports[i] == if before[i].id in ids && before[i].id !in todo then before[i].(profiles := []) else before[i]
        decreases |todo|
      {
        SomeIn(todo);
        var id :| id in todo;
        var i := PortPlace(id);
        if i < |ports| {
          ports := ports[i := ports[i].(profiles := [])];
        }
        todo := todo - {id};
      }
    }

    method DisconnectExternalDevice(port: int) returns (r: Reply<()>)
      requires Valid()
      modifies this`ports, this`routes, this`connected
      ensures Valid() && (View(), r) == AudioDevices.DisconnectExternalDevice(old(View()), port)
    {
      hide Inv, Find, FromClient, DropRoutes, Claimed, Erase;
      ghost var s := View();
      DisconnectKeepsInv(s, port);
      var i := PortPlace(port);
      if i == |ports| || !ports[i].ext.DeviceExt? || port !in connected {
        return Failure(IllegalArgument);
      }
      var client := HasClientConfig(port);
      if client {
        return Failure(IllegalState);
      }
      ports := Erase(ports, i);
      DropFromRoutes(port);
      var claims := connected[port];
      connected := connected - {port};
      assert View() == Unplug(s, i);
      UnpluggedDistinct(s, i);
      var toClear := NotClaimedElsewhere(claims);
      ClearPorts(toClear);
      assert ports == Cleared(Unplug(s, i).ports, claims, connected);
      r := Success(());
    }
  }
}
