/** Over whole runs, each open stream is on exactly the devices that the patches give its port config. */
module StreamDevices {
  import opened Basics
  import opened AudioStores
  import opened AudioConfigs
  import opened AudioPatches
  import opened AudioDevices
  import opened AudioRuns
  import opened StreamConnections

  // ---------- Which devices a config is connected to ----------

  predicate HasDevice(configs: seq<Config>, id: int, device: Device)
  {
    exists c | c in configs :: c.id == id && c.ext == DeviceExt(device)
  }

  /** The config belongs to a device. */
  predicate IsDev(configs: seq<Config>, id: int)
  {
    exists c | c in configs :: c.id == id && c.ext.DeviceExt?
  }

  /** The devices of the configs, as the fatal lookup `getDevicesFromDevicePortConfigIds` finds them. */
  function Known(configs: seq<Config>): map<int, Device>
  {
    map id | id in ConfigIds(configs) && configs[Find(ConfigIds(configs), id)].ext.DeviceExt? ::
      configs[Find(ConfigIds(configs), id)].ext.device
  }

  /** The other side of the patch from the config. */
  function Other(a: Patch, id: int): set<int>
  {
    if id in a.sources then set x | x in a.sinks else set x | x in a.sources
  }

  /** `findConnectedPortConfigIds`, on the list of patches. */
  function ConnectedIds(patches: seq<Patch>, id: int): set<int>
  {
    set a, x | a in patches && x in Other(a, id) && Names(a, id) :: x
  }

  function DevicesFor(s: Store, id: int): set<Device>
  {
    DevicesOf(Known(s.configs), ConnectedIds(s.patches, id))
  }

  // ---------- Runs ----------

  /** The module, and the devices each open stream is on. */
  datatype Wired = Wired(s: Store, devices: map<int, set<Device>>)

  const NO_PATCH := Patch(0, [], [], 0, [])

  function MovedTo(w: Wired, before: Patch, after: Patch, ok: bool): map<int, set<Device>>
  {
    Moved(Known(w.s.configs), w.devices, ConnectionsOf(w.devices.Keys, before), ConnectionsOf(w.devices.Keys, after), ok)
  }

  /** The patch that a request updates, if any. */
  function Existing(s: Store, patchId: int): Patch
  {
    var i := Find(PatchIds(s.patches), patchId);
    if patchId != 0 && i < |s.patches| then s.patches[i] else NO_PATCH
  }

  /** What a call does to the devices of the streams; rollback calls succeed. */
  function Rewire(w: Wired, a: Action): map<int, set<Device>>
  {
    match a
    case Open(configId, input, prepared) =>
      if OpenStream(w.s, configId, input, prepared).1.Success? then w.devices[configId := DevicesFor(w.s, configId)]
      else w.devices
    case Close(place) =>
      if place < |w.s.streams| then w.devices - {w.s.streams[place].configId} else w.devices
    case SetPatch(req, h) =>
      if Refusal(w.s, req, h).Some? then w.devices
      else MovedTo(w, Existing(w.s, req.id), Filled(w.s, req, h), h.streams.None?)
    case ResetPatch(patchId, streams) =>
      if patchId in PatchIds(w.s.patches) then MovedTo(w, Existing(w.s, patchId), NO_PATCH, streams.None?)
      else w.devices
    case _ => w.devices
  }

  function DoWired(w: Wired, a: Action): Wired
  {
    Wired(Do(w.s, a), Rewire(w, a))
  }

  function RunWired(w: Wired, actions: seq<Action>): Wired
    decreases |actions|
  {
    if |actions| == 0 then w else RunWired(DoWired(w, actions[0]), actions[1..])
  }

  /** One side of the patch are device configs, and the other side has none. */
  predicate Proper(configs: seq<Config>, a: Patch)
  {
    && a.sources != [] && a.sinks != []
    && (|| ((forall id | id in a.sources :: !IsDev(configs, id)) && (forall id | id in a.sinks :: IsDev(configs, id)))
        || ((forall id | id in a.sinks :: !IsDev(configs, id)) && (forall id | id in a.sources :: IsDev(configs, id))))
  }

  /** No other patch uses the patch's configs, apart from those of devices. */
  ghost predicate Sole(s: Store, a: Patch)
  {
    forall b | b in s.patches && b.id != a.id :: forall id | Names(a, id) && Names(b, id) :: IsDev(s.configs, id)
  }

  /** The client connects devices to configs that no other patch uses, and no update fails late. */
  ghost predicate Orderly(s: Store, a: Action)
  {
    && !FailsLate(s, a)
    && (a.SetPatch? && Refusal(s, a.patch, a.hooks).None? ==> Proper(s.configs, a.patch) && Sole(s, a.patch))
  }

  ghost predicate OrderlyRun(s: Store, actions: seq<Action>)
    decreases |actions|
  {
    |actions| == 0 || (Orderly(s, actions[0]) && OrderlyRun(Do(s, actions[0]), actions[1..]))
  }

  /** A config of a device is not on a mix port. */
  ghost predicate ExtsFit(s: Store)
  {
    forall c, p | (c in s.configs || c in s.initials) && p in s.ports && p.id == c.portId ::
      c.ext.DeviceExt? ==> !p.ext.MixExt?
  }

  ghost predicate PatchesProper(s: Store)
  {
    forall a | a in s.patches :: Proper(s.configs, a) && Sole(s, a)
  }

  ghost predicate OnDevices(w: Wired)
  {
    && (forall id :: id in w.devices <==> id in StreamIds(w.s.streams))
    && (forall id | id in w.devices :: w.devices[id] == DevicesFor(w.s, id))
  }

  ghost predicate WiredInv(w: Wired)
  {
    Inv(w.s) && ExtsFit(w.s) && PatchesProper(w.s) && OnDevices(w)
  }

  // ---------- Devices of configs ----------

  lemma KnownIs(configs: seq<Config>, id: int, device: Device)
    requires Distinct(ConfigIds(configs))
    ensures id in Known(configs) && Known(configs)[id] == device <==> HasDevice(configs, id, device)
  {
    if c :| c in configs && c.id == id && c.ext == DeviceExt(device) {
      FoundConfig(configs, c);
    }
    var i := Find(ConfigIds(configs), id);
    if i < |configs| { assert configs[i] in configs; }
  }

  lemma KnownIsDev(configs: seq<Config>, id: int)
    requires Distinct(ConfigIds(configs))
    ensures id in Known(configs) <==> IsDev(configs, id)
  {
    if IsDev(configs, id) {
      var c :| c in configs && c.id == id && c.ext.DeviceExt?;
      KnownIs(configs, id, c.ext.device);
    }
    if id in Known(configs) { KnownIs(configs, id, Known(configs)[id]); }
  }

  /** The id has the same device in both lists, or none in both. */
  ghost predicate SameDeviceOf(v: seq<Config>, w: seq<Config>, id: int)
  {
    forall device :: HasDevice(v, id, device) <==> HasDevice(w, id, device)
  }

  lemma SameDeviceMeans(v: seq<Config>, w: seq<Config>, id: int)
    requires SameDeviceOf(v, w, id) && Distinct(ConfigIds(v)) && Distinct(ConfigIds(w))
    ensures IsDev(v, id) <==> IsDev(w, id)
    ensures id in Known(v) <==> id in Known(w)
    ensures id in Known(v) ==> Known(v)[id] == Known(w)[id]
  {
    KnownIsDev(v, id);
    KnownIsDev(w, id);
    if id in Known(v) {
      KnownIs(v, id, Known(v)[id]);
      KnownIs(w, id, Known(v)[id]);
    }
    if id in Known(w) {
      KnownIs(w, id, Known(w)[id]);
      KnownIs(v, id, Known(w)[id]);
    }
  }

  /** Every config that a patch names keeps its device. */
  ghost predicate DevicesKept(s: Store, u: Store)
  {
    forall a, id | a in s.patches && Names(a, id) :: SameDeviceOf(s.configs, u.configs, id)
  }

  lemma KeptPatchIsProper(s: Store, u: Store, a: Patch)
    requires Distinct(ConfigIds(s.configs)) && Distinct(ConfigIds(u.configs))
    requires DevicesKept(s, u) && u.patches == s.patches && a in s.patches && Proper(s.configs, a) && Sole(s, a)
    ensures Proper(u.configs, a) && Sole(u, a)
  {
    hide IsDev, SameDeviceOf;
    forall id | Names(a, id) ensures IsDev(u.configs, id) <==> IsDev(s.configs, id) {
      SameDeviceMeans(s.configs, u.configs, id);
    }
  }

  lemma KeptDevicesFor(s: Store, u: Store, id: int)
    requires Distinct(ConfigIds(s.configs)) && Distinct(ConfigIds(u.configs))
    requires DevicesKept(s, u) && u.patches == s.patches
    ensures DevicesFor(u, id) == DevicesFor(s, id)
  {
    hide SameDeviceOf, Known;
    forall x | x in ConnectedIds(s.patches, id)
      ensures x in Known(s.configs) <==> x in Known(u.configs)
      ensures x in Known(s.configs) ==> Known(s.configs)[x] == Known(u.configs)[x]
    {
      var a :| a in s.patches && x in Other(a, id) && Names(a, id);
      assert Names(a, x);
      SameDeviceMeans(s.configs, u.configs, x);
    }
  }

  /** A change of configs that keeps the devices of patched configs, and the patches, keeps it all. */
  lemma KeptWiring(w: Wired, u: Store)
    requires WiredInv(w) && Inv(u) && ExtsFit(u)
    requires u.patches == w.s.patches && u.streams == w.s.streams && DevicesKept(w.s, u)
    ensures WiredInv(Wired(u, w.devices))
  {
    hide Inv, ExtsFit, DevicesKept, Proper, Sole, DevicesFor;
    DistinctConfigs(w.s);
    DistinctConfigs(u);
    forall a | a in u.patches ensures Proper(u.configs, a) && Sole(u, a) {
      KeptPatchIsProper(w.s, u, a);
    }
    forall id | id in w.devices ensures w.devices[id] == DevicesFor(u, id) {
      KeptDevicesFor(w.s, u, id);
    }
  }

  lemma DistinctConfigs(s: Store)
    requires Inv(s)
    ensures Distinct(ConfigIds(s.configs)) && Distinct(PatchIds(s.patches)) && Distinct(StreamIds(s.streams))
  {
  }

  // ---------- Port configs ----------

  lemma SuggestKeepsDevice(p: Port, start: Config, req: ConfigRequest, gainOk: bool)
    ensures
      var r := Suggest(p, start, req, gainOk);
      r.Success? ==> (r.value.config.ext.DeviceExt? || start.ext.DeviceExt? ==> r.value.config.ext == start.ext)
  {
    hide FormatSupported, MaskSupported, RateSupported;
  }

  lemma DefaultExt(p: Port)
    ensures DefaultConfig(p).Some? ==> DefaultConfig(p).value.ext == p.ext
  {
  }

  lemma ReplacedDevice(v: seq<Config>, i: nat, c: Config, id: int)
    requires i < |v| && c.id == v[i].id && (c.ext.DeviceExt? || v[i].ext.DeviceExt? ==> c.ext == v[i].ext)
    ensures SameDeviceOf(v, v[i := c], id)
  {
    var w := v[i := c];
    forall device ensures HasDevice(v, id, device) <==> HasDevice(w, id, device) {
      if d :| d in v && d.id == id && d.ext == DeviceExt(device) {
        var k :| 0 <= k < |v| && v[k] == d;
        assert w[k] in w;
      }
      if d :| d in w && d.id == id && d.ext == DeviceExt(device) {
        var k :| 0 <= k < |w| && w[k] == d;
        assert v[k] in v;
      }
    }
  }

  lemma PushedDevice(v: seq<Config>, c: Config, id: int)
    requires id != c.id
    ensures SameDeviceOf(v, v + [c], id)
  {
    forall device ensures HasDevice(v, id, device) <==> HasDevice(v + [c], id, device) {
      if d :| d in v && d.id == id && d.ext == DeviceExt(device) { assert d in v + [c]; }
    }
  }

  /** What setting a config does to devices: none of those that patches name changes. */
  lemma SetConfigKeepsDevices(s: Store, req: ConfigRequest, gainOk: bool)
    requires Inv(s)
    ensures DevicesKept(s, SetAudioPortConfig(s, req, gainOk).0)
  {
    hide Inv, Suggest, FindTarget, SameDeviceOf;
    var u := SetAudioPortConfig(s, req, gainOk).0;
    forall a, id | a in s.patches && Names(a, id) ensures SameDeviceOf(s.configs, u.configs, id) {
      NamedConfigIsOld(s, a, id);
      var found := FindTarget(s, req);
      if u.configs == s.configs {
        SameAsItself(s.configs, id);
      } else {
        var target := found.value;
        SuggestKeepsDevice(target.port, target.start, req, gainOk);
        SuggestKeepsLinks(target.port, target.start, req, gainOk);
        var c := Suggest(target.port, target.start, req, gainOk).value.config;
        if target.position < |s.configs| {
          ReplacedDevice(s.configs, target.position, c, id);
        } else {
          PushedDevice(s.configs, c.(id := s.nextPortId), id);
        }
      }
    }
  }

  lemma SameAsItself(v: seq<Config>, id: int)
    ensures SameDeviceOf(v, v, id)
  {
  }

  lemma NamedConfigIsOld(s: Store, a: Patch, id: int)
    requires Inv(s) && a in s.patches && Names(a, id)
    ensures id in ConfigIds(s.configs) && id < s.nextPortId
  {
    hide IndexExact, SinksExclusive, RoutesOnPorts, StreamsOnConfigs, ConfigsOnPorts, InitialsFixed, ConnectedAreDevices;
  }

  lemma SetConfigFits(s: Store, req: ConfigRequest, gainOk: bool)
    requires Inv(s) && ExtsFit(s)
    ensures ExtsFit(SetAudioPortConfig(s, req, gainOk).0)
  {
    hide Inv, Suggest;
    var u := SetAudioPortConfig(s, req, gainOk).0;
    var found := FindTarget(s, req);
    if u.configs != s.configs {
      var target := found.value;
      SuggestKeepsDevice(target.port, target.start, req, gainOk);
      SuggestKeepsLinks(target.port, target.start, req, gainOk);
      var c := Suggest(target.port, target.start, req, gainOk).value.config;
      if target.position < |s.configs| {
        assert s.configs[target.position] in s.configs;
        forall d | d in u.configs ensures d == c || d in s.configs {}
      } else {
        DefaultExt(target.port);
        forall p | p in s.ports && p.id == target.port.id ensures p == target.port { OnePort(s, p, target.port); }
        forall d | d in u.configs ensures d == c.(id := s.nextPortId) || d in s.configs {}
      }
    }
  }

  lemma OnePort(s: Store, p: Port, q: Port)
    requires Inv(s) && p in s.ports && q in s.ports && p.id == q.id
    ensures p == q
  {
    hide IndexExact, SinksExclusive, RoutesOnPorts, StreamsOnConfigs, ConfigsOnPorts, InitialsFixed, ConnectedAreDevices;
    FoundPort(s.ports, p);
    FoundPort(s.ports, q);
  }

  lemma ResetConfigKeepsDevices(s: Store, configId: int)
    requires Inv(s)
    ensures DevicesKept(s, ResetAudioPortConfig(s, configId).0)
    ensures ExtsFit(s) ==> ExtsFit(ResetAudioPortConfig(s, configId).0)
  {
    hide Inv, ResetAudioPortConfig;
    var u := ResetAudioPortConfig(s, configId).0;
    ResetConfigExactly(s, configId);
    ResetKeepsInitials(s, configId);
    forall a, id | a in s.patches && Names(a, id) ensures SameDeviceOf(s.configs, u.configs, id) {
      NamedConfigIsOld(s, a, id);
      if u != s {
        var i :| 0 <= i < |s.configs| && ConfigIds(s.configs)[i] == id;
        assert s.configs[i] in s.configs;
        assert Uses(s.configs, a, id);
        assert id != configId;
      }
    }
  }

  lemma ResetKeepsInitials(s: Store, configId: int)
    ensures ResetAudioPortConfig(s, configId).0.initials == s.initials
    ensures ResetAudioPortConfig(s, configId).0.ports == s.ports
  {
  }

  // ---------- Devices come and go ----------

  /** Every port is an old one, but for its profiles, or has a fresh id. */
  lemma FitsNewPorts(s: Store, u: Store)
    requires Inv(s) && ExtsFit(s) && u.configs == s.configs && u.initials == s.initials
    requires forall q | q in u.ports :: q.id >= s.nextPortId || exists p | p in s.ports :: p.id == q.id && p.ext == q.ext
    ensures ExtsFit(u)
  {
    hide IndexExact, SinksExclusive, RoutesOnPorts, StreamsOnConfigs, PatchesOnConfigs, ConnectedAreDevices;
    forall c, q | (c in u.configs || c in u.initials) && q in u.ports && q.id == c.portId && c.ext.DeviceExt?
      ensures !q.ext.MixExt?
    {
      assert c.portId < s.nextPortId;
      var p :| p in s.ports && p.id == q.id && p.ext == q.ext;
    }
  }

  lemma ConnectFits(s: Store, req: DeviceRequest, simulate: bool, population: Population)
    requires Inv(s) && ExtsFit(s)
    ensures
      var u := ConnectExternalDevice(s, req, simulate, population).0;
      ExtsFit(u) && u.configs == s.configs && u.patches == s.patches && u.streams == s.streams
  {
    hide Inv, ExtsFit, Refused, Routable, HasDynamicProfilesOnly, HasDynamicRoutable, Claimed, AddSources, CopiedRoutes;
    var u := ConnectExternalDevice(s, req, simulate, population).0;
    forall q | q in u.ports
      ensures q.id >= s.nextPortId || exists p | p in s.ports :: p.id == q.id && p.ext == q.ext
    {
      var i :| 0 <= i < |u.ports| && u.ports[i] == q;
      if i < |s.ports| { assert s.ports[i] in s.ports; }
    }
    FitsNewPorts(s, u);
  }

  lemma DisconnectFits(s: Store, port: int)
    requires Inv(s) && ExtsFit(s)
    ensures
      var u := DisconnectExternalDevice(s, port).0;
      ExtsFit(u) && u.configs == s.configs && u.patches == s.patches && u.streams == s.streams
  {
    hide Inv, ExtsFit, FromClient, DropRoutes, Claimed, Erase;
    var u := DisconnectExternalDevice(s, port).0;
    forall q | q in u.ports ensures exists p | p in s.ports :: p.id == q.id && p.ext == q.ext {
      var i :| 0 <= i < |u.ports| && u.ports[i] == q;
      if u != s {
        var n := Find(PortIds(s.ports), port);
        assert Erase(s.ports, n)[i] in Erase(s.ports, n);
        assert Erase(s.ports, n)[i] in s.ports;
      }
    }
    FitsNewPorts(s, u);
  }

  lemma SameConfigsKept(s: Store, u: Store)
    requires u.configs == s.configs
    ensures DevicesKept(s, u)
  {
    hide HasDevice;
  }

  // ---------- Streams open and close ----------

  lemma OpenKeepsWiring(w: Wired, configId: int, input: bool, prepared: Option<Status>)
    requires WiredInv(w)
    ensures OnDevices(DoWired(w, Open(configId, input, prepared)))
    ensures
      var u := OpenStream(w.s, configId, input, prepared).0;
      u == w.s.(streams := u.streams)
  {
    hide Inv, ExtsFit, PatchesProper, FindPortForNewStream, DevicesFor;
    var (u, r) := OpenStream(w.s, configId, input, prepared);
    if r.Success? {
      assert StreamIds(u.streams) == StreamIds(w.s.streams) + [configId];
      forall id ensures DevicesFor(u, id) == DevicesFor(w.s, id) { OnlyConfigsAndPatches(w.s, u, id); }
    }
  }

  lemma OnlyConfigsAndPatches(s: Store, u: Store, id: int)
    requires u.configs == s.configs && u.patches == s.patches
    ensures DevicesFor(u, id) == DevicesFor(s, id)
  {
  }

  lemma CloseKeepsWiring(w: Wired, place: nat)
    requires WiredInv(w)
    ensures OnDevices(DoWired(w, Close(place)))
    ensures CloseStream(w.s, place) == w.s.(streams := CloseStream(w.s, place).streams)
  {
    hide Inv, ExtsFit, PatchesProper, DevicesFor, Erase;
    var u := CloseStream(w.s, place);
    if place < |w.s.streams| {
      DistinctConfigs(w.s);
      EraseStreamIds(w.s.streams, place);
      DistinctErase(StreamIds(w.s.streams), place);
      forall id ensures DevicesFor(u, id) == DevicesFor(w.s, id) { OnlyConfigsAndPatches(w.s, u, id); }
    }
  }

  /** An open stream's config is not one of a device. */
  lemma OpenIsNoDevice(w: Wired, id: int)
    requires WiredInv(w) && id in w.devices
    ensures !IsDev(w.s.configs, id)
  {
    hide IndexExact, SinksExclusive, RoutesOnPorts, PatchesOnConfigs, ConfigsOnPorts, InitialsFixed, ConnectedAreDevices;
    hide DevicesFor, PatchesProper;
    var i :| 0 <= i < |w.s.streams| && StreamIds(w.s.streams)[i] == id;
    var t := w.s.streams[i];
    assert t in w.s.streams && OnMixPort(w.s, t);
    var c :| c in w.s.configs && c.id == t.configId && c.portId == t.portId;
    forall d | d in w.s.configs && d.id == id ensures d == c {
      FoundConfig(w.s.configs, d);
      FoundConfig(w.s.configs, c);
    }
  }

  // ---------- Patches ----------

  /** The streams of a proper patch are connected to its other side, and the lookups succeed. */
  lemma ProperConnections(w: Wired, a: Patch)
    requires WiredInv(w) && (Proper(w.s.configs, a) || a == NO_PATCH)
    ensures
      var c := ConnectionsOf(w.devices.Keys, a);
      && DevicesKnown(Known(w.s.configs), c)
      && forall id | id in w.devices :: (id in c <==> Names(a, id)) && (id in c ==> c[id] == Other(a, id))
  {
    hide Inv, ExtsFit, PatchesProper, IsDev, Known;
    DistinctConfigs(w.s);
    var open := w.devices.Keys;
    var c := ConnectionsOf(open, a);
    forall id | id in open ensures !IsDev(w.s.configs, id) { OpenIsNoDevice(w, id); }
    forall id | IsDev(w.s.configs, id) ensures id in Known(w.s.configs) { KnownIsDev(w.s.configs, id); }
    if AnyOpen(open, a.sources) {
      SideConnections(open, a.sources, a.sinks);
    } else if AnyOpen(open, a.sinks) {
      SideConnections(open, a.sinks, a.sources);
    }
  }

  lemma SideConnections(open: set<int>, ids: seq<int>, others: seq<int>)
    requires AnyOpen(open, ids) && others != []
    ensures
      var c := Joined(ids, others);
      forall id | id in c :: c[id] == (set x | x in others) && c[id] != {}
  {
    var all := set x | x in others;
    assert others[0] in all;
    forall id | id in ids ensures Joined(ids, others)[id] == all {}
  }

  /** With no other patch on the config, it is connected to the other side of its patch. */
  lemma SoleConnected(s: Store, patches: seq<Patch>, a: Patch, id: int)
    requires forall b | b in patches && Names(b, id) :: b == a
    ensures ConnectedIds(patches, id) == if a in patches && Names(a, id) then Other(a, id) else {}
  {
    hide Other;
    var ids := ConnectedIds(patches, id);
    if a in patches && Names(a, id) {
      forall x | x in ids ensures x in Other(a, id) {
        var b :| b in patches && x in Other(b, id) && Names(b, id);
        assert b == a;
      }
      forall x | x in Other(a, id) ensures x in ids {}
    } else {
      NotConnected(patches, id);
    }
  }

  lemma NotConnected(patches: seq<Patch>, id: int)
    requires forall b | b in patches :: !Names(b, id)
    ensures ConnectedIds(patches, id) == {}
  {
  }

  lemma SolePatch(w: Wired, a: Patch, id: int)
    requires WiredInv(w) && a in w.s.patches && Names(a, id) && id in w.devices
    ensures forall b | b in w.s.patches && Names(b, id) :: b == a
  {
    hide IsDev, Inv, ExtsFit, OnDevices, Proper;
    OpenIsNoDevice(w, id);
    DistinctConfigs(w.s);
    forall b | b in w.s.patches && Names(b, id) ensures b == a {
      FoundPatch(w.s.patches, a);
      FoundPatch(w.s.patches, b);
    }
  }

  /** A patch list in which `before` has become `after`, either of which may be missing. */
  ghost predicate Replaces(s: Store, patches: seq<Patch>, before: Patch, after: Patch)
  {
    && (before in s.patches || before == NO_PATCH)
    && (forall b :: b in patches <==> (b in s.patches && b != before) || (b == after && after != NO_PATCH))
    && (Proper(s.configs, after) || after == NO_PATCH)
    && (forall b, id | b in s.patches && b != before && Names(after, id) && Names(b, id) :: IsDev(s.configs, id))
  }

  /** Before the streams are told: they are on the devices of the old patch, as the call requires. */
  lemma StreamsMatchOldPatch(w: Wired, patches: seq<Patch>, before: Patch, after: Patch)
    requires WiredInv(w) && Replaces(w.s, patches, before, after)
    ensures
      var open, known := w.devices.Keys, Known(w.s.configs);
      var was, now := ConnectionsOf(open, before), ConnectionsOf(open, after);
      DevicesKnown(known, was) && DevicesKnown(known, now) && OnDevicesOf(known, w.devices, was, now)
  {
    hide Inv, ExtsFit, ConnectionsOf, IsDev, Proper, Known, Replaces;
    ReplacesProper(w, patches, before, after);
    ProperConnections(w, before);
    ProperConnections(w, after);
    var open := w.devices.Keys;
    var was, now := ConnectionsOf(open, before), ConnectionsOf(open, after);
    forall id | id in w.devices && (id in was || id in now)
      ensures w.devices[id] == DevicesIn(Known(w.s.configs), was, id)
    {
      ConnectedBefore(w, patches, before, after, id);
    }
  }

  lemma ReplacesProper(w: Wired, patches: seq<Patch>, before: Patch, after: Patch)
    requires PatchesProper(w.s) && Replaces(w.s, patches, before, after)
    ensures Proper(w.s.configs, before) || before == NO_PATCH
    ensures Proper(w.s.configs, after) || after == NO_PATCH
  {
    hide Proper, IsDev;
  }

  lemma ConnectedBefore(w: Wired, patches: seq<Patch>, before: Patch, after: Patch, id: int)
    requires WiredInv(w) && Replaces(w.s, patches, before, after) && id in w.devices
    requires Names(before, id) || Names(after, id)
    ensures ConnectedIds(w.s.patches, id) == if Names(before, id) then Other(before, id) else {}
    ensures DevicesOf(Known(w.s.configs), {}) == {}
  {
    hide Inv, ExtsFit, OnDevices, Proper, IsDev, Other;
    if Names(before, id) {
      SolePatch(w, before, id);
    } else {
      OpenIsNoDevice(w, id);
    }
    SoleConnected(w.s, w.s.patches, before, id);
  }

  lemma ConnectedAfter(w: Wired, patches: seq<Patch>, before: Patch, after: Patch, id: int)
    requires WiredInv(w) && Replaces(w.s, patches, before, after) && id in w.devices
    ensures Names(before, id) || Names(after, id) ==>
      ConnectedIds(patches, id) == if Names(after, id) then Other(after, id) else {}
    ensures !Names(before, id) && !Names(after, id) ==> ConnectedIds(patches, id) == ConnectedIds(w.s.patches, id)
  {
    hide Inv, ExtsFit, OnDevices, Proper, IsDev, Other;
    OpenIsNoDevice(w, id);
    if Names(before, id) { SolePatch(w, before, id); }
    if Names(before, id) || Names(after, id) {
      SoleConnected(w.s, patches, after, id);
    } else {
      forall b | Names(b, id) ensures b in patches <==> b in w.s.patches {}
    }
  }

  /** After the streams are told: they are on the devices of the new patches. */
  lemma StreamsMatchNewPatch(w: Wired, u: Store, before: Patch, after: Patch)
    requires WiredInv(w) && Replaces(w.s, u.patches, before, after)
    requires u.configs == w.s.configs && u.streams == w.s.streams
    ensures OnDevices(Wired(u, MovedTo(w, before, after, true)))
  {
    hide Inv, ExtsFit, ConnectionsOf, IsDev, Proper, Known, Replaces, ConnectedIds;
    ReplacesProper(w, u.patches, before, after);
    ProperConnections(w, before);
    ProperConnections(w, after);
    forall id | id in w.devices ensures MovedTo(w, before, after, true)[id] == DevicesFor(u, id) {
      ConnectedAfter(w, u.patches, before, after, id);
      NoDevices(Known(w.s.configs));
    }
  }

  lemma NoDevices(known: map<int, Device>)
    ensures DevicesOf(known, {}) == {}
  {
  }

  lemma StayingPut(w: Wired, u: Store, before: Patch, after: Patch)
    requires OnDevices(w) && u.configs == w.s.configs && u.patches == w.s.patches && u.streams == w.s.streams
    ensures OnDevices(Wired(u, MovedTo(w, before, after, false)))
  {
    hide DevicesFor;
    forall id ensures DevicesFor(u, id) == DevicesFor(w.s, id) { OnlyConfigsAndPatches(w.s, u, id); }
  }

  // ---------- Patch calls ----------

  /** The parts of the wiring that patches decide. */
  lemma PatchedProper(s: Store, u: Store, before: Patch, after: Patch)
    requires PatchesProper(s) && u.configs == s.configs && Replaces(s, u.patches, before, after)
    requires forall b | b in s.patches :: b != before ==> b.id != after.id
    ensures PatchesProper(u)
  {
    hide IsDev;
  }

  lemma HasBuffer(s: Store, req: Patch, h: Hooks)
    requires Refusal(s, req, h).None?
    ensures h.bufferFrames.Some?
  {
  }

  /** A granted request replaces the patch it updates, or none. */
  lemma GrantReplaces(s: Store, req: Patch, h: Hooks)
    requires Inv(s) && PatchesProper(s) && Refusal(s, req, h).None? && h.streams.None?
    requires Proper(s.configs, req) && Sole(s, req)
    ensures
      var u := SetAudioPatch(s, req, h).0;
      var before, after := Existing(s, req.id), Filled(s, req, h);
      && Replaces(s, u.patches, before, after)
      && (forall b | b in s.patches :: b != before ==> b.id != after.id)
      && u.configs == s.configs && u.streams == s.streams && u.ports == s.ports && u.initials == s.initials
  {
    hide Inv, Refusal, RegisterPatch, CleanUpPatch, IsDev;
    var u := SetAudioPatch(s, req, h).0;
    HasBuffer(s, req, h);
    var before, after := Existing(s, req.id), Filled(s, req, h);
    GrantedIsStored(s, req, h);
    DistinctConfigs(s);
    forall b | b in s.patches ensures 0 < b.id < s.nextPatchId && (b.id == req.id ==> b == before) {
      PatchIdsPositive(s, b);
      FoundPatch(s.patches, b);
    }
    forall b, id | b in s.patches && b != before && Names(after, id) && Names(b, id) ensures IsDev(s.configs, id) {
      assert Names(req, id);
    }
    FoundExisting(s, req.id);
  }

  lemma FoundExisting(s: Store, patchId: int)
    ensures Existing(s, patchId) in s.patches || Existing(s, patchId) == NO_PATCH
    ensures patchId != 0 && patchId in PatchIds(s.patches) ==>
      Existing(s, patchId) in s.patches && Existing(s, patchId).id == patchId
  {
  }

  lemma ResetReplaces(s: Store, patchId: int)
    requires Inv(s) && PatchesProper(s) && patchId in PatchIds(s.patches)
    ensures
      var u := ResetAudioPatch(s, patchId, None).0;
      Replaces(s, u.patches, Existing(s, patchId), NO_PATCH)
    ensures forall b | b in s.patches :: b != Existing(s, patchId) ==> b.id != NO_PATCH.id
  {
    hide Inv, IsDev, Proper;
    var u := ResetAudioPatch(s, patchId, None).0;
    ResetRemoves(s, patchId);
    FoundExisting(s, patchId);
    DistinctConfigs(s);
    forall b | b in s.patches ensures 0 < b.id && (b.id == patchId ==> b == Existing(s, patchId)) {
      PatchIdsPositive(s, b);
      FoundPatch(s.patches, b);
    }
  }

  lemma SetPatchKeepsWiring(w: Wired, req: Patch, h: Hooks)
    requires WiredInv(w) && Orderly(w.s, SetPatch(req, h))
    ensures WiredInv(DoWired(w, SetPatch(req, h)))
  {
    hide OnDevices, Replaces, Proper, Sole, Refusal, RegisterPatch, CleanUpPatch;
    var u := Do(w.s, SetPatch(req, h));
    SetPatchKeepsInv(w.s, req, h);
    hide Inv;
    if Refusal(w.s, req, h).None? {
      HasBuffer(w.s, req, h);
      var before, after := Existing(w.s, req.id), Filled(w.s, req, h);
      if h.streams.None? {
        GrantReplaces(w.s, req, h);
        StreamsMatchNewPatch(w, u, before, after);
        PatchedProper(w.s, u, before, after);
      } else {
        StayingPut(w, u, before, after);
        SamePatchesProper(w.s, u);
      }
    }
  }

  lemma SamePatchesProper(s: Store, u: Store)
    requires PatchesProper(s) && u.configs == s.configs && u.patches == s.patches
    ensures PatchesProper(u)
  {
    hide IsDev, Proper;
  }

  lemma ResetPatchKeepsWiring(w: Wired, patchId: int, streams: Option<Status>)
    requires WiredInv(w)
    ensures WiredInv(DoWired(w, ResetPatch(patchId, streams)))
  {
    hide OnDevices, Replaces, CleanUpPatch, PatchesProper;
    var u := Do(w.s, ResetPatch(patchId, streams));
    ResetKeepsInv(w.s, patchId, streams);
    hide Inv;
    if patchId in PatchIds(w.s.patches) {
      var before := Existing(w.s, patchId);
      if streams.None? {
        ResetReplaces(w.s, patchId);
        StreamsMatchNewPatch(w, u, before, NO_PATCH);
        PatchedProper(w.s, u, before, NO_PATCH);
      } else {
        StayingPut(w, u, before, NO_PATCH);
      }
    }
  }

  // ---------- Whole runs ----------

  lemma ConfigsKeepWiring(w: Wired, a: Action)
    requires WiredInv(w) && (a.SetConfig? || a.ResetConfig?)
    ensures WiredInv(DoWired(w, a))
  {
    var u := Do(w.s, a);
    DoKeepsInv(w.s, a);
    hide Inv, ExtsFit, PatchesProper, OnDevices, DevicesKept, FindTarget, Suggest, HasKey, Count, Erase;
    if a.SetConfig? {
      SetConfigKeepsDevices(w.s, a.config, a.gainOk);
      SetConfigFits(w.s, a.config, a.gainOk);
    } else {
      ResetConfigKeepsDevices(w.s, a.configId);
    }
    KeptWiring(w, u);
  }

  lemma DevicesKeepWiring(w: Wired, a: Action)
    requires WiredInv(w) && (a.Connect? || a.Disconnect?)
    ensures WiredInv(DoWired(w, a))
  {
    var u := Do(w.s, a);
    DoKeepsInv(w.s, a);
    hide Inv, ExtsFit, PatchesProper, OnDevices, DevicesKept, ConnectExternalDevice, DisconnectExternalDevice;
    if a.Connect? {
      ConnectFits(w.s, a.device, a.simulate, a.population);
    } else {
      DisconnectFits(w.s, a.port);
    }
    SameConfigsKept(w.s, u);
    KeptWiring(w, u);
  }

  lemma StreamsKeepWiring(w: Wired, a: Action)
    requires WiredInv(w) && (a.Open? || a.Close?)
    ensures WiredInv(DoWired(w, a))
  {
    var u := Do(w.s, a);
    DoKeepsInv(w.s, a);
    if a.Open? {
      OpenKeepsWiring(w, a.onConfig, a.input, a.prepared);
    } else {
      CloseKeepsWiring(w, a.place);
    }
    hide Inv, OnDevices, IsDev, Proper, OpenStream, CloseStream;
    SamePatchesProper(w.s, u);
  }

  lemma DoKeepsWiring(w: Wired, a: Action)
    requires WiredInv(w) && Orderly(w.s, a)
    ensures WiredInv(DoWired(w, a))
  {
    hide WiredInv, Orderly, DoWired;
    match a
    case SetPatch(patch, hooks) => SetPatchKeepsWiring(w, patch, hooks);
    case ResetPatch(patchId, streams) => ResetPatchKeepsWiring(w, patchId, streams);
    case SetConfig(_, _) => ConfigsKeepWiring(w, a);
    case ResetConfig(_) => ConfigsKeepWiring(w, a);
    case Connect(_, _, _) => DevicesKeepWiring(w, a);
    case Disconnect(_) => DevicesKeepWiring(w, a);
    case Open(_, _, _) => StreamsKeepWiring(w, a);
    case Close(_) => StreamsKeepWiring(w, a);
  }

  lemma {:induction false} RunKeepsWiring(w: Wired, actions: seq<Action>)
    requires WiredInv(w) && OrderlyRun(w.s, actions)
    ensures WiredInv(RunWired(w, actions)) && RunWired(w, actions).s == Run(w.s, actions)
    decreases |actions|
  {
    hide WiredInv, Orderly, Do, Rewire;
    if |actions| > 0 {
      DoKeepsWiring(w, actions[0]);
      RunKeepsWiring(DoWired(w, actions[0]), actions[1..]);
    }
  }

  /**
   * Over every orderly run of all the calls from construction, each open stream is on exactly the devices
   * of the other side of the patches that use its port config, and on none when no patch does.
   */
  lemma StreamsFollowPatches(s: Store, actions: seq<Action>, t: Stream)
    requires Start(s) && ExtsFit(s) && OrderlyRun(s, actions)
    requires t in Run(s, actions).streams
    ensures
      var w := RunWired(Wired(s, map[]), actions);
      && w.s == Run(s, actions)
      && t.configId in w.devices
      && w.devices[t.configId] == DevicesFor(w.s, t.configId)
  {
    hide Start, Inv, ExtsFit, OrderlyRun, Run, RunWired, DevicesFor;
    StartInv(s);
    StartsEmpty(s);
    RunKeepsWiring(Wired(s, map[]), actions);
    var i :| 0 <= i < |Run(s, actions).streams| && Run(s, actions).streams[i] == t;
    assert StreamIds(Run(s, actions).streams)[i] == t.configId;
  }

  lemma StartsEmpty(s: Store)
    requires Start(s)
    ensures s.patches == [] && s.streams == []
  {
  }

  /**
   * So in every such state the notification of a granted request meets its precondition: the streams are
   * on the devices of the old patch, and every device it looks up is known.
   */
  lemma NotificationIsReady(s: Store, actions: seq<Action>, req: Patch, h: Hooks)
    requires Start(s) && ExtsFit(s) && OrderlyRun(s, actions)
    requires Refusal(Run(s, actions), req, h).None? && Orderly(Run(s, actions), SetPatch(req, h))
    ensures
      var w := RunWired(Wired(s, map[]), actions);
      var open, known := w.devices.Keys, Known(w.s.configs);
      var was := ConnectionsOf(open, Existing(w.s, req.id));
      var now := ConnectionsOf(open, Filled(w.s, req, h));
      DevicesKnown(known, was) && DevicesKnown(known, now) && OnDevicesOf(known, w.devices, was, now)
  {
    hide Start, Inv, ExtsFit, OrderlyRun, Run, RunWired, OnDevices, Refusal, Proper, Sole, IsDev, Replaces, PatchesProper;
    StartInv(s);
    StartsEmpty(s);
    WiredStart(s);
    RunKeepsWiring(Wired(s, map[]), actions);
    var w := RunWired(Wired(s, map[]), actions);
    var fine := h.(streams := None);
    SameRefusal(w.s, req, h);
    HasBuffer(w.s, req, h);
    GrantReplaces(w.s, req, fine);
    StreamsMatchOldPatch(w, SetAudioPatch(w.s, req, fine).0.patches, Existing(w.s, req.id), Filled(w.s, req, h));
  }

  lemma SameRefusal(s: Store, req: Patch, h: Hooks)
    ensures Refusal(s, req, h.(streams := None)) == Refusal(s, req, h)
    ensures Refusal(s, req, h).None? ==> Filled(s, req, h.(streams := None)) == Filled(s, req, h)
  {
  }

  lemma WiredStart(s: Store)
    requires Start(s) && ExtsFit(s)
    ensures WiredInv(Wired(s, map[]))
  {
    hide Start, Inv, ExtsFit;
    StartInv(s);
    StartsEmpty(s);
  }
}
