/** The audio module's tables: ports, port configs, routes, patches, streams, connected devices. */
module AudioStores {
  import opened Basics

  datatype Status = IllegalArgument | IllegalState | HookFailure(code: int)

  /** What a call gives back; `Aborted` stands for a failed CHECK or a null dereference. */
  datatype Reply<T> = Success(value: T) | Failure(status: Status) | Aborted

  /** An audio profile; format 0, mask 0 and rate 0 are the default (dynamic) values. */
  datatype Profile = Profile(format: int, channelMasks: seq<int>, sampleRates: seq<int>)

  datatype Device = Device(kind: int, connection: string, address: string)

  datatype Ext =
    | Unspecified
    | DeviceExt(device: Device)
    | MixExt(maxOpenStreamCount: nat, handle: int, usecase: int)
    | SessionExt(session: int)

  datatype Flags = Input(inputBits: int) | Output(outputBits: int)

  datatype Port = Port(id: int, flags: Flags, profiles: seq<Profile>, ext: Ext, descriptors: seq<int>)

  /** A stored port config: every field but the gain is specified. */
  datatype Config =
    Config(id: int, portId: int, format: int, channelMask: int, sampleRate: int, flags: Flags,
           gain: Option<int>, ext: Ext)

  datatype Route = Route(sources: seq<int>, sink: int, isExclusive: bool)

  datatype Patch = Patch(id: int, sources: seq<int>, sinks: seq<int>, minimumFrames: int, latencies: seq<int>)

  /** An open stream, listed under its port config and under its port. */
  datatype Stream = Stream(configId: int, portId: int)

  datatype Store = Store(
    ports: seq<Port>, configs: seq<Config>, initials: seq<Config>, routes: seq<Route>,
    patches: seq<Patch>, nextPortId: int, nextPatchId: int,
    /** `mPatches`: pairs of a port or port config id and the id of a patch that uses it. */
    index: seq<(int, int)>,
    /** `mConnectedDevicePorts`: each connected device port and the mix ports it claims. */
    connected: map<int, set<int>>,
    connectedProfiles: map<int, seq<Profile>>,
    streams: seq<Stream>)

  // ---------- Profiles ----------

  predicate AllZero(values: seq<int>)
  {
    forall x | x in values :: x == 0
  }

  predicate IsDynamic(p: Profile)
  {
    p.format == 0 || AllZero(p.channelMasks) || AllZero(p.sampleRates)
  }

  predicate HasDynamicProfilesOnly(profiles: seq<Profile>)
  {
    forall p | p in profiles :: IsDynamic(p)
  }

  // ---------- Lists of things with ids ----------

  predicate Distinct(ids: seq<int>)
  {
    forall i, j | 0 <= i < j < |ids| :: ids[i] != ids[j]
  }

  function PortIds(v: seq<Port>): (r: seq<int>)
    ensures |r| == |v| && forall i | 0 <= i < |v| :: r[i] == v[i].id
  {
    seq(|v|, i requires 0 <= i < |v| => v[i].id)
  }

  function ConfigIds(v: seq<Config>): (r: seq<int>)
    ensures |r| == |v| && forall i | 0 <= i < |v| :: r[i] == v[i].id
  {
    seq(|v|, i requires 0 <= i < |v| => v[i].id)
  }

  function PatchIds(v: seq<Patch>): (r: seq<int>)
    ensures |r| == |v| && forall i | 0 <= i < |v| :: r[i] == v[i].id
  {
    seq(|v|, i requires 0 <= i < |v| => v[i].id)
  }

  function StreamIds(v: seq<Stream>): (r: seq<int>)
    ensures |r| == |v| && forall i | 0 <= i < |v| :: r[i] == v[i].configId
  {
    seq(|v|, i requires 0 <= i < |v| => v[i].configId)
  }

  /** The first position of `id`, or the length when it is absent. */
  function Find(ids: seq<int>, id: int): (i: nat)
    ensures i <= |ids|
    ensures i < |ids| ==> ids[i] == id
    ensures id !in ids[..i]
    ensures i == |ids| <==> id !in ids
  {
    if |ids| == 0 then 0
    else if ids[0] == id then 0
    else
      var r := Find(ids[1..], id);
      assert ids == [ids[0]] + ids[1..];
      assert ids[..r + 1] == [ids[0]] + ids[1..][..r];
      r + 1
  }

  function Erase<T>(v: seq<T>, i: nat): (r: seq<T>)
    requires i < |v|
    ensures |r| == |v| - 1
    ensures forall x :: x in r ==> x in v
  {
    v[..i] + v[i + 1..]
  }

  lemma DistinctPush(ids: seq<int>, id: int)
    requires Distinct(ids) && id !in ids
    ensures Distinct(ids + [id])
  {
  }

  lemma DistinctErase(ids: seq<int>, i: nat)
    requires Distinct(ids) && i < |ids|
    ensures Distinct(Erase(ids, i))
    ensures forall x :: x in Erase(ids, i) <==> x in ids && x != ids[i]
  {
    forall x | x in ids && x != ids[i] ensures x in Erase(ids, i) {
      var j :| 0 <= j < |ids| && ids[j] == x;
      assert Erase(ids, i)[if j < i then j else j - 1] == x;
    }
  }

  lemma PortPushed(v: seq<Port>, p: Port)
    ensures PortIds(v + [p]) == PortIds(v) + [p.id]
  {
  }

  lemma PortErased(v: seq<Port>, i: nat)
    requires i < |v|
    ensures PortIds(Erase(v, i)) == Erase(PortIds(v), i)
  {
  }

  lemma ConfigPushed(v: seq<Config>, c: Config)
    ensures ConfigIds(v + [c]) == ConfigIds(v) + [c.id]
  {
  }

  lemma ConfigErased(v: seq<Config>, i: nat)
    requires i < |v|
    ensures ConfigIds(Erase(v, i)) == Erase(ConfigIds(v), i)
  {
  }

  lemma PatchPushed(v: seq<Patch>, a: Patch)
    ensures PatchIds(v + [a]) == PatchIds(v) + [a.id]
  {
  }

  lemma PatchErased(v: seq<Patch>, i: nat)
    requires i < |v|
    ensures PatchIds(Erase(v, i)) == Erase(PatchIds(v), i)
  {
  }

  /** A set of ids that is not empty has a member to pick. */
  lemma SomeIn(ids: set<int>)
    requires ids != {}
    ensures exists id :: id in ids
  {
    var tagged := set id | id in ids :: (id, true);
    assert forall id | id in ids :: (id, true) in tagged;
    assert tagged != {};
    var t :| t in tagged;
    assert t.0 in ids;
  }

  // ---------- The index of patches ----------

  predicate Names(a: Patch, configId: int)
  {
    configId in a.sources || configId in a.sinks
  }

  /** Patch `a` uses a port config whose id or port is `key`. */
  predicate Uses(configs: seq<Config>, a: Patch, key: int)
  {
    exists c | c in configs :: Names(a, c.id) && (key == c.id || key == c.portId)
  }

  predicate InUse(configs: seq<Config>, patches: seq<Patch>, key: int, patchId: int)
  {
    exists a | a in patches :: a.id == patchId && Uses(configs, a, key)
  }

  ghost predicate IndexExact(s: Store)
  {
    forall key: int, patchId: int :: (key, patchId) in s.index <==> InUse(s.configs, s.patches, key, patchId)
  }

  // ---------- What every run keeps ----------

  ghost predicate Numbered(ids: seq<int>, next: int)
  {
    Distinct(ids) && forall id | id in ids :: 0 < id < next
  }

  /** Ids are unique and come from the counters. */
  ghost predicate UniqueIds(s: Store)
  {
    && Numbered(PortIds(s.ports), s.nextPortId)
    && Numbered(ConfigIds(s.configs), s.nextPortId)
    && Numbered(ConfigIds(s.initials), s.nextPortId)
    && Numbered(PatchIds(s.patches), s.nextPatchId)
  }

  /** Each port config names an existing port; only a port's own config may share its id. */
  ghost predicate ConfigsOnPorts(s: Store)
  {
    forall c | c in s.configs ::
      && c.portId in PortIds(s.ports)
      && (c.id in PortIds(s.ports) ==> c.portId == c.id)
  }

  /** Initial configs belong to the ports the module started with. */
  ghost predicate InitialsFixed(s: Store)
  {
    && (forall d | d in s.initials :: d.portId < s.nextPortId && d.portId !in s.connected)
    && (forall c, d | c in s.configs && d in s.initials && c.id == d.id :: c.portId == d.portId)
  }

  /** Each route names existing ports and keeps a source that no disconnection removes. */
  ghost predicate RoutesOnPorts(s: Store)
  {
    forall r | r in s.routes ::
      && r.sink in PortIds(s.ports)
      && (forall p | p in r.sources :: p in PortIds(s.ports))
      && (exists p | p in r.sources :: p !in s.connected)
  }

  ghost predicate ConnectedAreDevices(s: Store)
  {
    forall k | k in s.connected ::
      && (exists p | p in s.ports :: p.id == k && p.ext.DeviceExt?)
      && (forall m | m in s.connected[k] :: m < s.nextPortId)
  }

  /** Each patch names existing port configs, on both sides. */
  ghost predicate PatchesOnConfigs(s: Store)
  {
    forall a | a in s.patches ::
      && a.sources != [] && a.sinks != []
      && (forall id | Names(a, id) :: id in ConfigIds(s.configs))
  }

  ghost predicate OnMixPort(s: Store, t: Stream)
  {
    && (exists c | c in s.configs :: c.id == t.configId && c.portId == t.portId)
    && (exists p | p in s.ports :: p.id == t.portId && p.ext.MixExt?)
    && t.configId !in PortIds(s.ports)
  }

  /** Each open stream names an existing config of a mix port, and no config has two. */
  ghost predicate StreamsOnConfigs(s: Store)
  {
    Distinct(StreamIds(s.streams)) && forall t | t in s.streams :: OnMixPort(s, t)
  }

  /** How many open streams are listed under `id`, a port or port config id. */
  function Count(streams: seq<Stream>, id: int): nat
  {
    if |streams| == 0 then 0
    else
      var last := streams[|streams| - 1];
      Count(streams[..|streams| - 1], id) + (if last.configId == id || last.portId == id then 1 else 0)
  }

  ghost predicate WithinLimit(s: Store, p: Port)
  {
    p.ext.MixExt? && p.ext.maxOpenStreamCount != 0 ==> Count(s.streams, p.id) <= p.ext.maxOpenStreamCount
  }

  ghost predicate StreamLimits(s: Store)
  {
    forall p | p in s.ports :: WithinLimit(s, p)
  }

  /** `port` is the port of one of the patch's sinks. */
  predicate SinksInto(configs: seq<Config>, a: Patch, port: int)
  {
    exists c | c in configs :: c.id in a.sinks && c.portId == port
  }

  predicate HasSharedRoute(routes: seq<Route>, port: int)
  {
    exists r | r in routes :: r.sink == port && !r.isExclusive
  }

  /** A port that two patches sink into has a route that is not exclusive. */
  ghost predicate SinksExclusive(s: Store)
  {
    forall a, b, port: int | a in s.patches && b in s.patches && a.id != b.id &&
        SinksInto(s.configs, a, port) && SinksInto(s.configs, b, port) ::
      HasSharedRoute(s.routes, port)
  }

  predicate Claimed(connected: map<int, set<int>>, port: int)
  {
    exists k | k in connected :: port in connected[k]
  }

  /** A claimed port has real profiles. */
  ghost predicate ClaimsAreReal(s: Store)
  {
    forall p | p in s.ports && Claimed(s.connected, p.id) :: !HasDynamicProfilesOnly(p.profiles)
  }

  ghost predicate Inv(s: Store)
  {
    && UniqueIds(s)
    && s.nextPortId > 0 && s.nextPatchId > 0
    && ConfigsOnPorts(s)
    && InitialsFixed(s)
    && RoutesOnPorts(s)
    && ConnectedAreDevices(s)
    && PatchesOnConfigs(s)
    && IndexExact(s)
    && StreamsOnConfigs(s)
    && StreamLimits(s)
    && SinksExclusive(s)
    && ClaimsAreReal(s)
  }

  // ---------- First consequences ----------

  /** An id is found exactly when it is in the table, and the element found is the only one. */
  lemma FoundPort(v: seq<Port>, p: Port)
    requires Distinct(PortIds(v)) && p in v
    ensures Find(PortIds(v), p.id) < |v| && v[Find(PortIds(v), p.id)] == p
  {
    var i :| 0 <= i < |v| && v[i] == p;
    assert PortIds(v)[i] == p.id;
  }

  lemma FoundConfig(v: seq<Config>, c: Config)
    requires Distinct(ConfigIds(v)) && c in v
    ensures Find(ConfigIds(v), c.id) < |v| && v[Find(ConfigIds(v), c.id)] == c
  {
    var i :| 0 <= i < |v| && v[i] == c;
    assert ConfigIds(v)[i] == c.id;
  }

  lemma FoundPatch(v: seq<Patch>, a: Patch)
    requires Distinct(PatchIds(v)) && a in v
    ensures Find(PatchIds(v), a.id) < |v| && v[Find(PatchIds(v), a.id)] == a
  {
    var i :| 0 <= i < |v| && v[i] == a;
    assert PatchIds(v)[i] == a.id;
  }

  /** No index entry leads to a patch or a port config that is not there. */
  lemma IndexLeadsSomewhere(s: Store, key: int, patchId: int)
    requires IndexExact(s) && (key, patchId) in s.index
    ensures Find(PatchIds(s.patches), patchId) < |s.patches|
    ensures key in ConfigIds(s.configs) || exists c | c in s.configs :: c.portId == key
  {
    var a :| a in s.patches && a.id == patchId && Uses(s.configs, a, key);
    var i :| 0 <= i < |s.patches| && s.patches[i] == a;
    assert PatchIds(s.patches)[i] == patchId;
    var c :| c in s.configs && Names(a, c.id) && (key == c.id || key == c.portId);
    var j :| 0 <= j < |s.configs| && s.configs[j] == c;
    assert ConfigIds(s.configs)[j] == c.id;
  }
}
