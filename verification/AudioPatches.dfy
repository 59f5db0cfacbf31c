/** Patches: set, update and reset, with the index `mPatches` and exclusive sinks. */
module AudioPatches {
  import opened Basics
  import opened AudioStores
  import AudioConfigs

  /**
   * What the calls made inside `setAudioPatch` gave back: the endpoint check, the buffer size (none on
   * failure) with the latency, and the notification of the streams.
   */
  datatype Hooks =
    Hooks(endpoints: Option<Status>, bufferFrames: Option<int>, latency: int, streams: Option<Status>)

  // ---------- Specification ----------

  function PairsFor(configs: seq<Config>, configId: int, patchId: int): seq<(int, int)>
  {
    var i := Find(ConfigIds(configs), configId);
    if i == |configs| then []
    else if configs[i].portId != configId then [(configId, patchId), (configs[i].portId, patchId)]
    else [(configId, patchId)]
  }

  function Pairs(configs: seq<Config>, ids: seq<int>, patchId: int): seq<(int, int)>
  {
    if |ids| == 0 then []
    else Pairs(configs, ids[..|ids| - 1], patchId) + PairsFor(configs, ids[|ids| - 1], patchId)
  }

  function RegisterPatch(index: seq<(int, int)>, configs: seq<Config>, a: Patch): seq<(int, int)>
  {
    index + Pairs(configs, a.sources, a.id) + Pairs(configs, a.sinks, a.id)
  }

  function CleanUpPatch(index: seq<(int, int)>, patchId: int): (r: seq<(int, int)>)
    ensures forall e :: e in r <==> e in index && e.1 != patchId
  {
    if |index| == 0 then []
    else
      var rest := CleanUpPatch(index[..|index| - 1], patchId);
      var last := index[|index| - 1];
      assert index == index[..|index| - 1] + [last];
      if last.1 == patchId then rest else rest + [last]
  }

  /** The route leads from a port of one of the configs. */
  predicate LeadsFrom(configs: seq<Config>, ids: seq<int>, r: Route)
  {
    exists c | c in configs :: c.id in ids && c.portId in r.sources
  }

  predicate Routed(s: Store, ids: seq<int>, sink: int)
  {
    exists r | r in s.routes :: r.sink == sink && LeadsFrom(s.configs, ids, r)
  }

  /** A route that is not exclusive is available. */
  predicate Shareable(s: Store, ids: seq<int>, sink: int)
  {
    exists r | r in s.routes :: r.sink == sink && LeadsFrom(s.configs, ids, r) && !r.isExclusive
  }

  predicate AllPresent(configs: seq<Config>, ids: seq<int>)
  {
    forall id | id in ids :: id in ConfigIds(configs)
  }

  /** Every sink of the request can be reached from one of its sources. */
  predicate AllRouted(s: Store, req: Patch)
  {
    forall c | c in s.configs && c.id in req.sinks :: Routed(s, req.sources, c.portId)
  }

  predicate WellFormed(s: Store, req: Patch)
  {
    && req.sources != [] && Distinct(req.sources)
    && req.sinks != [] && Distinct(req.sinks)
    && AllPresent(s.configs, req.sources) && AllPresent(s.configs, req.sinks)
    && AllRouted(s, req)
  }

  /** Some sink reachable from the sources is exclusive and in use, whether requested or not. */
  predicate ExclusiveInUse(s: Store, index: seq<(int, int)>, req: Patch)
  {
    exists r | r in s.routes ::
      && LeadsFrom(s.configs, req.sources, r)
      && !Shareable(s, req.sources, r.sink)
      && AudioConfigs.HasKey(index, r.sink)
  }

  /** The early part of the call: why it fails, if it does, before any table but the index changes. */
  function Refusal(s: Store, req: Patch, h: Hooks): Option<Status>
  {
    if !WellFormed(s, req) then Some(IllegalArgument)
    else if h.endpoints.Some? then h.endpoints
    else if req.id != 0 && req.id !in PatchIds(s.patches) then Some(IllegalArgument)
    else if ExclusiveInUse(s, if req.id != 0 then CleanUpPatch(s.index, req.id) else s.index, req) then
      Some(IllegalState)
    else if h.bufferFrames.None? then Some(IllegalState)
    else None
  }

  function Filled(s: Store, req: Patch, h: Hooks): Patch
    requires h.bufferFrames.Some?
  {
    Patch(if req.id != 0 then req.id else s.nextPatchId, req.sources, req.sinks, h.bufferFrames.value,
          seq(|req.sinks|, i => h.latency))
  }

  /**
   * A failure of the streams' notification takes the new patch back. When that patch was an update,
   * the index restored is the one saved after the old patch was cleaned out of it.
   */
  function SetAudioPatch(s: Store, req: Patch, h: Hooks): (Store, Reply<Patch>)
  {
    var refusal := Refusal(s, req, h);
    if refusal.Some? then (s, Failure(refusal.value))
    else
      var a := Filled(s, req, h);
      if req.id == 0 then
        var u := s.(nextPatchId := s.nextPatchId + 1);
        if h.streams.Some? then (u, Failure(h.streams.value))
        else
          (u.(patches := s.patches + [a], index := RegisterPatch(s.index, s.configs, a)), Success(a))
      else
        var cleaned := CleanUpPatch(s.index, req.id);
        if h.streams.Some? then (s.(index := cleaned), Failure(h.streams.value))
        else
          var i := Find(PatchIds(s.patches), req.id);
          (s.(patches := s.patches[i := a], index := RegisterPatch(cleaned, s.configs, a)), Success(a))
  }

  function ResetAudioPatch(s: Store, patchId: int, streams: Option<Status>): (Store, Reply<()>)
  {
    var i := Find(PatchIds(s.patches), patchId);
    if i == |s.patches| then (s, Failure(IllegalArgument))
    else if streams.Some? then (s, Failure(streams.value))
    else (s.(patches := Erase(s.patches, i), index := CleanUpPatch(s.index, patchId)), Success(()))
  }

  /** An update of an existing patch got past every check, and then the streams refused it. */
  predicate LateUpdateFailure(s: Store, req: Patch, h: Hooks)
  {
    Refusal(s, req, h).None? && req.id != 0 && h.streams.Some?
  }

  // ---------- What is registered is what is used ----------

  lemma {:induction false} PairsExact(configs: seq<Config>, ids: seq<int>, patchId: int, e: (int, int))
    requires Distinct(ConfigIds(configs))
    ensures e in Pairs(configs, ids, patchId) <==>
      e.1 == patchId && exists c | c in configs :: c.id in ids && (e.0 == c.id || e.0 == c.portId)
  {
    if |ids| > 0 {
      var n := |ids| - 1;
      var id := ids[n];
      PairsExact(configs, ids[..n], patchId, e);
      assert ids == ids[..n] + [id];
      PairsForExact(configs, id, patchId, e);
    }
  }

  lemma PairsForExact(configs: seq<Config>, id: int, patchId: int, e: (int, int))
    requires Distinct(ConfigIds(configs))
    ensures e in PairsFor(configs, id, patchId) <==>
      e.1 == patchId && exists c | c in configs :: c.id == id && (e.0 == c.id || e.0 == c.portId)
  {
    var i := Find(ConfigIds(configs), id);
    forall c | c in configs && c.id == id ensures i < |configs| && configs[i] == c {
      FoundConfig(configs, c);
    }
  }

  /** Registering a patch adds exactly its uses. */
  lemma RegisterExact(index: seq<(int, int)>, configs: seq<Config>, a: Patch, e: (int, int))
    requires Distinct(ConfigIds(configs))
    ensures e in RegisterPatch(index, configs, a) <==> e in index || (e.1 == a.id && Uses(configs, a, e.0))
  {
    hide Pairs;
    PairsExact(configs, a.sources, a.id, e);
    PairsExact(configs, a.sinks, a.id, e);
  }

  lemma InUsePushed(configs: seq<Config>, patches: seq<Patch>, a: Patch, key: int, patchId: int)
    ensures InUse(configs, patches + [a], key, patchId) <==>
      InUse(configs, patches, key, patchId) || (patchId == a.id && Uses(configs, a, key))
  {
    hide Uses;
    if InUse(configs, patches, key, patchId) {
      var b :| b in patches && b.id == patchId && Uses(configs, b, key);
      assert b in patches + [a];
    }
    if patchId == a.id && Uses(configs, a, key) {
      assert a in patches + [a];
    }
  }

  /** Replacing patch `i`: the other patches' uses stay, its own become those of `a`. */
  lemma InUseReplaced(configs: seq<Config>, patches: seq<Patch>, i: nat, a: Patch, key: int, patchId: int)
    requires i < |patches| && Distinct(PatchIds(patches)) && a.id == patches[i].id
    ensures InUse(configs, patches[i := a], key, patchId) <==>
      (patchId != a.id && InUse(configs, patches, key, patchId)) || (patchId == a.id && Uses(configs, a, key))
  {
    hide Uses;
    var w := patches[i := a];
    forall b | b in w ensures b == a || b.id != a.id {
      var j :| 0 <= j < |w| && w[j] == b;
      assert PatchIds(patches)[j] == patches[j].id && PatchIds(patches)[i] == a.id;
    }
    assert w[i] == a;
    if patchId != a.id && InUse(configs, patches, key, patchId) {
      var b :| b in patches && b.id == patchId && Uses(configs, b, key);
      var j :| 0 <= j < |patches| && patches[j] == b;
      assert w[j] == b;
    }
  }

  lemma InUseErased(configs: seq<Config>, patches: seq<Patch>, i: nat, key: int, patchId: int)
    requires i < |patches| && Distinct(PatchIds(patches))
    ensures InUse(configs, Erase(patches, i), key, patchId) <==>
      patchId != patches[i].id && InUse(configs, patches, key, patchId)
  {
    hide Uses;
    var w := Erase(patches, i);
    forall b | b in w ensures b.id != patches[i].id {
      var j :| 0 <= j < |w| && w[j] == b;
      assert b == patches[if j < i then j else j + 1];
      assert PatchIds(patches)[i] == patches[i].id;
    }
    if patchId != patches[i].id && InUse(configs, patches, key, patchId) {
      var b :| b in patches && b.id == patchId && Uses(configs, b, key);
      var j :| 0 <= j < |patches| && patches[j] == b;
      assert w[if j < i then j else j - 1] == b;
    }
  }

  // ---------- An exclusive sink has one user ----------

  lemma SinkIsUse(configs: seq<Config>, a: Patch, port: int)
    requires SinksInto(configs, a, port)
    ensures Uses(configs, a, port)
  {
    var c :| c in configs && c.id in a.sinks && c.portId == port;
    assert Names(a, c.id);
  }

  /** An accepted request shares a sink only over a route that is not exclusive. */
  lemma AcceptedSharesFairly(s: Store, req: Patch, h: Hooks, b: Patch, port: int)
    requires Inv(s) && Refusal(s, req, h).None?
    requires b in s.patches && b.id != req.id
    requires SinksInto(s.configs, req, port) && SinksInto(s.configs, b, port)
    ensures HasSharedRoute(s.routes, port)
  {
    hide UniqueIds, ConfigsOnPorts, InitialsFixed, PatchesOnConfigs, StreamsOnConfigs, SinksExclusive, LeadsFrom;
    hide ConnectedAreDevices, RoutesOnPorts, StreamLimits, ClaimsAreReal, Uses;
    var index := if req.id != 0 then CleanUpPatch(s.index, req.id) else s.index;
    SinkIsUse(s.configs, b, port);
    assert InUse(s.configs, s.patches, port, b.id);
    assert (port, b.id) in index;
    assert AudioConfigs.HasKey(index, port);
    var c :| c in s.configs && c.id in req.sinks && c.portId == port;
    assert Routed(s, req.sources, port);
    var r :| r in s.routes && r.sink == port && LeadsFrom(s.configs, req.sources, r);
    assert Shareable(s, req.sources, port);
  }

  // ---------- Every operation keeps the invariant ----------

  lemma PresentAreNamed(s: Store, a: Patch)
    requires AllPresent(s.configs, a.sources) && AllPresent(s.configs, a.sinks)
    ensures forall id | Names(a, id) :: id in ConfigIds(s.configs)
  {
  }

  lemma NewPatchKeepsIndex(s: Store, a: Patch)
    requires IndexExact(s) && UniqueIds(s)
    ensures IndexExact(s.(patches := s.patches + [a], index := RegisterPatch(s.index, s.configs, a)))
  {
    hide RegisterPatch, InUse, Uses;
    forall key: int, patchId: int
      ensures (key, patchId) in RegisterPatch(s.index, s.configs, a) <==> InUse(s.configs, s.patches + [a], key, patchId)
    {
      RegisterExact(s.index, s.configs, a, (key, patchId));
      InUsePushed(s.configs, s.patches, a, key, patchId);
    }
  }

  lemma UpdatedPatchKeepsIndex(s: Store, i: nat, a: Patch)
    requires IndexExact(s) && UniqueIds(s) && i < |s.patches| && s.patches[i].id == a.id
    ensures
      var index := RegisterPatch(CleanUpPatch(s.index, a.id), s.configs, a);
      IndexExact(s.(patches := s.patches[i := a], index := index))
  {
    hide RegisterPatch, InUse, Uses;
    var cleaned := CleanUpPatch(s.index, a.id);
    forall key: int, patchId: int
      ensures (key, patchId) in RegisterPatch(cleaned, s.configs, a) <==>
        InUse(s.configs, s.patches[i := a], key, patchId)
    {
      RegisterExact(cleaned, s.configs, a, (key, patchId));
      InUseReplaced(s.configs, s.patches, i, a, key, patchId);
    }
  }

  lemma ErasedPatchKeepsIndex(s: Store, i: nat)
    requires IndexExact(s) && UniqueIds(s) && i < |s.patches|
    ensures IndexExact(s.(patches := Erase(s.patches, i), index := CleanUpPatch(s.index, s.patches[i].id)))
  {
    hide InUse, Uses;
    forall key: int, patchId: int
      ensures (key, patchId) in CleanUpPatch(s.index, s.patches[i].id) <==>
        InUse(s.configs, Erase(s.patches, i), key, patchId)
    {
      InUseErased(s.configs, s.patches, i, key, patchId);
    }
  }

  /** The patch `a` shares its sinks fairly with the patches in `others`. */
  ghost predicate SharesFairly(s: Store, a: Patch, others: seq<Patch>)
  {
    forall b, port: int | b in others && b.id != a.id && SinksInto(s.configs, a, port) && SinksInto(s.configs, b, port) ::
      HasSharedRoute(s.routes, port)
  }

  lemma FilledSharesFairly(s: Store, req: Patch, h: Hooks)
    requires Inv(s) && Refusal(s, req, h).None?
    ensures SharesFairly(s, Filled(s, req, h), s.patches)
  {
    hide Inv, WellFormed, ExclusiveInUse, CleanUpPatch;
    var a := Filled(s, req, h);
    forall b, port: int | b in s.patches && b.id != a.id && SinksInto(s.configs, a, port) && SinksInto(s.configs, b, port)
      ensures HasSharedRoute(s.routes, port)
    {
      assert SinksInto(s.configs, req, port) by {
        var c :| c in s.configs && c.id in a.sinks && c.portId == port;
      }
      assert b.id != req.id by { PatchIdsPositive(s, b); }
      AcceptedSharesFairly(s, req, h, b, port);
    }
  }

  lemma PatchIdsPositive(s: Store, b: Patch)
    requires Inv(s) && b in s.patches
    ensures 0 < b.id < s.nextPatchId
  {
    hide IndexExact, ConfigsOnPorts, InitialsFixed, PatchesOnConfigs, StreamsOnConfigs, SinksExclusive;
    var i :| 0 <= i < |s.patches| && s.patches[i] == b;
    assert PatchIds(s.patches)[i] in PatchIds(s.patches);
  }

  /** Patches drawn from the old ones and from one that shares fairly with them. */
  lemma FairPatches(s: Store, a: Patch, w: seq<Patch>, index: seq<(int, int)>, next: int)
    requires SinksExclusive(s) && SharesFairly(s, a, s.patches)
    requires forall b | b in w :: b == a || b in s.patches
    ensures SinksExclusive(s.(patches := w, index := index, nextPatchId := next))
  {
    hide SinksInto, HasSharedRoute;
  }

  /** The parts of the invariant that mention neither patches nor the index. */
  lemma PatchesOnly(s: Store, u: Store)
    requires Inv(s) && u == s.(patches := u.patches, index := u.index, nextPatchId := u.nextPatchId)
    requires Numbered(PatchIds(u.patches), u.nextPatchId) && u.nextPatchId > 0
    requires PatchesOnConfigs(u) && IndexExact(u) && SinksExclusive(u)
    ensures Inv(u)
  {
    hide IndexExact, SinksExclusive, PatchesOnConfigs, Numbered, Claimed, Count;
    assert UniqueIds(u);
    forall t | t in u.streams ensures OnMixPort(u, t) { assert OnMixPort(s, t); }
    forall p | p in u.ports ensures WithinLimit(u, p) { assert WithinLimit(s, p); }
  }

  lemma CreateKeepsInv(s: Store, req: Patch, h: Hooks)
    requires Inv(s) && req.id == 0
    ensures Inv(SetAudioPatch(s, req, h).0)
  {
    hide Refusal, RegisterPatch, IndexExact, SinksExclusive, SharesFairly, ConfigsOnPorts, StreamsOnConfigs, Names;
    hide RoutesOnPorts, ConnectedAreDevices, InitialsFixed, ClaimsAreReal, Filled;
    if Refusal(s, req, h).None? {
      CreatedParts(s, req, h);
      var u := s.(nextPatchId := s.nextPatchId + 1);
      var a := Filled(s, req, h);
      assert IndexExact(u) && SinksExclusive(u) by { OtherFields(s, u); }
      if h.streams.None? {
        NewPatchKeepsIndex(u, a);
        FairPatches(s, a, s.patches + [a], RegisterPatch(s.index, s.configs, a), u.nextPatchId);
        PatchPushed(s.patches, a);
        DistinctPush(PatchIds(s.patches), a.id);
        PatchesOnly(s, SetAudioPatch(s, req, h).0);
      } else {
        PatchesOnly(s, u);
      }
    }
  }

  lemma OtherFields(s: Store, u: Store)
    requires IndexExact(s) && SinksExclusive(s) && u == s.(nextPatchId := u.nextPatchId)
    ensures IndexExact(u) && SinksExclusive(u)
  {
    hide InUse, SinksInto, HasSharedRoute;
  }

  lemma CreatedParts(s: Store, req: Patch, h: Hooks)
    requires Inv(s) && Refusal(s, req, h).None?
    ensures
      var a := Filled(s, req, h);
      && a.id == (if req.id == 0 then s.nextPatchId else req.id)
      && a.sources != [] && a.sinks != []
      && (forall id | Names(a, id) :: id in ConfigIds(s.configs))
      && SharesFairly(s, a, s.patches)
      && (req.id != 0 ==> req.id in PatchIds(s.patches))
      && h.bufferFrames.Some?
  {
    hide Inv, ExclusiveInUse, AllRouted, SharesFairly, CleanUpPatch;
    FilledSharesFairly(s, req, h);
    PresentAreNamed(s, Filled(s, req, h));
  }

  lemma UpdateKeepsInv(s: Store, req: Patch, h: Hooks)
    requires Inv(s) && req.id != 0 && !LateUpdateFailure(s, req, h)
    ensures Inv(SetAudioPatch(s, req, h).0)
  {
    hide Refusal, RegisterPatch, IndexExact, SinksExclusive, SharesFairly, ConfigsOnPorts, StreamsOnConfigs, Names;
    hide RoutesOnPorts, ConnectedAreDevices, InitialsFixed, ClaimsAreReal, Filled, CleanUpPatch;
    if Refusal(s, req, h).None? {
      CreatedParts(s, req, h);
      var a := Filled(s, req, h);
      var i := Find(PatchIds(s.patches), req.id);
      var index := RegisterPatch(CleanUpPatch(s.index, req.id), s.configs, a);
      UpdatedPatchKeepsIndex(s, i, a);
      FairPatches(s, a, s.patches[i := a], index, s.nextPatchId);
      assert PatchIds(s.patches[i := a]) == PatchIds(s.patches);
      PatchesOnly(s, SetAudioPatch(s, req, h).0);
    }
  }

  lemma ResetKeepsInv(s: Store, patchId: int, streams: Option<Status>)
    requires Inv(s)
    ensures Inv(ResetAudioPatch(s, patchId, streams).0)
  {
    hide IndexExact, SinksExclusive, ConfigsOnPorts, StreamsOnConfigs, Names, Erase, CleanUpPatch;
    hide RoutesOnPorts, ConnectedAreDevices, InitialsFixed, ClaimsAreReal;
    var i := Find(PatchIds(s.patches), patchId);
    if i < |s.patches| && streams.None? {
      var u := ResetAudioPatch(s, patchId, streams).0;
      ErasedPatchKeepsIndex(s, i);
      PatchErased(s.patches, i);
      DistinctErase(PatchIds(s.patches), i);
      FewerPatches(s, u);
      PatchesOnly(s, u);
    }
  }

  lemma FewerPatches(s: Store, u: Store)
    requires SinksExclusive(s) && u == s.(patches := u.patches, index := u.index)
    requires forall b | b in u.patches :: b in s.patches
    ensures SinksExclusive(u)
  {
    hide SinksInto, HasSharedRoute;
  }

  /**
   * The invariant is kept exactly when no update fails late: after such a failure the patch list still
   * holds the old patch, but the index has lost every use of it.
   */
  lemma SetPatchKeepsInv(s: Store, req: Patch, h: Hooks)
    requires Inv(s)
    ensures Inv(SetAudioPatch(s, req, h).0) <==> !LateUpdateFailure(s, req, h)
  {
    hide Inv, SetAudioPatch, LateUpdateFailure;
    if LateUpdateFailure(s, req, h) {
      LateUpdateBreaksIndex(s, req, h);
      InvHasIndex(SetAudioPatch(s, req, h).0);
    } else if req.id == 0 {
      CreateKeepsInv(s, req, h);
    } else {
      UpdateKeepsInv(s, req, h);
    }
  }

  lemma InvHasIndex(s: Store)
    ensures Inv(s) ==> IndexExact(s)
  {
  }

  /** After a late failure of an update, only the index has changed, and it is no longer exact. */
  lemma LateUpdateBreaksIndex(s: Store, req: Patch, h: Hooks)
    requires Inv(s) && LateUpdateFailure(s, req, h)
    ensures
      var u := SetAudioPatch(s, req, h).0;
      && u == s.(index := u.index)
      && !IndexExact(u)
      && (exists a | a in u.patches :: a.id == req.id)
      && (forall key :: (key, req.id) !in u.index)
  {
    hide Refusal, RegisterPatch, SinksExclusive, ConfigsOnPorts, StreamsOnConfigs, Filled;
    hide RoutesOnPorts, ConnectedAreDevices, InitialsFixed, ClaimsAreReal;
    CreatedParts(s, req, h);
    var u := SetAudioPatch(s, req, h).0;
    var i := Find(PatchIds(s.patches), req.id);
    var a := s.patches[i];
    assert a in s.patches && Names(a, a.sources[0]);
    assert a.sources[0] in ConfigIds(s.configs);
    var j :| 0 <= j < |s.configs| && s.configs[j].id == a.sources[0];
    assert Uses(s.configs, a, a.sources[0]);
    assert InUse(u.configs, u.patches, a.sources[0], req.id);
  }

  /**
   * The same branch for a new patch, as written, when `push_back` has not moved the list: `existing` is
   * then the place of the new patch, is not the end, and an empty patch is written over it. When the list
   * has moved, the write is undefined.
   */
  function LateCreateInPlace(s: Store): Store
  {
    s.(patches := s.patches + [Patch(0, [], [], 0, [])], nextPatchId := s.nextPatchId + 1)
  }

  /** A late failure of a new patch, as written, leaves an empty patch with id 0 in the list. */
  lemma LateCreateLeavesEmptyPatch(s: Store)
    ensures
      var u := LateCreateInPlace(s);
      && !PatchesOnConfigs(u) && !UniqueIds(u)
      && (IndexExact(s) ==> IndexExact(u))
  {
    var u := LateCreateInPlace(s);
    var n := |s.patches|;
    assert u.patches[n] in u.patches;
    assert PatchIds(u.patches)[n] in PatchIds(u.patches);
    hide Uses;
    forall key: int, patchId: int ensures InUse(u.configs, u.patches, key, patchId) <==> InUse(s.configs, s.patches, key, patchId) {
      InUsePushed(s.configs, s.patches, u.patches[n], key, patchId);
      EmptyUsesNothing(s.configs, key);
    }
  }

  lemma EmptyUsesNothing(configs: seq<Config>, key: int)
    ensures !Uses(configs, Patch(0, [], [], 0, []), key)
  {
  }

  // ---------- When a request succeeds, and what it stores ----------

  /** A route from the sources that only one patch may use, into a port that another patch uses. */
  ghost predicate BlockedBy(s: Store, req: Patch, r: Route, b: Patch)
  {
    && r in s.routes && b in s.patches && b.id != req.id
    && LeadsFrom(s.configs, req.sources, r)
    && !Shareable(s, req.sources, r.sink)
    && Uses(s.configs, b, r.sink)
  }

  /**
   * In terms of the patches themselves: a well-formed request is granted exactly when no other patch
   * uses a port to which the sources have exclusive routes only, whether that port is requested or not.
   */
  lemma AcceptedExactly(s: Store, req: Patch, h: Hooks)
    requires Inv(s) && WellFormed(s, req)
    requires h.endpoints.None? && h.bufferFrames.Some? && h.streams.None?
    ensures SetAudioPatch(s, req, h).1.Success? <==>
      && (req.id == 0 || req.id in PatchIds(s.patches))
      && (forall r, b :: !BlockedBy(s, req, r, b))
  {
    hide WellFormed, LeadsFrom, Shareable, RegisterPatch, Uses, CleanUpPatch;
    hide UniqueIds, ConfigsOnPorts, InitialsFixed, PatchesOnConfigs, StreamsOnConfigs, SinksExclusive;
    hide ConnectedAreDevices, RoutesOnPorts, StreamLimits, ClaimsAreReal;
    var index := if req.id != 0 then CleanUpPatch(s.index, req.id) else s.index;
    forall key ensures AudioConfigs.HasKey(index, key) <==> exists b | b in s.patches :: b.id != req.id && Uses(s.configs, b, key) {
      KeyOfOther(s, req, key);
    }
    if ExclusiveInUse(s, index, req) {
      var r :| r in s.routes && LeadsFrom(s.configs, req.sources, r) && !Shareable(s, req.sources, r.sink)
        && AudioConfigs.HasKey(index, r.sink);
      var b :| b in s.patches && b.id != req.id && Uses(s.configs, b, r.sink);
      assert BlockedBy(s, req, r, b);
    }
  }

  lemma KeyOfOther(s: Store, req: Patch, key: int)
    requires Inv(s)
    ensures
      var index := if req.id != 0 then CleanUpPatch(s.index, req.id) else s.index;
      AudioConfigs.HasKey(index, key) <==> exists b | b in s.patches :: b.id != req.id && Uses(s.configs, b, key)
  {
    hide Uses, Inv;
    assert IndexExact(s) by { InvHasIndex(s); }
    var index := if req.id != 0 then CleanUpPatch(s.index, req.id) else s.index;
    forall b | b in s.patches ensures 0 < b.id { PatchIdsPositive(s, b); }
    if AudioConfigs.HasKey(index, key) {
      var e :| e in index && e.0 == key;
      assert (key, e.1) in s.index;
      assert InUse(s.configs, s.patches, key, e.1);
    }
    if b :| b in s.patches && b.id != req.id && Uses(s.configs, b, key) {
      assert InUse(s.configs, s.patches, key, b.id);
      assert (key, b.id) in index;
    }
  }

  /** A granted request is stored with its own sources and sinks, and no other patch changes. */
  lemma GrantedIsStored(s: Store, req: Patch, h: Hooks)
    requires Inv(s) && SetAudioPatch(s, req, h).1.Success?
    ensures
      var (u, r) := SetAudioPatch(s, req, h);
      var a := r.value;
      && a.sources == req.sources && a.sinks == req.sinks
      && |a.latencies| == |req.sinks| && (forall l | l in a.latencies :: l == h.latency)
      && (if req.id != 0 then a.id == req.id else a.id !in PatchIds(s.patches))
      && (forall b :: b in u.patches <==> b == a || (b in s.patches && b.id != a.id))
      && u == s.(patches := u.patches, index := u.index, nextPatchId := u.nextPatchId)
  {
    hide Refusal, RegisterPatch, CleanUpPatch, IndexExact, ConfigsOnPorts, InitialsFixed, PatchesOnConfigs;
    hide StreamsOnConfigs, SinksExclusive, ConnectedAreDevices, RoutesOnPorts, StreamLimits, ClaimsAreReal;
    CreatedParts(s, req, h);
    var (u, r) := SetAudioPatch(s, req, h);
    var i := Find(PatchIds(s.patches), req.id);
    forall b | b in s.patches ensures b.id in PatchIds(s.patches) && (b.id == req.id ==> i < |s.patches| && b == s.patches[i]) {
      FoundPatch(s.patches, b);
      PatchIdsPositive(s, b);
      var k :| 0 <= k < |s.patches| && s.patches[k] == b;
      assert PatchIds(s.patches)[k] == b.id;
    }
    if req.id != 0 {
      forall b | b in s.patches && b.id != req.id ensures b in u.patches {
        var k :| 0 <= k < |s.patches| && s.patches[k] == b;
        assert u.patches[k] == b;
      }
      forall k | 0 <= k < |u.patches| && k != i ensures u.patches[k].id != req.id {
        assert PatchIds(s.patches)[k] != PatchIds(s.patches)[i];
      }
      assert u.patches[i] == r.value;
    }
  }

  /** A removed patch is gone, and no other patch changes. */
  lemma ResetRemoves(s: Store, patchId: int)
    requires Inv(s)
    ensures
      var (u, r) := ResetAudioPatch(s, patchId, None);
      && (r.Success? <==> patchId in PatchIds(s.patches))
      && (forall b :: b in u.patches <==> b in s.patches && b.id != patchId)
  {
    hide CleanUpPatch, IndexExact, ConfigsOnPorts, InitialsFixed, PatchesOnConfigs;
    hide StreamsOnConfigs, SinksExclusive, ConnectedAreDevices, RoutesOnPorts, StreamLimits, ClaimsAreReal;
    var u := ResetAudioPatch(s, patchId, None).0;
    var i := Find(PatchIds(s.patches), patchId);
    forall k | 0 <= k < |s.patches| ensures (s.patches[k].id == patchId <==> k == i) {
      assert PatchIds(s.patches)[k] == s.patches[k].id;
    }
    if i < |s.patches| {
      forall b | b in s.patches && b.id != patchId ensures b in u.patches {
        var k :| 0 <= k < |s.patches| && s.patches[k] == b;
        assert u.patches[if k < i then k else k - 1] == b;
      }
    }
  }
}
