/** Moving the open streams from the devices of one patch to those of another, or not at all. */
module StreamConnections {
  import opened Basics
  import opened AudioStores

  /** The devices that each stream's port config is to be connected to, as device port config ids. */
  type Connections = map<int, set<int>>

  /**
   * What the next call on a stream does: `None` when it succeeds, otherwise the devices that the
   * failed call leaves the stream on.
   */
  type Answers = seq<Option<set<Device>>>

  function DevicesOf(known: map<int, Device>, ids: set<int>): set<Device>
  {
    set id | id in ids && id in known :: known[id]
  }

  predicate AnyOpen(open: set<int>, ids: seq<int>)
  {
    exists id | id in ids :: id in open
  }

  function Joined(ids: seq<int>, others: seq<int>): Connections
  {
    map id | id in ids :: set other | other in others
  }

  /** A side with an open stream is the side of the mix ports. */
  function ConnectionsOf(open: set<int>, a: Patch): Connections
  {
    if AnyOpen(open, a.sources) then Joined(a.sources, a.sinks)
    else if AnyOpen(open, a.sinks) then Joined(a.sinks, a.sources)
    else map[]
  }

  predicate NoFailure(answers: Answers)
  {
    forall a | a in answers :: a.None?
  }

  /** After the first failure, every later call succeeds. */
  predicate AtMostOneFailure(answers: Answers)
  {
    |answers| == 0 ||
    (if answers[0].Some? then NoFailure(answers[1..]) else AtMostOneFailure(answers[1..]))
  }

  /** The connections whose stream has to be told. */
  predicate Changes(was: Connections, now: Connections, id: int)
  {
    if id in now then id !in was || was[id] != now[id] else id in was
  }

  /** The devices a stream is on under the connections; none when it is not mentioned. */
  function DevicesIn(known: map<int, Device>, c: Connections, id: int): set<Device>
  {
    if id in c then DevicesOf(known, c[id]) else {}
  }

  /** Every stream the connections mention is on the devices they say. */
  ghost predicate OnDevicesOf(known: map<int, Device>, devices: map<int, set<Device>>, was: Connections, now: Connections)
  {
    forall id | id in devices && (id in was || id in now) :: devices[id] == DevicesIn(known, was, id)
  }

  /** The lookups that end the process on failure: known devices, and at least one of them. */
  predicate DevicesKnown(known: map<int, Device>, c: Connections)
  {
    forall id | id in c :: c[id] != {} && forall d | d in c[id] :: d in known
  }

  /** The devices of the open streams after moving them from one set of connections to another. */
  function Moved(known: map<int, Device>, devices: map<int, set<Device>>, was: Connections, now: Connections, ok: bool):
    map<int, set<Device>>
  {
    if !ok then devices
    else map id | id in devices :: if id in was || id in now then DevicesIn(known, now, id) else devices[id]
  }

  class Streams {
    /** The devices each open stream is on, by the id of its port config. */
    var devices: map<int, set<Device>>
    var answers: Answers
    /** The port config ids that were told anything. */
    var told: set<int>

    constructor (devices: map<int, set<Device>>, answers: Answers)
      ensures this.devices == devices && this.answers == answers && told == {}
    {
      this.devices, this.answers, told := devices, answers, {};
    }

    method SetStreamConnectedDevices(id: int, to: set<Device>) returns (ok: bool)
      modifies this
      ensures told == old(told) + {id}
      ensures devices.Keys == old(devices).Keys
      ensures forall other | other in devices && other != id :: devices[other] == old(devices)[other]
      ensures ok && id in devices ==> devices[id] == to
      ensures !ok <==> id in devices && |old(answers)| > 0 && old(answers)[0].Some?
      ensures NoFailure(old(answers)) ==> ok && NoFailure(answers)
      ensures AtMostOneFailure(old(answers)) ==> if ok then AtMostOneFailure(answers) else NoFailure(answers)
    {
      told := told + {id};
      if id !in devices {
        return true;
      }
      if |answers| == 0 {
        devices := devices[id := to];
        return true;
      }
      var answer := answers[0];
      assert NoFailure(answers) ==> answer.None? && NoFailure(answers[1..]);
      answers := answers[1..];
      match answer
      case None =>
        devices := devices[id := to];
        ok := true;
      case Some(left) =>
        devices := devices[id := left];
        ok := false;
    }

    /** Puts streams back to the old connections; `stuck` lists those whose call failed. */
    method RestoreOldConnections(known: map<int, Device>, was: Connections, ids: set<int>, continueWithEmpty: bool)
      returns (stuck: set<int>)
      modifies this
      ensures told <= old(told) + ids && stuck <= ids && devices.Keys == old(devices).Keys
      ensures forall id | id in devices && id in ids && (continueWithEmpty || id in was) && id !in stuck ::
        devices[id] == DevicesIn(known, was, id)
      ensures forall id | id in devices && id !in ids :: devices[id] == old(devices)[id]
      ensures NoFailure(old(answers)) ==> stuck == {} && NoFailure(answers)
    {
      hide NoFailure, DevicesOf;
      stuck := {};
      var todo := ids;
      while todo != {}
        invariant todo <= ids && told <= old(told) + ids && stuck <= ids && devices.Keys == old(devices).Keys
        invariant forall id | id in devices && id in ids && id !in todo && (continueWithEmpty || id in was) && id !in stuck ::
          devices[id] == DevicesIn(known, was, id)
        invariant forall id | id in devices && id !in ids :: devices[id] == old(devices)[id]
        invariant NoFailure(old(answers)) ==> stuck == {} && NoFailure(answers)
        decreases |todo|
      {
        SomeIn(todo);
        var id :| id in todo;
        if continueWithEmpty || id in was {
          var ok := SetStreamConnectedDevices(id, DevicesIn(known, was, id));
          if !ok {
            stuck := stuck + {id};
          }
        }
        todo := todo - {id};
      }
    }

    /** The first step: streams that only the old connections mention are disconnected. */
    method DisconnectOld(was: Connections, now: Connections) returns (ok: bool, back: set<int>)
      modifies this
      ensures (forall id | id in back :: id in was && id !in now) && devices.Keys == old(devices).Keys && told == old(told) + back
      ensures forall id | id in devices && id !in back :: devices[id] == old(devices)[id]
      ensures ok ==> forall id | id in was && id !in now :: id in back
      ensures ok ==> forall id | id in devices && id in back :: devices[id] == {}
      ensures AtMostOneFailure(old(answers)) ==> if ok then AtMostOneFailure(answers) else NoFailure(answers)
    {
      hide AtMostOneFailure, NoFailure;
      var none: set<Device> := {};
      back := {};
      var todo := was.Keys;
      while todo != {}
        invariant todo <= was.Keys
        invariant forall id | id in back :: id in was && id !in now && id !in todo
        invariant forall id | id in was && id !in now && id !in todo :: id in back
        invariant devices.Keys == old(devices).Keys && told == old(told) + back
        invariant forall id | id in devices && id in back :: devices[id] == none
        invariant forall id | id in devices && id !in back :: devices[id] == old(devices)[id]
        invariant AtMostOneFailure(old(answers)) ==> AtMostOneFailure(answers)
        decreases |todo|
      {
        SomeIn(todo);
        var id :| id in todo;
        if id !in now {
          back := back + {id};
          var done := SetStreamConnectedDevices(id, none);
          if !done {
            return false, back;
          }
        }
        todo := todo - {id};
      }
      ok := true;
    }

    /** The second step: streams whose devices differ are connected to the new ones. */
    method ConnectNew(known: map<int, Device>, was: Connections, now: Connections) returns (ok: bool, changed: set<int>)
      modifies this
      ensures forall id | id in changed :: id in now && Changes(was, now, id)
      ensures devices.Keys == old(devices).Keys && told == old(told) + changed
      ensures forall id | id in devices && id !in changed :: devices[id] == old(devices)[id]
      ensures ok ==> forall id | id in now && Changes(was, now, id) :: id in changed
      ensures ok ==> forall id | id in devices && id in changed :: devices[id] == DevicesIn(known, now, id)
      ensures AtMostOneFailure(old(answers)) ==> if ok then AtMostOneFailure(answers) else NoFailure(answers)
    {
      hide AtMostOneFailure, NoFailure, DevicesOf, DevicesIn, Changes;
      changed := {};
      var todo := now.Keys;
      while todo != {}
        invariant todo <= now.Keys
        invariant forall id | id in changed :: id in now && Changes(was, now, id) && id !in todo
        invariant forall id | id in now && id !in todo && Changes(was, now, id) :: id in changed
        invariant devices.Keys == old(devices).Keys && told == old(told) + changed
        invariant forall id | id in devices :: devices[id] == if id in changed then DevicesIn(known, now, id) else old(devices)[id]
        invariant AtMostOneFailure(old(answers)) ==> AtMostOneFailure(answers)
        decreases |todo|
      {
        SomeIn(todo);
        var id :| id in todo;
        if Changes(was, now, id) {
          changed := changed + {id};
          var done := SetStreamConnectedDevices(id, DevicesIn(known, now, id));
          if !done {
            return false, changed;
          }
        }
        todo := todo - {id};
      }
      ok := true;
    }

    /**
     * Success leaves every stream the patches mention on the devices of the new patch. A failure leaves
     * every stream where it was, except those whose rollback call failed as well. Only streams whose
     * connections differ are told anything.
     */
    method UpdateStreamsConnectedState(known: map<int, Device>, oldPatch: Patch, newPatch: Patch)
      returns (ok: bool, stuck: set<int>)
      requires
        var was, now := ConnectionsOf(devices.Keys, oldPatch), ConnectionsOf(devices.Keys, newPatch);
        && DevicesKnown(known, was) && DevicesKnown(known, now)
        && OnDevicesOf(known, devices, was, now)
      requires told == {}
      modifies this
      ensures
        var was := ConnectionsOf(old(devices).Keys, oldPatch);
        var now := ConnectionsOf(old(devices).Keys, newPatch);
        && devices.Keys == old(devices).Keys
        && (ok ==> stuck == {} && OnDevicesOf(known, devices, now, was))
        && (!ok ==> forall id | id in devices && id !in stuck :: devices[id] == old(devices)[id])
        && (forall id | id in devices && id !in was && id !in now :: devices[id] == old(devices)[id])
        && (forall id | id in told :: Changes(was, now, id))
        && (ok ==> forall id | Changes(was, now, id) :: id in told)
      ensures AtMostOneFailure(old(answers)) ==>
        && stuck == {}
        && devices == Moved(known, old(devices), ConnectionsOf(old(devices).Keys, oldPatch),
                            ConnectionsOf(old(devices).Keys, newPatch), ok)
    {
      hide ConnectionsOf, DevicesOf, DevicesKnown, AtMostOneFailure, NoFailure;
      var was, now := ConnectionsOf(devices.Keys, oldPatch), ConnectionsOf(devices.Keys, newPatch);
      stuck := {};
      var disconnected, back := DisconnectOld(was, now);
      if !disconnected {
        stuck := RestoreOldConnections(known, was, back, false);
        return false, stuck;
      }
      var connected, changed := ConnectNew(known, was, now);
      if !connected {
        stuck := RestoreOldConnections(known, was, back, false);
        var stuckNew := RestoreOldConnections(known, was, changed, true);
        stuck := stuck + stuckNew;
        return false, stuck;
      }
      ok := true;
    }
  }
}
