/** The replace deploy: create the new device, join its activities, delete the old one,
    roll back on a refusal; and the driver that chooses between it and the in-place sync.
    The hub follows the rule its firmware applies: deleting a device also purges every
    activity left without a member. */
module ReplacePath {
  import opened Text
  import opened Slots
  import opened Records
  import opened Ownership
  import opened ManagedMatch
  import opened InplaceSync
  import opened InplaceRun

  // ------------------------------------------------------------- the hub

  /** Devices, and the member devices of each activity. */
  datatype Hub = Hub(devices: set<int>, activities: map<int, set<int>>)

  function AfterCreate(h: Hub, dev: int): Hub { h.(devices := h.devices + {dev}) }

  function AfterJoin(h: Hub, a: int, dev: int): Hub {
    if a in h.activities then h.(activities := h.activities[a := h.activities[a] + {dev}]) else h
  }

  function AfterDelete(h: Hub, dev: int): Hub {
    Hub(h.devices - {dev},
        map a | a in h.activities && h.activities[a] - {dev} != {} :: h.activities[a] - {dev})
  }

  /** A call answers with a result, without one, or raises; in the last two cases it may
      still have taken effect on the hub. */
  datatype Reply = Done | Empty(applied: bool) | Raised(applied: bool)

  predicate TookEffect(r: Reply) { r.Done? || r.applied }

  datatype Replies = Replies(create: Reply, join: int -> Reply, delete: int -> Reply, undo: Reply)

  /** How far a chain of calls got. */
  datatype Status = AllDone | SomeEmpty | Stopped

  datatype Outcome = Finished | RolledBack | Aborted

  // ------------------------------------------------------ replace, as law

  /** Every target is tried; only an exception cuts the loop short. */
  function JoinAll(h: Hub, acts: seq<int>, dev: int, join: int -> Reply): (Hub, Status) {
    if acts == [] then (h, AllDone)
    else
      var (before, status) := JoinAll(h, acts[..|acts| - 1], dev, join);
      var a := acts[|acts| - 1];
      if status.Stopped? then (before, Stopped)
      else
        (if TookEffect(join(a)) then AfterJoin(before, a, dev) else before,
         if join(a).Raised? then Stopped else if join(a).Done? then status else SomeEmpty)
  }

  /** Old devices are deleted until one is not confirmed. */
  function DeleteAll(h: Hub, olds: seq<int>, delete: int -> Reply): (Hub, Status)
    decreases olds
  {
    if olds == [] then (h, AllDone)
    else
      var next := if TookEffect(delete(olds[0])) then AfterDelete(h, olds[0]) else h;
      match delete(olds[0])
      case Done => DeleteAll(next, olds[1..], delete)
      case Empty(_) => (next, SomeEmpty)
      case Raised(_) => (next, Stopped)
  }

  function Undo(h: Hub, dev: int, undo: Reply): (Hub, Outcome) {
    (if TookEffect(undo) then AfterDelete(h, dev) else h, RolledBack)
  }

  function ReplaceRun(h: Hub, acts: seq<int>, olds: seq<int>, dev: int, r: Replies): (Hub, Outcome) {
    var created := if TookEffect(r.create) then AfterCreate(h, dev) else h;
    if !r.create.Done? then (created, Aborted)
    else
      var (joined, joins) := JoinAll(created, acts, dev, r.join);
      match joins
      case Stopped => (joined, Aborted)
      case SomeEmpty => Undo(joined, dev, r.undo)
      case AllDone =>
        var (deleted, deletes) := DeleteAll(joined, olds, r.delete);
        match deletes
        case Stopped => (deleted, Aborted)
        case SomeEmpty => Undo(deleted, dev, r.undo)
        case AllDone => (deleted, Finished)
  }

  /** Referenced activities minus those a non-empty catalogue no longer lists. */
  function JoinTargets(referenced: seq<int>, known: set<int>): (r: seq<int>)
    ensures forall a :: a in r <==> a in referenced && (known == {} || a in known)
  {
    if referenced == [] then []
    else
      assert referenced == [referenced[0]] + referenced[1..];
      (if known == {} || referenced[0] in known then [referenced[0]] else [])
      + JoinTargets(referenced[1..], known)
  }

  // --------------------------------------------------- what joins achieve

  predicate Unused(h: Hub, dev: int) {
    dev !in h.devices && forall a :: a in h.activities ==> dev !in h.activities[a]
  }

  /** Joining adds the new device to some activities and touches nothing else. */
  lemma {:induction false} JoinsOnlyAdd(h: Hub, acts: seq<int>, dev: int, join: int -> Reply)
    ensures var (after, status) := JoinAll(h, acts, dev, join);
      && after.devices == h.devices && after.activities.Keys == h.activities.Keys
      && (forall a :: a in h.activities ==>
            after.activities[a] == h.activities[a] || after.activities[a] == h.activities[a] + {dev})
      && (status.AllDone? ==> forall a :: a in acts && a in h.activities ==> dev in after.activities[a])
      && (status.AllDone? <==> forall a :: a in acts ==> join(a).Done?)
  {
    if acts != [] {
      var n := |acts| - 1;
      JoinsOnlyAdd(h, acts[..n], dev, join);
      assert acts == acts[..n] + [acts[n]];
    }
  }

  // ------------------------------------------------- what deletions cost

  /** Old devices whose deletion took effect. */
  function Gone(olds: seq<int>, delete: int -> Reply): set<int>
    decreases olds
  {
    if olds == [] then {}
    else (if TookEffect(delete(olds[0])) then {olds[0]} else {})
         + if delete(olds[0]).Done? then Gone(olds[1..], delete) else {}
  }

  /** The deletions together take exactly the devices that are gone out of an activity
      that has members, and purge it if none is left. */
  lemma {:induction false} DeletionsRemoveGone(h: Hub, olds: seq<int>, delete: int -> Reply, a: int)
    requires a in h.activities && h.activities[a] != {}
    ensures var (after, status) := DeleteAll(h, olds, delete);
      && (a in after.activities <==> !(h.activities[a] <= Gone(olds, delete)))
      && (a in after.activities ==> after.activities[a] == h.activities[a] - Gone(olds, delete))
    decreases olds
  {
    if olds != [] && TookEffect(delete(olds[0])) {
      var next := AfterDelete(h, olds[0]);
      var gone := if delete(olds[0]).Done? then Gone(olds[1..], delete) else {};
      assert h.activities[a] - {olds[0]} - gone == h.activities[a] - ({olds[0]} + gone);
      if h.activities[a] - {olds[0]} == {} {
        if delete(olds[0]).Done? { PurgedStays(next, olds[1..], delete, a); }
      } else if delete(olds[0]).Done? {
        DeletionsRemoveGone(next, olds[1..], delete, a);
      }
    }
  }

  lemma {:induction false} PurgedStays(h: Hub, olds: seq<int>, delete: int -> Reply, a: int)
    requires a !in h.activities
    ensures a !in DeleteAll(h, olds, delete).0.activities
    decreases olds
  {
    if olds != [] && delete(olds[0]).Done? {
      PurgedStays(AfterDelete(h, olds[0]), olds[1..], delete, a);
    }
  }

  lemma {:induction false} DeletionsDropDevices(h: Hub, olds: seq<int>, delete: int -> Reply)
    ensures DeleteAll(h, olds, delete).0.devices == h.devices - Gone(olds, delete)
    ensures DeleteAll(h, olds, delete).1 == DeleteStatus(olds, delete)
    ensures DeleteStatus(olds, delete).AllDone? <==> forall o :: o in olds ==> delete(o).Done?
    ensures DeleteStatus(olds, delete).AllDone? ==> Gone(olds, delete) == set o | o in olds
    decreases olds
  {
    if olds != [] {
      assert olds == [olds[0]] + olds[1..];
      var next := if TookEffect(delete(olds[0])) then AfterDelete(h, olds[0]) else h;
      DeletionsDropDevices(next, olds[1..], delete);
    }
  }

  /** When nothing was deleted, the hub did not change. */
  lemma NothingGone(h: Hub, olds: seq<int>, delete: int -> Reply)
    requires Gone(olds, delete) == {}
    ensures DeleteAll(h, olds, delete).0 == h
  {
    if olds != [] { assert olds[0] !in Gone(olds, delete); }
  }

  // ------------------------------------------------------- main theorems

  /** The one way to lose an activity: every join is confirmed, a deletion then is not,
      the undo of the new device takes effect, and all its members were deleted. */
  predicate Doomed(h: Hub, acts: seq<int>, olds: seq<int>, r: Replies, a: int)
    requires a in h.activities
  {
    && r.create.Done? && (forall b :: b in acts ==> r.join(b).Done?)
    && DeleteStatus(olds, r.delete).SomeEmpty? && TookEffect(r.undo)
    && h.activities[a] <= Gone(olds, r.delete)
  }

  function DeleteStatus(olds: seq<int>, delete: int -> Reply): Status
    decreases olds
  {
    if olds == [] then AllDone
    else match delete(olds[0])
      case Done => DeleteStatus(olds[1..], delete)
      case Empty(_) => SomeEmpty
      case Raised(_) => Stopped
  }

  lemma UndoSpares(h: Hub, joined: Hub, dev: int, a: int)
    requires Unused(h, dev) && a in h.activities && a in joined.activities && h.activities[a] != {}
    requires joined.activities[a] == h.activities[a] || joined.activities[a] == h.activities[a] + {dev}
    ensures a in AfterDelete(joined, dev).activities && AfterDelete(joined, dev).activities[a] == h.activities[a]
  {
    assert joined.activities[a] - {dev} == h.activities[a];
  }

  lemma GoneAreOld(olds: seq<int>, delete: int -> Reply)
    ensures forall o :: o in Gone(olds, delete) ==> o in olds
    decreases olds
  {
    if olds != [] { GoneAreOld(olds[1..], delete); }
  }

  /** A referenced activity that had members is lost exactly when it is doomed. */
  lemma ActivityLostIff(h: Hub, acts: seq<int>, olds: seq<int>, dev: int, r: Replies, a: int)
    requires Unused(h, dev) && dev !in olds
    requires a in acts && a in h.activities && h.activities[a] != {}
    ensures a !in ReplaceRun(h, acts, olds, dev, r).0.activities <==> Doomed(h, acts, olds, r, a)
  {
    var created := AfterCreate(h, dev);
    JoinsOnlyAdd(created, acts, dev, r.join);
    var (joined, joins) := JoinAll(created, acts, dev, r.join);
    if r.create.Done? && joins.SomeEmpty? {
      UndoSpares(h, joined, dev, a);
    }
    if r.create.Done? && joins.AllDone? {
      DeletionsRemoveGone(joined, olds, r.delete, a);
      DeletionsDropDevices(joined, olds, r.delete);
      GoneAreOld(olds, r.delete);
      var gone := Gone(olds, r.delete);
      assert dev in joined.activities[a] - gone;
      assert joined.activities[a] - gone - {dev} == h.activities[a] - gone;
    }
  }

  lemma OneOld(olds: seq<int>, delete: int -> Reply)
    requires |olds| <= 1 && DeleteStatus(olds, delete).SomeEmpty?
    ensures |olds| == 1 && Gone(olds, delete) == if delete(olds[0]) == Empty(true) then {olds[0]} else {}
  {
  }

  /** With the one old device a match can name, a referenced activity that had a member
      survives whatever fails, but for one case: the deletion took effect unconfirmed, the
      undo took effect too, and the old device was the only member. */
  lemma ReferencedActivitiesSurvive(h: Hub, acts: seq<int>, olds: seq<int>, dev: int, r: Replies, a: int)
    requires Unused(h, dev) && dev !in olds && |olds| <= 1
    requires a in acts && a in h.activities && h.activities[a] != {}
    ensures a !in ReplaceRun(h, acts, olds, dev, r).0.activities <==>
      (&& r.create.Done? && (forall b :: b in acts ==> r.join(b).Done?)
       && |olds| == 1 && r.delete(olds[0]) == Empty(true) && TookEffect(r.undo)
       && h.activities[a] == {olds[0]})
  {
    ActivityLostIff(h, acts, olds, dev, r, a);
    if DeleteStatus(olds, r.delete).SomeEmpty? {
      OneOld(olds, r.delete);
    } else if |olds| == 1 && r.delete(olds[0]) == Empty(true) {
      assert false;
    }
  }

  /** The sole old device is deleted without confirmation and the undo succeeds: the
      activity both of them carried is gone. */
  lemma UnconfirmedDeleteLosesActivity()
    ensures var h := Hub({7}, map[101 := {7}]);
      var r := Replies(Done, (_: int) => Done, (_: int) => Empty(true), Done);
      101 !in ReplaceRun(h, [101], [7], 8, r).0.activities
  {
    var h := Hub({7}, map[101 := {7}]);
    var r := Replies(Done, (_: int) => Done, (_: int) => Empty(true), Done);
    ActivityLostIff(h, [101], [7], 8, r, 101);
    assert DeleteStatus([7], r.delete).SomeEmpty?;
    assert Gone([7], r.delete) == {7};
  }

  /** A run finishes exactly when every call is confirmed. */
  lemma FinishedIff(h: Hub, acts: seq<int>, olds: seq<int>, dev: int, r: Replies)
    ensures ReplaceRun(h, acts, olds, dev, r).1.Finished? <==>
      (&& r.create.Done? && (forall b :: b in acts ==> r.join(b).Done?)
       && forall o :: o in olds ==> r.delete(o).Done?)
  {
    JoinsOnlyAdd(AfterCreate(h, dev), acts, dev, r.join);
    DeletionsDropDevices(JoinAll(AfterCreate(h, dev), acts, dev, r.join).0, olds, r.delete);
  }

  /** Then the new device has replaced the old ones, in the device list and in every
      activity it was to join; no joined activity is lost. */
  lemma FinishedSwapsDevices(h: Hub, acts: seq<int>, olds: seq<int>, dev: int, r: Replies, a: int)
    requires Unused(h, dev) && dev !in olds && a in acts && a in h.activities
    requires ReplaceRun(h, acts, olds, dev, r).1.Finished?
    ensures var after, gone := ReplaceRun(h, acts, olds, dev, r).0, set o | o in olds;
      && after.devices == h.devices + {dev} - gone
      && a in after.activities && after.activities[a] == h.activities[a] + {dev} - gone
  {
    FinishedIff(h, acts, olds, dev, r);
    JoinsOnlyAdd(AfterCreate(h, dev), acts, dev, r.join);
    var joined := JoinAll(AfterCreate(h, dev), acts, dev, r.join).0;
    DeletionsDropDevices(joined, olds, r.delete);
    assert joined.activities[a] == h.activities[a] + {dev};
    DeletionsRemoveGone(joined, olds, r.delete, a);
    assert dev in joined.activities[a] && dev !in Gone(olds, r.delete);
  }

  function Manned(activities: map<int, set<int>>): map<int, set<int>> {
    map a | a in activities && activities[a] != {} :: activities[a]
  }

  /** A rolled-back run whose undo took effect and that deleted no old device leaves the
      hub as it found it, except that the sweep also purges activities that already had
      no member. */
  lemma RollbackRestoresHub(h: Hub, acts: seq<int>, olds: seq<int>, dev: int, r: Replies)
    requires Unused(h, dev) && dev !in olds
    requires ReplaceRun(h, acts, olds, dev, r).1.RolledBack? && TookEffect(r.undo)
    requires Gone(olds, r.delete) == {}
    ensures ReplaceRun(h, acts, olds, dev, r).0 == h.(activities := Manned(h.activities))
  {
    var created := AfterCreate(h, dev);
    JoinsOnlyAdd(created, acts, dev, r.join);
    var joined := JoinAll(created, acts, dev, r.join).0;
    NothingGone(joined, olds, r.delete);
    forall a | a in h.activities ensures joined.activities[a] - {dev} == h.activities[a] {
    }
    assert AfterDelete(joined, dev).activities == Manned(h.activities);
    assert h.devices + {dev} - {dev} == h.devices;
  }

  /** Every device that goes is one of these. */
  predicate LosesOnly(h: Hub, after: Hub, ids: set<int>) {
    forall x :: x in h.devices && x !in after.devices ==> x in ids
  }

  lemma {:induction false} DeletesOnly(h: Hub, olds: seq<int>, delete: int -> Reply)
    ensures LosesOnly(h, DeleteAll(h, olds, delete).0, set o | o in olds)
    decreases olds
  {
    if olds != [] {
      DeletesOnly(if TookEffect(delete(olds[0])) then AfterDelete(h, olds[0]) else h, olds[1..], delete);
    }
  }

  lemma {:induction false} JoinsLoseNothing(h: Hub, acts: seq<int>, dev: int, join: int -> Reply)
    ensures JoinAll(h, acts, dev, join).0.devices == h.devices
  {
    if acts != [] { JoinsLoseNothing(h, acts[..|acts| - 1], dev, join); }
  }

  /** A replace deletes no device but the old ones and its own. */
  lemma ReplaceDeletesOnly(h: Hub, acts: seq<int>, olds: seq<int>, dev: int, r: Replies)
    ensures LosesOnly(h, ReplaceRun(h, acts, olds, dev, r).0, (set o | o in olds) + {dev})
  {
    var created := if TookEffect(r.create) then AfterCreate(h, dev) else h;
    JoinsLoseNothing(created, acts, dev, r.join);
    DeletesOnly(JoinAll(created, acts, dev, r.join).0, olds, r.delete);
  }

  lemma OldsAreEntitled(managed: seq<Managed>, c: Claim, storedCount: Option<nat>)
    requires DistinctIds(managed)
    ensures forall x :: x in Ids(MatchManaged(managed, c, storedCount).0) ==> Entitled(managed, c, storedCount, x)
  {
    var offered := MatchManaged(managed, c, storedCount).0;
    OfferedIsEntitled(managed, c, storedCount);
    forall x | x in Ids(offered) ensures Entitled(managed, c, storedCount, x) {
      var i :| 0 <= i < |offered| && Ids(offered)[i] == x;
      assert offered[i] in offered;
    }
  }

  // ------------------------------------------------------------ the driver

  /** One deploy from the matched devices on: what the hub and the store hold. */
  class Deployer {
    const session: Session
    var hub: Hub

    constructor (session: Session, hub: Hub)
      ensures this.session == session && this.hub == hub
    {
      this.session, this.hub := session, hub;
    }

    method Join(acts: seq<int>, dev: int, join: int -> Reply) returns (status: Status)
      modifies this`hub
      ensures (hub, status) == JoinAll(old(hub), acts, dev, join)
    {
      status := AllDone;
      for i := 0 to |acts|
        invariant (hub, status) == JoinAll(old(hub), acts[..i], dev, join) && !status.Stopped?
      {
        var a := acts[i];
        assert acts[..i + 1][..i] == acts[..i];
        if TookEffect(join(a)) { hub := AfterJoin(hub, a, dev); }
        match join(a) {
          case Done =>
          case Empty(_) => status := SomeEmpty;
          case Raised(_) =>
            StoppedStays(old(hub), acts, i + 1, dev, join);
            return Stopped;
        }
      }
      assert acts[..|acts|] == acts;
    }

    method Delete(olds: seq<int>, delete: int -> Reply) returns (status: Status)
      modifies this`hub
      ensures (hub, status) == DeleteAll(old(hub), olds, delete)
    {
      for i := 0 to |olds|
        invariant DeleteAll(hub, olds[i..], delete) == DeleteAll(old(hub), olds, delete)
      {
        assert olds[i..][1..] == olds[i + 1..];
        var o := olds[i];
        if TookEffect(delete(o)) { hub := AfterDelete(hub, o); }
        match delete(o) {
          case Done =>
          case Empty(_) => return SomeEmpty;
          case Raised(_) => return Stopped;
        }
      }
      status := AllDone;
    }

    method Undone(dev: int, undo: Reply) returns (outcome: Outcome)
      modifies this`hub
      ensures (hub, outcome) == Undo(old(hub), dev, undo)
    {
      if TookEffect(undo) { hub := AfterDelete(hub, dev); }
      outcome := RolledBack;
    }

    /** The replace path up to the deletion of the old devices. */
    method Replace(referenced: seq<int>, known: set<int>, olds: seq<int>, dev: int,
        r: Replies) returns (outcome: Outcome)
      modifies this`hub
      ensures (hub, outcome) == ReplaceRun(old(hub), JoinTargets(referenced, known), olds, dev, r)
    {
      var acts := JoinTargets(referenced, known);
      if TookEffect(r.create) { hub := AfterCreate(hub, dev); }
      if !r.create.Done? { return Aborted; }
      var joins := Join(acts, dev, r.join);
      match joins {
        case Stopped => return Aborted;
        case SomeEmpty =>
          outcome := Undone(dev, r.undo);
          return;
        case AllDone =>
      }
      var deletes := Delete(olds, r.delete);
      match deletes {
        case Stopped => outcome := Aborted;
        case SomeEmpty => outcome := Undone(dev, r.undo);
        case AllDone => outcome := Finished;
      }
    }

    /** With no slot configured the matched device is deleted and the deployment cleared. */
    method ClearDeployment(managed: seq<Managed>, claim: Claim, storedCount: Option<nat>, delete: int -> Reply)
        returns (ok: bool)
      requires DistinctIds(managed)
      modifies this`hub, session`stored
      ensures var (matches, ambiguous) := MatchManaged(managed, claim, storedCount);
        var (after, status) := DeleteAll(old(hub), Ids(matches), delete);
        && (ok <==> !ambiguous && status.AllDone?)
        && hub == (if ambiguous then old(hub) else after)
      ensures session.stored == if ok then Deployed([], None, "", None) else old(session.stored)
      ensures forall x :: x in old(hub.devices) && x !in hub.devices ==> Entitled(managed, claim, storedCount, x)
    {
      var (matches, ambiguous) := MatchManaged(managed, claim, storedCount);
      OldsAreEntitled(managed, claim, storedCount);
      DeletesOnly(hub, Ids(matches), delete);
      if ambiguous { return false; }
      var status := Delete(Ids(matches), delete);
      if !status.AllDone? { return false; }
      session.stored := Deployed([], None, "", None);
      ok := true;
    }

    /** `async_sync_command_config` with at least one configured slot, from the match to the
        store write.  `tail` tells whether the calls after the last hub edit (favorites,
        bindings, refreshes, remote resync) all return. */
    method SyncConfig(
        q: Request, managed: seq<Managed>, claim: Claim, storedCount: Option<nat>,
        baselineComplete: bool, rows: seq<(int, string)>, reachable: bool, first: nat -> Ack, second: nat -> Ack,
        referenced: seq<int>, known: set<int>, dev: int, r: Replies, tail: bool) returns (ok: bool)
      requires DistinctIds(managed) && Proper(q, session.stored)
      requires forall id, text :: (id, text) in rows <==>
        id in session.live.device.labels && session.live.device.labels[id] == text
      modifies this`hub, session
      ensures !ok ==> session.stored == old(session.stored)
      ensures ok ==> session.stored == Deployed(q.slots, session.stored.deviceId, q.hash, Some(q.port))
      ensures var (matches, ambiguous) := MatchManaged(managed, claim, storedCount);
        var inPlace := |matches| == 1 && baselineComplete && GatesPass(old(session.live), old(session.stored), q);
        var (after, outcome) := ReplaceRun(old(hub), JoinTargets(referenced, known), Ids(matches), dev, r);
        && (ambiguous ==> !ok && hub == old(hub) && session.live == old(session.live))
        && (!ambiguous && inPlace ==>
              hub == old(hub) && (ok ==> session.stored.deviceId == Some(session.live.id)))
        && (!ambiguous && inPlace && !NoRecordMissing(old(session.live).device, DesiredOf(q)) ==>
              !ok && session.live == old(session.live))
        && (!ambiguous && !inPlace ==>
              && session.live == old(session.live) && hub == after
              && (ok <==> outcome.Finished? && tail)
              && (ok ==> session.stored.deviceId == Some(dev)))
      ensures forall x :: x in old(hub.devices) && x !in hub.devices ==>
          x == dev || Entitled(managed, claim, storedCount, x)
    {
      var (matches, ambiguous) := MatchManaged(managed, claim, storedCount);
      OldsAreEntitled(managed, claim, storedCount);
      ReplaceDeletesOnly(hub, JoinTargets(referenced, known), Ids(matches), dev, r);
      if ambiguous { return false; }
      if |matches| == 1 {
        var outcome, cut := session.TryInplace(q, baselineComplete, rows, reachable, first, second, tail);
        match outcome {
          case Applied => return true;
          case Failed => return false;
          case Declined =>
        }
      }
      var outcome := Replace(referenced, known, Ids(matches), dev, r);
      if !outcome.Finished? || !tail { return false; }
      session.stored := Deployed(q.slots, Some(dev), q.hash, Some(q.port));
      ok := true;
    }
  }

  function Ids(managed: seq<Managed>): (r: seq<int>)
    ensures |r| == |managed|
    ensures forall i :: 0 <= i < |r| ==> r[i] == managed[i].id
  {
    seq(|managed|, i requires 0 <= i < |managed| => managed[i].id)
  }

  /** An exception ends the loop: later activities are never tried. */
  lemma {:induction false} StoppedStays(h: Hub, acts: seq<int>, k: nat, dev: int, join: int -> Reply)
    requires k <= |acts| && JoinAll(h, acts[..k], dev, join).1.Stopped?
    ensures JoinAll(h, acts, dev, join) == JoinAll(h, acts[..k], dev, join)
  {
    if k == |acts| {
      assert acts[..k] == acts;
    } else {
      var n := |acts| - 1;
      assert acts[..n][..k] == acts[..k];
      StoppedStays(h, acts[..n], k, dev, join);
    }
  }
}
