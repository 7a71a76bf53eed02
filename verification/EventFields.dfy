/** What each Wifi Events endpoint, deploy and reconcile does to the record, slot field by slot
    field. */
module EventFields {
  import opened Text
  import opened Slots
  import opened Records
  import opened SlotReads
  import opened WifiEvents
  import opened WifiEventLaws

  // --------------------------------------------------------- one slot only

  /** Only staged slot i differs. */
  predicate OnlySlot(r: DeviceRecord, after: DeviceRecord, i: nat) {
    && after == r.(commands := after.commands) && |after.commands| == |r.commands|
    && forall j :: 0 <= j < |r.commands| && j != i ==> after.commands[j] == r.commands[j]
  }

  predicate IsEvent(r: DeviceRecord, i: int) {
    0 <= i < |r.commands| && !IsFreshSlot(r.commands[i], i)
  }

  lemma FreshIsDefault(s: Slot, i: nat)
    ensures IsFreshSlot(s, i) <==> IsDefault(s, i)
  {
  }

  /** The slot may take a new event: nobody configured it, and the snapshot's entry has no name
      but the slot's placeholder. */
  predicate Open(r: DeviceRecord, i: nat) {
    && i < |r.commands| && IsFreshSlot(r.commands[i], i)
    && (i < |r.deployed| ==> Strip(r.deployed[i].name) in ["", "Command " + Decimal(i + 1)])
  }

  /** The slot is an event under the same name, whatever its case and spacing. */
  predicate Clashes(s: Slot, i: nat, name: string) {
    !IsFreshSlot(s, i) && CommandNameKey(s.name) == CommandNameKey(name)
  }

  /** No event goes by the name already. */
  predicate Usable(r: DeviceRecord, name: string) {
    && name != ""
    && forall i :: 0 <= i < |r.commands| ==> !Clashes(r.commands[i], i, name)
  }

  predicate FirstOpen(r: DeviceRecord, k: nat) {
    Open(r, k) && forall i :: 0 <= i < k ==> !Open(r, i)
  }

  /** A pure callback under the name: no favorite, no button, no input, no activities. */
  predicate IsNewEvent(s: Slot, name: string) {
    && s.name == name && !s.favorite && s.hardButton == "" && !s.longPress && s.inputActivity == ""
    && s.activities == [] && s.action == map["action" := "perform-action"]
    && s.longAction == map["action" := "perform-action"]
  }

  lemma OpenIsAvailable(r: DeviceRecord, i: nat)
    requires i < |r.commands|
    ensures Open(r, i) <==> Available(r.commands, r.deployed, i)
  {
    FreshIsDefault(r.commands[i], i);
  }

  lemma UsableIs(r: DeviceRecord, name: string)
    ensures Usable(r, name) <==> name != "" && forall i :: 0 <= i < |r.commands| ==> !Taken(r.commands, i, name)
  {
    forall i | 0 <= i < |r.commands| ensures Taken(r.commands, i, name) <==> Clashes(r.commands[i], i, name) {
      FreshIsDefault(r.commands[i], i);
    }
  }

  lemma FirstOpenIs(r: DeviceRecord, k: nat)
    ensures FirstOpen(r, k) <==>
      && k < |r.commands| && Available(r.commands, r.deployed, k)
      && forall i :: 0 <= i < k ==> !Available(r.commands, r.deployed, i)
  {
    forall i | 0 <= i < |r.commands| ensures Open(r, i) <==> Available(r.commands, r.deployed, i) {
      OpenIsAvailable(r, i);
    }
  }

  lemma AnswerIs(r: DeviceRecord, rawName: string, k: nat)
    ensures AllocateAt(r.commands, r.deployed, rawName) == Allocated(k)
       <==> Usable(r, Strip(rawName)) && FirstOpen(r, k)
  {
    var answer := AllocateAt(r.commands, r.deployed, rawName);
    UsableIs(r, Strip(rawName));
    FirstOpenIs(r, k);
    if Usable(r, Strip(rawName)) && FirstOpen(r, k) {
      assert RightAnswer(r.commands, r.deployed, rawName, Allocated(k));
      RightAnswerIsUnique(r.commands, r.deployed, rawName, answer, Allocated(k));
    }
  }

  /** An allocation puts a new event into the first open slot under a usable name, */
  lemma AllocationWrites(r: DeviceRecord, rawName: string, k: nat)
    requires Usable(r, Strip(rawName)) && FirstOpen(r, k)
    ensures var after := Allocate(r, rawName);
      OnlySlot(r, after, k) && IsNewEvent(after.commands[k], Strip(rawName))
  {
    AnswerIs(r, rawName, k);
  }

  /** and does nothing without one. */
  lemma AllocationRefuses(r: DeviceRecord, rawName: string)
    requires !Usable(r, Strip(rawName)) || forall k: nat :: !FirstOpen(r, k)
    ensures Allocate(r, rawName) == r
  {
    var answer := AllocateAt(r.commands, r.deployed, rawName);
    if answer.Allocated? { AnswerIs(r, rawName, answer.index); }
  }

  /** Freeing an event empties its slot in place. */
  lemma ResetWrites(r: DeviceRecord, i: int)
    ensures IsEvent(r, i) ==> OnlySlot(r, Reset(r, i), i) && IsFreshSlot(Reset(r, i).commands[i], i)
    ensures !IsEvent(r, i) ==> Reset(r, i) == r
  {
    if 0 <= i < |r.commands| { FreshIsDefault(r.commands[i], i); }
  }

  /** An action is written into the press it is for. */
  lemma SetActionWrites(r: DeviceRecord, i: int, long: bool, raw: RawAction)
    ensures var after := SetAction(r, i, long, raw);
      && (IsEvent(r, i) ==>
            && OnlySlot(r, after, i)
            && var (was, now) := (r.commands[i], after.commands[i]);
            && now == was.(action := now.action, longAction := now.longAction)
            && (if long then now.action == was.action && IsAction(now.longAction, raw)
                else now.longAction == was.longAction && IsAction(now.action, raw)))
      && (!IsEvent(r, i) ==> after == r)
  {
    if 0 <= i < |r.commands| { FreshIsDefault(r.commands[i], i); }
    ActionReads(raw);
  }

  /** The long-press flag is written and nothing else. */
  lemma SetLongPressWrites(r: DeviceRecord, i: int, enabled: bool)
    ensures var after := SetLongPress(r, i, enabled);
      && (IsEvent(r, i) ==>
            OnlySlot(r, after, i) && after.commands[i] == r.commands[i].(longPress := enabled))
      && (!IsEvent(r, i) ==> after == r)
  {
    if 0 <= i < |r.commands| { FreshIsDefault(r.commands[i], i); }
  }

  // ----------------------------------------------------- edits on the hub

  /** Staged slot i after one edit: a rename names an event; a removed short record empties the
      slot; a removed long one takes the long press and its action away. */
  ghost predicate StagedAfter(was: Slot, now: Slot, i: nat, n: nat, e: Edit) {
    match e
    case Rename(id, name) =>
      now == if id == i + 1 && Strip(name) != "" && !IsFreshSlot(was, i) then was.(name := Strip(name)) else was
    case Remove(id) =>
      if id == i + 1 then IsFreshSlot(now, i)
      else if id == i + 1 + n && was.longPress
      then now == was.(longPress := false, longAction := map["action" := "perform-action"])
      else now == was
  }

  /** Deployed entry i after one edit: it takes the event's new name, or its placeholder back. */
  predicate DeployedAfter(was: Slot, now: Slot, staged: Slot, i: nat, e: Edit) {
    match e
    case Rename(id, name) =>
      now == if id == i + 1 && Strip(name) != "" && !IsFreshSlot(staged, i) then was.(name := Strip(name)) else was
    case Remove(id) => now == if id == i + 1 then was.(name := "Command " + Decimal(i + 1)) else was
  }

  /** One edit, slot by slot on both sides. */
  lemma EditWrites(t: Tables, e: Edit, i: nat)
    requires i < |t.commands|
    ensures var after := ApplyEdit(t, e);
      && |after.commands| == |t.commands| && |after.deployed| == |t.deployed|
      && StagedAfter(t.commands[i], after.commands[i], i, |t.commands|, e)
      && (i < |t.deployed| ==> DeployedAfter(t.deployed[i], after.deployed[i], t.commands[i], i, e))
  {
    FreshIsDefault(t.commands[i], i);
  }

  /** Entries beyond the table are never touched. */
  lemma EditSparesBeyond(t: Tables, e: Edit, i: nat)
    requires |t.commands| <= i < |t.deployed|
    ensures ApplyEdit(t, e).deployed[i] == t.deployed[i]
  {
  }

  /** A reconcile changes nothing but the two tables and, when it changed them and a hash is
      deployed, the hash, which is then the one the record has. */
  lemma FollowWrites(digest: Digest, r: DeviceRecord, es: seq<Edit>, port: int)
    requires EventsValid(r)
    ensures var (after, t) := (Follow(digest, r, es, port), Tables(r.commands, r.deployed));
      && Tables(after.commands, after.deployed) == ApplyEdits(t, es)
      && after == r.(commands := after.commands, deployed := after.deployed, hash := after.hash)
      && after.hash == if r.hash != "" && Changes(t, es) then PayloadHash(digest, after, port) else r.hash
  {
    if Changes(Tables(r.commands, r.deployed), es) {
      FollowIsValid(digest, r, es, port);
      FollowSettlesHash(digest, r, es, port);
    } else {
      NoChangeIsIdentity(Tables(r.commands, r.deployed), es);
    }
  }

  /** So a rename on the hub makes a deployed record read in sync even while another of its events
      still waits to be deployed. */
  lemma FollowHidesPending(digest: Digest, r: DeviceRecord, i: nat, name: string, j: nat, port: int)
    requires EventsValid(r) && r.hash != "" && IsEvent(r, i) && Strip(name) != "" && Strip(name) != r.commands[i].name
    requires j != i && j < |r.commands| && j < |r.deployed| && r.commands[j] != r.deployed[j]
    ensures var after := Follow(digest, r, [Rename(i + 1, name)], port);
      InSync(digest, after, port) && after.commands[j] == r.commands[j] && after.deployed[j] == r.deployed[j]
  {
    var t, e := Tables(r.commands, r.deployed), Rename(i + 1, name);
    EditWrites(t, e, i);
    EditWrites(t, e, j);
    assert ApplyEdit(t, e).commands[i] != t.commands[i];
    OneEdit(t, e);
    FollowWrites(digest, r, [e], port);
  }

  lemma OneEdit(t: Tables, e: Edit)
    ensures ApplyEdits(t, [e]) == ApplyEdit(t, e)
    ensures Changes(t, [e]) <==> ApplyEdit(t, e) != t
  {
    assert [e][1..] == [];
  }

  // --------------------------------------------------- deploys and clearing

  predicate NoEvents(r: DeviceRecord) { forall i :: 0 <= i < |r.commands| ==> IsFreshSlot(r.commands[i], i) }

  /** A deploy with events makes the staged table the snapshot; without any it clears the
      deployed fields. */
  lemma SyncWrites(digest: Digest, r: DeviceRecord, id: int, port: int)
    requires EventsValid(r)
    ensures Sync(digest, r, id, port)
         == if NoEvents(r) then r.(deployed := [], deviceId := None, hash := "", port := None)
            else r.(deployed := r.commands, deviceId := Some(id), hash := PayloadHash(digest, r, port),
                    port := Some(port))
  {
    NoEventsIff(r);
  }

  lemma NoEventsIff(r: DeviceRecord)
    requires EventsValid(r)
    ensures CountTrue(ConfiguredFlags(r.commands)) == 0 <==> NoEvents(r)
  {
    forall i | 0 <= i < |r.commands| ensures IsFreshSlot(r.commands[i], i) <==> !ListedFlags(r.commands)[i] {
      FreshIsDefault(r.commands[i], i);
    }
    ListingHasConfiguredLength(r);
    NothingCounted(ListedFlags(r.commands));
  }

  lemma {:induction false} NothingCounted(flags: seq<bool>)
    ensures CountTrue(flags) == 0 <==> forall i :: 0 <= i < |flags| ==> !flags[i]
  {
    if flags != [] { NothingCounted(flags[..|flags| - 1]); }
  }
}
