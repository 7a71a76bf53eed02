/** What a button press on the hub runs: the callback carries a hub device id and a slot
    index, both fixed when the record was deployed. */
module Callbacks {
  import opened Text
  import opened Slots
  import opened Records
  import opened WifiEvents
  import opened SlotReuse
  import opened Ownership
  import opened Store

  // -------------------------------------------------------------- lookup

  datatype Hits = Nobody | One(at: nat) | Several

  /** How many entries of a list satisfy a test, and which if it is one. */
  function HitsOf<T>(rs: seq<T>, test: T -> bool): (h: Hits)
    ensures h.One? ==> h.at < |rs|
  {
    if rs == [] then Nobody
    else
      var n := |rs| - 1;
      var front := HitsOf(rs[..n], test);
      if !test(rs[n]) then front else if front.Nobody? then One(n) else Several
  }

  lemma {:induction false} HitsOfIs<T>(rs: seq<T>, test: T -> bool)
    ensures HitsOf(rs, test).Nobody? <==> forall i :: 0 <= i < |rs| ==> !test(rs[i])
    ensures forall i: nat :: HitsOf(rs, test) == One(i) <==>
      (i < |rs| && test(rs[i]) && forall j :: 0 <= j < |rs| && j != i ==> !test(rs[j]))
  {
    if rs != [] {
      var n := |rs| - 1;
      HitsOfIs(rs[..n], test);
      assert forall i :: 0 <= i < n ==> rs[..n][i] == rs[i];
      if HitsOf(rs[..n], test).Several? {
        forall i: nat | i < |rs| && test(rs[i]) ensures exists j :: 0 <= j < |rs| && j != i && test(rs[j]) {
          if i < n {
            assert HitsOf(rs[..n], test) != One(i);
          } else {
            assert exists j :: 0 <= j < n && test(rs[..n][j]);
          }
        }
      }
    }
  }

  function OnDevice(id: int): DeviceRecord -> bool {
    (r: DeviceRecord) => r.deviceId == Some(id)
  }

  /** The record behind a hub device id: the only one deployed to it, or the only record of
      all when it was never given an id. */
  function RecordOf(rs: seq<DeviceRecord>, id: int): (at: Option<nat>)
    ensures at.Some? ==> at.value < |rs|
  {
    match HitsOf(rs, OnDevice(id))
    case One(i) => Some(i)
    case Several => None
    case Nobody => if |rs| == 1 && rs[0].deviceId.None? then Some(0) else None
  }

  /** `get_deployed_wifi_commands` by device id. */
  function DeployedFor(rs: seq<DeviceRecord>, id: int): seq<Slot> {
    var at := RecordOf(rs, id);
    if at.Some? then rs[at.value].deployed else []
  }

  /** `get_live_wifi_command_slot` by device id; a negative id is handed on as none. */
  function LiveSlot(rs: seq<DeviceRecord>, id: int, index: nat): Option<Slot> {
    var at := if id >= 0 then RecordOf(rs, id) else None;
    if at.None? then None
    else
      var r := rs[at.value];
      var slots := Renormalize(r.commands, RecordSlotCount(r.key, Some(r.slotCount)), IsEventsKey(r.key));
      if index < |slots| then Some(slots[index]) else None
  }

  /** The slot a callback runs: an index the snapshot covers resolves to the staged slot, so
      that actions can be edited without a deploy; the deployed entry is the fallback. */
  function Resolve(rs: seq<DeviceRecord>, id: int, index: nat): Option<Slot> {
    var deployed := DeployedFor(rs, id);
    if index >= |deployed| then None
    else
      var live := LiveSlot(rs, id, index);
      if live.Some? then live else Some(deployed[index])
  }

  /** The action a press runs; a long press counts only on a slot that enables it. */
  function ActionFor(s: Slot, long: bool): Option<Action> {
    if !long then Some(s.action) else if s.longPress then Some(s.longAction) else None
  }

  // -------------------------------------------------------- exact lookup

  predicate OnlyOwner(rs: seq<DeviceRecord>, i: nat, id: int) {
    && i < |rs| && rs[i].deviceId == Some(id)
    && forall j :: 0 <= j < |rs| && j != i ==> rs[j].deviceId != Some(id)
  }

  /** A device id leads to a record if and only if that record alone is deployed to it, or is
      the only record and was never deployed under an id. */
  lemma RecordOfIff(rs: seq<DeviceRecord>, id: int, i: nat)
    ensures RecordOf(rs, id) == Some(i) <==>
      (OnlyOwner(rs, i, id) || (|rs| == 1 && i == 0 && rs[0].deviceId.None?))
  {
    HitsOfIs(rs, OnDevice(id));
    if OnlyOwner(rs, i, id) { assert HitsOf(rs, OnDevice(id)) == One(i); }
  }

  lemma LiveSlotIsStaged(rs: seq<DeviceRecord>, i: nat, id: int, index: nat)
    requires i < |rs| && WellFormed(rs[i]) && RecordOf(rs, id) == Some(i) && id >= 0
    ensures LiveSlot(rs, id, index) == if index < |rs[i].commands| then Some(rs[i].commands[index]) else None
  {
    NormalTablesAreTheFixedPoints(rs[i].commands, IsEventsKey(rs[i].key));
  }

  /** A callback of the record deployed to a device runs exactly the staged slot of its
      index, and nothing outside the snapshot. */
  lemma CallbackRunsStagedSlot(rs: seq<DeviceRecord>, i: nat, id: int, index: nat)
    requires OnlyOwner(rs, i, id) && id >= 0 && WellFormed(rs[i])
    requires |rs[i].deployed| <= |rs[i].commands|
    ensures Resolve(rs, id, index) == if index < |rs[i].deployed| then Some(rs[i].commands[index]) else None
  {
    RecordOfIff(rs, id, i);
    LiveSlotIsStaged(rs, i, id, index);
  }

  /** Where one record answers for the id, a callback runs what is staged at its index or, for an
      index the staged table lacks or a negative id, what is deployed there; where none does, or
      beyond the snapshot, it runs nothing. */
  lemma CallbackResolves(rs: seq<DeviceRecord>, i: nat, id: int, index: nat)
    requires forall j :: 0 <= j < |rs| ==> WellFormed(rs[j])
    ensures OnlyOwner(rs, i, id) || (|rs| == 1 && i == 0 && rs[0].deviceId.None?) ==>
      Resolve(rs, id, index) ==
        if index >= |rs[i].deployed| then None
        else if id >= 0 && index < |rs[i].commands| then Some(rs[i].commands[index])
        else Some(rs[i].deployed[index])
    ensures (forall j: nat :: !OnlyOwner(rs, j, id)) && !(|rs| == 1 && rs[0].deviceId.None?) ==>
      Resolve(rs, id, index) == None
  {
    forall j: nat
      ensures RecordOf(rs, id) == Some(j) <==>
        (OnlyOwner(rs, j, id) || (|rs| == 1 && j == 0 && rs[0].deviceId.None?))
    {
      RecordOfIff(rs, id, j);
    }
    if RecordOf(rs, id) == Some(i) && id >= 0 { LiveSlotIsStaged(rs, i, id, index); }
  }

  /** After an ownership reconcile every record that holds a device id owns it alone, so its
      callbacks reach it. */
  lemma ReconciledCallbacksResolve(digest: Digest, managed: seq<Managed>, rs: seq<DeviceRecord>, port: int,
      i: nat, id: int)
    requires Distinct(KeysOf(rs)) && DistinctIds(managed) && i < |rs|
    ensures var after := WriteRecords(rs, Assign(managed, Views(digest, rs, port)));
      after[i].deviceId == Some(id) ==> RecordOf(after, id) == Some(i)
  {
    var after := WriteRecords(rs, Assign(managed, Views(digest, rs, port)));
    if after[i].deviceId == Some(id) {
      forall j | 0 <= j < |after| && j != i ensures after[j].deviceId != Some(id) {
        if j < i {
          StoreOwnsEachDeviceOnce(digest, managed, rs, port, j, i);
        } else {
          StoreOwnsEachDeviceOnce(digest, managed, rs, port, i, j);
        }
      }
      RecordOfIff(after, id, i);
    }
  }

  /** Whatever happened since the last deploy, a callback deployed for an event runs that
      event's slot or a free one, never another event's. */
  lemma CallbackNeverCrossesEvents(s: Tracked, rs: seq<DeviceRecord>, i: nat, id: int, k: nat)
    requires Inv(s) && SafeAt(s.staged, s.live, k) && OnlyOwner(rs, i, id) && id >= 0 && rs[i] == s.r
    requires k < |s.live| && s.live[k].Some?
    ensures var slot := Resolve(rs, id, k);
      slot.Some? && (IsDefault(slot.value, k) || s.staged[k] == s.live[k])
  {
    CallbackRunsStagedSlot(rs, i, id, k);
    assert Fits(Tables(s.r.commands, s.r.deployed), s.staged, s.live);
    assert s.staged[k].None? <==> IsDefault(s.r.commands[k], k);
  }

  /** An action reaches the press it is set for and no other. */
  lemma ActionForEdited(s: Slot, long: bool, action: RawAction)
    ensures var edited := PutAction(s, long, action);
      && ActionFor(edited, long) == (if long && !s.longPress then None else Some(NormalizeAction(action)))
      && ActionFor(edited, !long) == ActionFor(s, !long)
  {
  }

  lemma EditedSlot(r: DeviceRecord, k: nat, long: bool, action: RawAction)
    requires Configured(r.commands, k)
    ensures SetAction(r, k, long, action) == r.(commands := r.commands[k := PutAction(r.commands[k], long, action)])
  {
  }

  lemma ActionKeepsWellFormed(digest: Digest, r: DeviceRecord, k: nat, long: bool, action: RawAction)
    requires WellFormed(r) && IsEventsKey(r.key)
    ensures WellFormed(SetAction(r, k, long, action))
  {
    EndpointKeepsWellFormed(digest, r, OpSetAction(k, long, action));
  }

  /** A callback after its record was rewritten in place. */
  lemma RewrittenSlotRuns(rs: seq<DeviceRecord>, i: nat, r: DeviceRecord, id: int, k: nat)
    requires OnlyOwner(rs, i, id) && r.deviceId == Some(id) && id >= 0 && WellFormed(r)
    requires k < |r.deployed| <= |r.commands|
    ensures Resolve(rs[i := r], id, k) == Some(r.commands[k])
  {
    CallbackRunsStagedSlot(rs[i := r], i, id, k);
  }

  /** Setting an event's action is enough: the next press of its deployed callback runs it,
      a long press if the slot enables long presses. */
  lemma ActionTakesEffect(digest: Digest, rs: seq<DeviceRecord>, i: nat, id: int, k: nat, long: bool, action: RawAction)
    requires OnlyOwner(rs, i, id) && id >= 0 && WellFormed(rs[i]) && IsEventsKey(rs[i].key)
    requires k < |rs[i].deployed| <= |rs[i].commands| && Configured(rs[i].commands, k)
    ensures var slot := Resolve(rs[i := SetAction(rs[i], k, long, action)], id, k);
      && slot.Some?
      && ActionFor(slot.value, long)
          == (if long && !rs[i].commands[k].longPress then None else Some(NormalizeAction(action)))
      && ActionFor(slot.value, !long) == ActionFor(rs[i].commands[k], !long)
  {
    var r := SetAction(rs[i], k, long, action);
    ActionKeepsWellFormed(digest, rs[i], k, long, action);
    EditedSlot(rs[i], k, long, action);
    RewrittenSlotRuns(rs, i, r, id, k);
    ActionForEdited(rs[i].commands[k], long, action);
  }

  lemma FlaggedSlot(r: DeviceRecord, k: nat, enabled: bool)
    requires Configured(r.commands, k)
    ensures SetLongPress(r, k, enabled) == r.(commands := r.commands[k := r.commands[k].(longPress := enabled)])
  {
  }

  lemma FlagKeepsWellFormed(digest: Digest, r: DeviceRecord, k: nat, enabled: bool)
    requires WellFormed(r) && IsEventsKey(r.key)
    ensures WellFormed(SetLongPress(r, k, enabled))
  {
    EndpointKeepsWellFormed(digest, r, OpSetLongPress(k, enabled));
  }

  lemma ActionForFlagged(s: Slot, enabled: bool)
    ensures var flagged := s.(longPress := enabled);
      && ActionFor(flagged, true) == (if enabled then Some(s.longAction) else None)
      && ActionFor(flagged, false) == Some(s.action)
  {
  }

  /** Nor does the long-press flag need a deploy: long presses run from now on, or no longer. */
  lemma LongPressTakesEffect(digest: Digest, rs: seq<DeviceRecord>, i: nat, id: int, k: nat, enabled: bool)
    requires OnlyOwner(rs, i, id) && id >= 0 && WellFormed(rs[i]) && IsEventsKey(rs[i].key)
    requires k < |rs[i].deployed| <= |rs[i].commands| && Configured(rs[i].commands, k)
    ensures var (slot, was) := (Resolve(rs[i := SetLongPress(rs[i], k, enabled)], id, k), rs[i].commands[k]);
      && slot.Some?
      && ActionFor(slot.value, true) == (if enabled then Some(was.longAction) else None)
      && ActionFor(slot.value, false) == Some(was.action)
  {
    var r := SetLongPress(rs[i], k, enabled);
    FlagKeepsWellFormed(digest, rs[i], k, enabled);
    FlaggedSlot(rs[i], k, enabled);
    RewrittenSlotRuns(rs, i, r, id, k);
    ActionForFlagged(rs[i].commands[k], enabled);
  }
}
