/** The reserved Wifi Events record: slot allocation, in-place edits and the two
    reconciles that make the store follow the hub, as steps on one record. */
module WifiEvents {
  import opened Text
  import opened Slots
  import opened Records

  predicate IsEventsRecord(r: DeviceRecord) {
    WellFormed(r) && IsEventsKey(r.key)
  }

  const EmptyEventsRecord: DeviceRecord :=
    DefaultRecord(WIFI_EVENTS_DEVICE_KEY, WIFI_EVENTS_DEVICE_NAME, None)

  /** `_wifi_events_slots`: the table every endpoint works on. */
  function EventSlots(r: DeviceRecord): seq<Slot> {
    Renormalize(r.commands, RecordSlotCount(r.key, Some(r.slotCount)), true)
  }

  lemma EventSlotsAreTheCommands(r: DeviceRecord)
    requires IsEventsRecord(r)
    ensures EventSlots(r) == r.commands
  {
    NormalTablesAreTheFixedPoints(r.commands, true);
  }

  // --------------------------------------------------------- allocation

  datatype AllocError = EmptyName | DuplicateName | OnlyPendingDeletes | EventsFull
  datatype AllocResult = Allocated(index: nat) | Refused(error: AllocError)

  function NewEventSlot(name: string): Slot {
    Slot(name, false, "", false, "", [], DEFAULT_ACTION, DEFAULT_ACTION)
  }

  /** The slot's last deployed record still carries a real name. */
  predicate PendingDelete(deployed: seq<Slot>, i: nat) {
    i < |deployed| && Strip(deployed[i].name) != "" && Strip(deployed[i].name) != PlaceholderName(i)
  }

  predicate Available(commands: seq<Slot>, deployed: seq<Slot>, i: nat)
    requires i < |commands|
  {
    IsDefault(commands[i], i) && !PendingDelete(deployed, i)
  }

  predicate Taken(commands: seq<Slot>, i: nat, name: string)
    requires i < |commands|
  {
    !IsDefault(commands[i], i) && CommandNameKey(commands[i].name) == CommandNameKey(name)
  }

  /** What an allocation must answer, stated over the whole table. */
  predicate RightAnswer(commands: seq<Slot>, deployed: seq<Slot>, rawName: string, answer: AllocResult) {
    var name := Strip(rawName);
    var taken := exists i :: 0 <= i < |commands| && Taken(commands, i, name);
    var none := forall i :: 0 <= i < |commands| ==> !Available(commands, deployed, i);
    var free := exists i :: 0 <= i < |commands| && IsDefault(commands[i], i);
    match answer
    case Refused(EmptyName) => name == ""
    case Refused(DuplicateName) => name != "" && taken
    case Refused(OnlyPendingDeletes) => name != "" && !taken && none && free
    case Refused(EventsFull) => name != "" && !taken && !free
    case Allocated(k) =>
      && name != "" && !taken
      && k < |commands| && Available(commands, deployed, k)
      && forall i :: 0 <= i < k ==> !Available(commands, deployed, i)
  }

  function FirstAvailable(commands: seq<Slot>, deployed: seq<Slot>, from: nat): (r: Option<nat>)
    requires from <= |commands|
    ensures r.Some? ==> from <= r.value < |commands| && Available(commands, deployed, r.value)
                        && forall i :: from <= i < r.value ==> !Available(commands, deployed, i)
    ensures r.None? ==> forall i :: from <= i < |commands| ==> !Available(commands, deployed, i)
    decreases |commands| - from
  {
    if from == |commands| then None
    else if Available(commands, deployed, from) then Some(from)
    else FirstAvailable(commands, deployed, from + 1)
  }

  function AllocateAt(commands: seq<Slot>, deployed: seq<Slot>, rawName: string): (r: AllocResult)
    ensures RightAnswer(commands, deployed, rawName, r)
  {
    var name := Strip(rawName);
    if name == "" then Refused(EmptyName)
    else if exists i :: 0 <= i < |commands| && Taken(commands, i, name) then Refused(DuplicateName)
    else match FirstAvailable(commands, deployed, 0)
      case Some(k) => Allocated(k)
      case None =>
        if exists i :: 0 <= i < |commands| && IsDefault(commands[i], i)
        then Refused(OnlyPendingDeletes) else Refused(EventsFull)
  }

  /** There is only one right answer. */
  lemma RightAnswerIsUnique(commands: seq<Slot>, deployed: seq<Slot>, rawName: string, a: AllocResult, b: AllocResult)
    requires RightAnswer(commands, deployed, rawName, a)
    requires RightAnswer(commands, deployed, rawName, b)
    ensures a == b
  {
  }

  /** What the scan asks of each slot: is it free, does its old record await deletion, does
      its event carry the wanted name. */
  datatype Tests = Tests(free: nat -> bool, pending: nat -> bool, named: nat -> bool)

  function TestsFor(commands: seq<Slot>, deployed: seq<Slot>, name: string): Tests {
    Tests((i: nat) => i < |commands| && IsDefault(commands[i], i),
          (i: nat) => PendingDelete(deployed, i),
          (i: nat) => i < |commands| && CommandNameKey(commands[i].name) == CommandNameKey(name))
  }

  /** The right answer of a scan over n slots, in terms of the tests. */
  predicate RightScan(n: nat, t: Tests, answer: AllocResult) {
    var taken := exists i :: 0 <= i < n && !t.free(i) && t.named(i);
    match answer
    case Refused(EmptyName) => false
    case Refused(DuplicateName) => taken
    case Refused(OnlyPendingDeletes) =>
      !taken && (forall i :: 0 <= i < n && t.free(i) ==> t.pending(i)) && exists i :: 0 <= i < n && t.free(i)
    case Refused(EventsFull) => !taken && forall i :: 0 <= i < n ==> !t.free(i)
    case Allocated(k) =>
      && !taken && k < n && t.free(k) && !t.pending(k)
      && forall i :: 0 <= i < k && t.free(i) ==> t.pending(i)
  }

  /** The loop of `async_allocate_wifi_event`. */
  method Scan(n: nat, t: Tests) returns (answer: AllocResult)
    ensures RightScan(n, t, answer)
  {
    var freeIndex: Option<nat> := None;
    var blockedPendingDelete := false;
    for idx := 0 to n
      invariant forall k :: 0 <= k < idx && !t.free(k) ==> !t.named(k)
      invariant freeIndex.Some? ==> freeIndex.value < idx && t.free(freeIndex.value) && !t.pending(freeIndex.value)
      invariant forall k :: 0 <= k < idx && (freeIndex.Some? ==> k < freeIndex.value) && t.free(k) ==> t.pending(k)
      invariant freeIndex.None? ==> (blockedPendingDelete <==> exists k :: 0 <= k < idx && t.free(k))
    {
      if t.free(idx) {
        if freeIndex.None? {
          if t.pending(idx) {
            blockedPendingDelete := true;
            continue;
          }
          freeIndex := Some(idx);
        }
        continue;
      }
      if t.named(idx) { return Refused(DuplicateName); }
    }
    answer := match freeIndex
      case Some(k) => Allocated(k)
      case None => Refused(if blockedPendingDelete then OnlyPendingDeletes else EventsFull);
  }

  lemma ScanIsRight(commands: seq<Slot>, deployed: seq<Slot>, rawName: string, answer: AllocResult)
    requires Strip(rawName) != ""
    requires RightScan(|commands|, TestsFor(commands, deployed, Strip(rawName)), answer)
    ensures RightAnswer(commands, deployed, rawName, answer)
  {
    var t := TestsFor(commands, deployed, Strip(rawName));
    forall i | 0 <= i < |commands|
      ensures Taken(commands, i, Strip(rawName)) <==> !t.free(i) && t.named(i)
      ensures Available(commands, deployed, i) <==> t.free(i) && !t.pending(i)
      ensures IsDefault(commands[i], i) <==> t.free(i)
    {
    }
  }

  method ScanForSlot(commands: seq<Slot>, deployed: seq<Slot>, rawName: string) returns (answer: AllocResult)
    ensures RightAnswer(commands, deployed, rawName, answer)
  {
    var name := Strip(rawName);
    if name == "" { return Refused(EmptyName); }
    answer := Scan(|commands|, TestsFor(commands, deployed, name));
    ScanIsRight(commands, deployed, rawName, answer);
  }

  function Allocate(r: DeviceRecord, rawName: string): DeviceRecord {
    match AllocateAt(r.commands, r.deployed, rawName)
    case Allocated(k) => r.(commands := r.commands[k := NewEventSlot(Strip(rawName))])
    case Refused(_) => r
  }

  // -------------------------------------------------------- slot edits

  predicate Configured(commands: seq<Slot>, i: int) {
    0 <= i < |commands| && !IsDefault(commands[i], i)
  }

  function Reset(r: DeviceRecord, i: int): DeviceRecord {
    if Configured(r.commands, i) then r.(commands := r.commands[i := DefaultSlot(i)]) else r
  }

  function PutAction(s: Slot, long: bool, raw: RawAction): Slot {
    if long then s.(longAction := NormalizeAction(raw)) else s.(action := NormalizeAction(raw))
  }

  function SetAction(r: DeviceRecord, i: int, long: bool, raw: RawAction): DeviceRecord {
    if Configured(r.commands, i)
    then r.(commands := r.commands[i := PutAction(r.commands[i], long, raw)]) else r
  }

  function SetLongPress(r: DeviceRecord, i: int, enabled: bool): DeviceRecord {
    if Configured(r.commands, i)
    then r.(commands := r.commands[i := r.commands[i].(longPress := enabled)]) else r
  }

  // -------------------------------------------- store-follows-hub edits

  /** Renames carry any hub command id; only short ids of configured slots matter.
      Removals carry short ids (free the slot) or long ids (clear the flag). */
  datatype Edit = Rename(id: int, name: string) | Remove(id: int)

  datatype Tables = Tables(commands: seq<Slot>, deployed: seq<Slot>)

  function SetName(slots: seq<Slot>, i: nat, name: string): (r: seq<Slot>)
    ensures |r| == |slots|
  {
    if i < |slots| then slots[i := slots[i].(name := name)] else slots
  }

  function ClearLongPress(s: Slot): Slot {
    if s.longPress then s.(longPress := false, longAction := DEFAULT_ACTION) else s
  }

  function ApplyEdit(t: Tables, e: Edit): (r: Tables)
    ensures |r.commands| == |t.commands| && |r.deployed| == |t.deployed|
  {
    var n := |t.commands|;
    match e
    case Rename(id, rawName) =>
      var name := Strip(rawName);
      if name == "" || !(1 <= id <= n) || IsDefault(t.commands[id - 1], id - 1) then t
      else Tables(SetName(t.commands, id - 1, name), SetName(t.deployed, id - 1, name))
    case Remove(id) =>
      if 1 <= id <= n then
        Tables(t.commands[id - 1 := DefaultSlot(id - 1)],
               SetName(t.deployed, id - 1, PlaceholderName(id - 1)))
      else if n < id <= 2 * n then
        Tables(t.commands[id - n - 1 := ClearLongPress(t.commands[id - n - 1])], t.deployed)
      else t
  }

  function ApplyEdits(t: Tables, es: seq<Edit>): (r: Tables)
    ensures |r.commands| == |t.commands| && |r.deployed| == |t.deployed|
    decreases es
  {
    if es == [] then t else ApplyEdits(ApplyEdit(t, es[0]), es[1..])
  }

  /** Some edit of the list changed something: the `changed` flag of the loops. */
  predicate Changes(t: Tables, es: seq<Edit>)
    decreases es
  {
    es != [] && (ApplyEdit(t, es[0]) != t || Changes(ApplyEdit(t, es[0]), es[1..]))
  }

  function Follow(digest: Digest, r: DeviceRecord, es: seq<Edit>, port: int): DeviceRecord {
    var t := Tables(r.commands, r.deployed);
    if !Changes(t, es) then r
    else
      var after := ApplyEdits(t, es);
      r.(commands := after.commands, deployed := after.deployed,
         hash := if Strip(r.hash) == "" then r.hash
                 else CommandsHash(digest, after.commands, r.name, port,
                                   NormalizePowerId(r.powerOn), NormalizePowerId(r.powerOff), r.slotCount))
  }

  // --------------------------------------------------------------- sync

  /** A successful deploy as one step: the staged table becomes the snapshot; with
      nothing configured the hub device and the snapshot go away. */
  function Sync(digest: Digest, r: DeviceRecord, deviceId: int, port: int): DeviceRecord {
    if CountTrue(ConfiguredFlags(r.commands)) == 0
    then r.(deployed := [], deviceId := None, hash := "", port := None)
    else r.(deployed := r.commands, deviceId := Some(deviceId),
            hash := PayloadHash(digest, r, port), port := Some(port))
  }

  /** The ownership reconcile found no hub device for the record. */
  function Disown(r: DeviceRecord): DeviceRecord {
    r.(deployed := [], deviceId := None, hash := "")
  }

  // ------------------------------------------------------------- one step

  datatype EventOp =
    | OpAllocate(name: string)
    | OpReset(index: int)
    | OpSetAction(index: int, long: bool, action: RawAction)
    | OpSetLongPress(index: int, enabled: bool)
    | OpFollow(edits: seq<Edit>, port: int)
    | OpSync(deviceId: int, port: int)
    | OpDisown

  function Step(digest: Digest, r: DeviceRecord, op: EventOp): DeviceRecord {
    match op
    case OpAllocate(name) => Allocate(r, name)
    case OpReset(i) => Reset(r, i)
    case OpSetAction(i, long, action) => SetAction(r, i, long, action)
    case OpSetLongPress(i, enabled) => SetLongPress(r, i, enabled)
    case OpFollow(es, port) => Follow(digest, r, es, port)
    case OpSync(id, port) => Sync(digest, r, id, port)
    case OpDisown => Disown(r)
  }

  // ----------------------------------------------------------- event shape

  /** What the endpoints keep true of every slot: free, or a pure callback. */
  predicate EventShaped(s: Slot, i: nat) {
    || IsDefault(s, i)
    || (&& !s.favorite && s.hardButton == "" && s.inputActivity == "" && s.activities == []
        && HasAction(s.action) && HasAction(s.longAction)
        && s.name != "" && Strip(s.name) == s.name)
  }

  predicate AllShaped(slots: seq<Slot>) {
    forall i :: 0 <= i < |slots| ==> EventShaped(slots[i], i)
  }

  lemma ShapedSlots(s: Slot, i: nat)
    requires EventShaped(s, i)
    ensures IsNormal(s, true) && Strip(s.hardButton) == "" && !OnlyLongPress(s, i)
  {
    assert HasAction(DEFAULT_ACTION);
  }

  lemma ShapedTables(slots: seq<Slot>)
    requires AllShaped(slots)
    ensures AllNormal(slots, true)
    ensures forall i :: 0 <= i < |slots| ==> !OnlyLongPress(slots[i], i)
  {
    forall i | 0 <= i < |slots| ensures IsNormal(slots[i], true) && !OnlyLongPress(slots[i], i) {
      ShapedSlots(slots[i], i);
    }
  }

  lemma EditKeepsShape(t: Tables, e: Edit)
    requires AllShaped(t.commands)
    ensures AllShaped(ApplyEdit(t, e).commands)
  {
    var n := |t.commands|;
    var after := ApplyEdit(t, e).commands;
    forall i | 0 <= i < n ensures EventShaped(after[i], i) {
      assert EventShaped(t.commands[i], i);
      match e
      case Rename(id, rawName) => StripIdempotent(rawName);
      case Remove(id) => assert HasAction(DEFAULT_ACTION);
    }
  }

  lemma {:induction false} EditsKeepShape(t: Tables, es: seq<Edit>)
    requires AllShaped(t.commands)
    ensures AllShaped(ApplyEdits(t, es).commands)
    decreases es
  {
    if es != [] {
      EditKeepsShape(t, es[0]);
      EditsKeepShape(ApplyEdit(t, es[0]), es[1..]);
    }
  }

  /** A well-formed record whose slots are free or pure callbacks. */
  predicate EventsValid(r: DeviceRecord) {
    IsEventsRecord(r) && AllShaped(r.commands)
  }

  lemma CommandsStep(r: DeviceRecord, commands: seq<Slot>)
    requires EventsValid(r) && |commands| == |r.commands| && AllShaped(commands)
    ensures EventsValid(r.(commands := commands))
  {
    ShapedTables(commands);
  }

  lemma ReservedKey()
    ensures IsEventsKey(WIFI_EVENTS_DEVICE_KEY) && NormalizeKey(WIFI_EVENTS_DEVICE_KEY) == WIFI_EVENTS_DEVICE_KEY
  {
    var k := WIFI_EVENTS_DEVICE_KEY;
    assert forall i :: 0 <= i < |k| ==> 'a' <= k[i] <= 'z';
    KeysAreFixed(k);
  }

  lemma DefaultRecordIsEmpty(key: string, name: string)
    requires NormalizeKey(key) == key != ""
    ensures var r := DefaultRecord(key, name, None);
      && r.key == key && r.slotCount == |r.commands| == RecordSlotCount(key, None) && r.deployed == []
      && forall i :: 0 <= i < |r.commands| ==> IsDefault(r.commands[i], i)
  {
  }

  lemma EmptyRecordIsValid()
    ensures EventsValid(EmptyEventsRecord)
    ensures EmptyEventsRecord.slotCount == WIFI_EVENTS_SLOT_COUNT && EmptyEventsRecord.deployed == []
    ensures forall i :: 0 <= i < WIFI_EVENTS_SLOT_COUNT ==> IsDefault(EmptyEventsRecord.commands[i], i)
  {
    DefaultRecordWellFormed(WIFI_EVENTS_DEVICE_KEY, WIFI_EVENTS_DEVICE_NAME, None);
    ReservedKey();
    DefaultRecordIsEmpty(WIFI_EVENTS_DEVICE_KEY, WIFI_EVENTS_DEVICE_NAME);
  }

  /** Writing one well-shaped slot, or one table of them, keeps the record valid. */
  lemma WriteKeepsValid(r: DeviceRecord, i: nat, s: Slot)
    requires EventsValid(r) && i < |r.commands| && EventShaped(s, i)
    ensures EventsValid(r.(commands := r.commands[i := s]))
  {
    CommandsStep(r, r.commands[i := s]);
  }

  lemma AllocateKeepsValid(r: DeviceRecord, name: string)
    requires EventsValid(r)
    ensures EventsValid(Allocate(r, name))
  {
    var answer := AllocateAt(r.commands, r.deployed, name);
    if answer.Allocated? {
      StripIdempotent(name);
      assert HasAction(DEFAULT_ACTION);
      WriteKeepsValid(r, answer.index, NewEventSlot(Strip(name)));
    }
  }

  lemma SlotEditKeepsValid(r: DeviceRecord, i: int, s: Slot)
    requires EventsValid(r) && Configured(r.commands, i)
    requires HasAction(s.action) && HasAction(s.longAction)
    requires s == r.commands[i].(longPress := s.longPress, action := s.action, longAction := s.longAction)
    ensures EventsValid(r.(commands := r.commands[i := s]))
  {
    assert EventShaped(r.commands[i], i);
    WriteKeepsValid(r, i, s);
  }

  lemma SetActionKeepsValid(r: DeviceRecord, i: int, long: bool, action: RawAction)
    requires EventsValid(r)
    ensures EventsValid(SetAction(r, i, long, action))
  {
    if Configured(r.commands, i) {
      assert EventShaped(r.commands[i], i);
      SlotEditKeepsValid(r, i, PutAction(r.commands[i], long, action));
    }
  }

  lemma SetLongPressKeepsValid(r: DeviceRecord, i: int, enabled: bool)
    requires EventsValid(r)
    ensures EventsValid(SetLongPress(r, i, enabled))
  {
    if Configured(r.commands, i) {
      assert EventShaped(r.commands[i], i);
      SlotEditKeepsValid(r, i, r.commands[i].(longPress := enabled));
    }
  }

  lemma FollowKeepsValid(digest: Digest, r: DeviceRecord, es: seq<Edit>, port: int)
    requires EventsValid(r)
    ensures EventsValid(Follow(digest, r, es, port))
  {
    var t := Tables(r.commands, r.deployed);
    EditsKeepShape(t, es);
    CommandsStep(r, ApplyEdits(t, es).commands);
  }

  lemma ResetKeepsValid(r: DeviceRecord, i: int)
    requires EventsValid(r)
    ensures EventsValid(Reset(r, i))
  {
    if Configured(r.commands, i) { WriteKeepsValid(r, i, DefaultSlot(i)); }
  }

  lemma SyncKeepsValid(digest: Digest, r: DeviceRecord, id: int, port: int)
    requires EventsValid(r)
    ensures EventsValid(Sync(digest, r, id, port)) && EventsValid(Disown(r))
  {
    StripTrimmed("");
  }

  /** Carries validity over an equality of records that are costly to unfold. */
  lemma EqualIsValid(r: DeviceRecord, s: DeviceRecord)
    requires EventsValid(r) && s == r
    ensures EventsValid(s)
  {
  }

  lemma SlotStepIs(digest: Digest, r: DeviceRecord, i: int, long: bool, action: RawAction, enabled: bool)
    ensures Step(digest, r, OpReset(i)) == Reset(r, i)
    ensures Step(digest, r, OpSetAction(i, long, action)) == SetAction(r, i, long, action)
    ensures Step(digest, r, OpSetLongPress(i, enabled)) == SetLongPress(r, i, enabled)
  {
  }

  lemma AllocateStepValid(digest: Digest, r: DeviceRecord, name: string)
    requires EventsValid(r)
    ensures EventsValid(Step(digest, r, OpAllocate(name)))
  {
    AllocateKeepsValid(r, name);
    EqualIsValid(Allocate(r, name), Step(digest, r, OpAllocate(name)));
  }

  lemma ResetStepValid(digest: Digest, r: DeviceRecord, i: int)
    requires EventsValid(r)
    ensures EventsValid(Step(digest, r, OpReset(i)))
  {
    ResetKeepsValid(r, i);
    SlotStepIs(digest, r, i, false, NotAnAction, false);
    EqualIsValid(Reset(r, i), Step(digest, r, OpReset(i)));
  }

  lemma SetActionStepValid(digest: Digest, r: DeviceRecord, i: int, long: bool, action: RawAction)
    requires EventsValid(r)
    ensures EventsValid(Step(digest, r, OpSetAction(i, long, action)))
  {
    SetActionKeepsValid(r, i, long, action);
    SlotStepIs(digest, r, i, long, action, false);
    EqualIsValid(SetAction(r, i, long, action), Step(digest, r, OpSetAction(i, long, action)));
  }

  lemma SetLongPressStepValid(digest: Digest, r: DeviceRecord, i: int, enabled: bool)
    requires EventsValid(r)
    ensures EventsValid(Step(digest, r, OpSetLongPress(i, enabled)))
  {
    SetLongPressKeepsValid(r, i, enabled);
    SlotStepIs(digest, r, i, false, NotAnAction, enabled);
    EqualIsValid(SetLongPress(r, i, enabled), Step(digest, r, OpSetLongPress(i, enabled)));
  }

  lemma FollowStepIs(digest: Digest, r: DeviceRecord, es: seq<Edit>, port: int)
    ensures Step(digest, r, OpFollow(es, port)) == Follow(digest, r, es, port)
  {
  }

  lemma FollowStepValid(digest: Digest, r: DeviceRecord, es: seq<Edit>, port: int)
    requires EventsValid(r)
    ensures EventsValid(Step(digest, r, OpFollow(es, port)))
  {
    FollowKeepsValid(digest, r, es, port);
    FollowStepIs(digest, r, es, port);
    EqualIsValid(Follow(digest, r, es, port), Step(digest, r, OpFollow(es, port)));
  }

  lemma SyncStepIs(digest: Digest, r: DeviceRecord, id: int, port: int)
    ensures Step(digest, r, OpSync(id, port)) == Sync(digest, r, id, port)
    ensures Step(digest, r, OpDisown) == Disown(r)
  {
  }

  lemma SyncStepValid(digest: Digest, r: DeviceRecord, id: int, port: int)
    requires EventsValid(r)
    ensures EventsValid(Step(digest, r, OpSync(id, port))) && EventsValid(Step(digest, r, OpDisown))
  {
    SyncKeepsValid(digest, r, id, port);
    SyncStepIs(digest, r, id, port);
    EqualIsValid(Sync(digest, r, id, port), Step(digest, r, OpSync(id, port)));
    EqualIsValid(Disown(r), Step(digest, r, OpDisown));
  }

  /** Every endpoint keeps the record valid. */
  lemma StepKeepsValid(digest: Digest, r: DeviceRecord, op: EventOp)
    requires EventsValid(r)
    ensures EventsValid(Step(digest, r, op))
  {
    match op
    case OpAllocate(name) => AllocateStepValid(digest, r, name);
    case OpReset(i) => ResetStepValid(digest, r, i);
    case OpSetAction(i, long, action) => SetActionStepValid(digest, r, i, long, action);
    case OpSetLongPress(i, enabled) => SetLongPressStepValid(digest, r, i, enabled);
    case OpFollow(es, port) => FollowStepValid(digest, r, es, port);
    case OpSync(id, port) => SyncStepValid(digest, r, id, port);
    case OpDisown => SyncStepValid(digest, r, 0, 0);
  }

  /** ... and its key and slot count fixed. */
  lemma StepKeepsIdentity(digest: Digest, r: DeviceRecord, op: EventOp)
    ensures Step(digest, r, op).slotCount == r.slotCount && Step(digest, r, op).key == r.key
  {
  }
}
