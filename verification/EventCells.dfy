/** The reserved record in the heap: slots are shared, mutable cells.  Every endpoint works
    on freshly normalized copies of the staged cells, so it never writes a deployed one;
    only the reconciles that follow the hub write deployed cells, in place. */
module EventCells {
  import opened Text
  import opened Slots
  import opened Records
  import opened WifiEvents

  class SlotCell {
    var slot: Slot

    constructor (slot: Slot)
      ensures this.slot == slot
    {
      this.slot := slot;
    }
  }

  function Contents(cells: seq<SlotCell>): (r: seq<Slot>)
    reads cells
    ensures |r| == |cells|
    ensures forall i :: 0 <= i < |cells| ==> r[i] == cells[i].slot
  {
    seq(|cells|, i requires 0 <= i < |cells| reads cells => cells[i].slot)
  }

  predicate NoRepeats(cells: seq<SlotCell>) {
    forall i, j :: 0 <= i < j < |cells| ==> cells[i] != cells[j]
  }

  /** No cell of one list is a cell of the other. */
  predicate Apart(a: seq<SlotCell>, b: seq<SlotCell>) {
    forall i, j :: 0 <= i < |a| && 0 <= j < |b| ==> a[i] != b[j]
  }

  /** Copies of normalized slots: what `normalize_commands` returns. */
  method CopyCells(slots: seq<Slot>) returns (cells: seq<SlotCell>)
    ensures Contents(cells) == slots && NoRepeats(cells)
    ensures forall k :: 0 <= k < |cells| ==> fresh(cells[k])
  {
    cells := [];
    for i := 0 to |slots|
      invariant |cells| == i && forall k :: 0 <= k < i ==> cells[k].slot == slots[k]
      invariant NoRepeats(cells) && forall k :: 0 <= k < i ==> fresh(cells[k])
    {
      var cell := new SlotCell(slots[i]);
      cells := cells + [cell];
    }
  }

  /** The cell at a position, if the list reaches that far. */
  function CellAt(cells: seq<SlotCell>, i: nat): set<SlotCell> {
    if i < |cells| then {cells[i]} else {}
  }

  /** The entry at a position takes a name; the flag says whether it changed. */
  method NameCell(cells: seq<SlotCell>, i: nat, name: string) returns (changed: bool)
    requires NoRepeats(cells)
    modifies CellAt(cells, i)
    ensures Contents(cells) == SetName(old(Contents(cells)), i, name)
    ensures changed <==> Contents(cells) != old(Contents(cells))
  {
    changed := false;
    if i < |cells| && cells[i].slot.name != name {
      cells[i].slot := cells[i].slot.(name := name);
      changed := true;
      assert Contents(cells)[i] != old(Contents(cells))[i];
    }
  }

  method RenameCells(cells: seq<SlotCell>, deployed: seq<SlotCell>, i: nat, name: string) returns (changed: bool)
    requires NoRepeats(cells) && NoRepeats(deployed) && Apart(cells, deployed)
    modifies CellAt(cells, i), CellAt(deployed, i)
    ensures Contents(cells) == SetName(old(Contents(cells)), i, name)
    ensures Contents(deployed) == SetName(old(Contents(deployed)), i, name)
    ensures changed <==> Contents(cells) != old(Contents(cells)) || Contents(deployed) != old(Contents(deployed))
  {
    var staged := NameCell(cells, i, name);
    var live := NameCell(deployed, i, name);
    changed := staged || live;
  }

  method FreeCells(cells: seq<SlotCell>, deployed: seq<SlotCell>, i: nat) returns (after: seq<SlotCell>, changed: bool)
    requires NoRepeats(cells) && NoRepeats(deployed) && Apart(cells, deployed) && i < |cells|
    modifies CellAt(deployed, i)
    ensures NoRepeats(after) && Apart(after, deployed)
    ensures forall k :: 0 <= k < |after| ==> after[k] in cells || fresh(after[k])
    ensures Contents(after) == old(Contents(cells))[i := DefaultSlot(i)]
    ensures Contents(deployed) == SetName(old(Contents(deployed)), i, PlaceholderName(i))
    ensures changed <==> Contents(after) != old(Contents(cells)) || Contents(deployed) != old(Contents(deployed))
  {
    after, changed := cells, false;
    if !IsDefault(cells[i].slot, i) {
      var cell := new SlotCell(DefaultSlot(i));
      after, changed := cells[i := cell], true;
      assert Contents(after)[i] != old(Contents(cells))[i];
    }
    var live := NameCell(deployed, i, PlaceholderName(i));
    changed := changed || live;
  }

  method ClearLong(cells: seq<SlotCell>, i: nat) returns (changed: bool)
    requires NoRepeats(cells) && i < |cells|
    modifies cells[i]
    ensures Contents(cells) == old(Contents(cells))[i := ClearLongPress(old(cells[i].slot))]
    ensures changed <==> Contents(cells) != old(Contents(cells))
  {
    changed := cells[i].slot.longPress;
    if changed {
      cells[i].slot := cells[i].slot.(longPress := false, longAction := DEFAULT_ACTION);
      assert Contents(cells)[i] != old(Contents(cells))[i];
    }
  }

  /** One edit of the staged copies and the deployed cells, in place. */
  method EditCells(cells: seq<SlotCell>, deployed: seq<SlotCell>, e: Edit) returns (after: seq<SlotCell>, changed: bool)
    requires NoRepeats(cells) && NoRepeats(deployed) && Apart(cells, deployed)
    modifies cells, deployed
    ensures NoRepeats(after) && Apart(after, deployed)
    ensures forall k :: 0 <= k < |after| ==> after[k] in cells || fresh(after[k])
    ensures Tables(Contents(after), Contents(deployed))
       == ApplyEdit(old(Tables(Contents(cells), Contents(deployed))), e)
    ensures changed <==> Tables(Contents(after), Contents(deployed)) != old(Tables(Contents(cells), Contents(deployed)))
  {
    after, changed := cells, false;
    var n := |cells|;
    match e {
      case Rename(id, rawName) =>
        var name := Strip(rawName);
        if name == "" || !(1 <= id <= n) || IsDefault(cells[id - 1].slot, id - 1) { return; }
        changed := RenameCells(cells, deployed, id - 1, name);
      case Remove(id) =>
        if 1 <= id <= n {
          after, changed := FreeCells(cells, deployed, id - 1);
        } else if n < id <= 2 * n {
          changed := ClearLong(cells, id - n - 1);
        }
    }
  }

  method ResetCell(cells: seq<SlotCell>, i: int) returns (after: seq<SlotCell>, found: bool)
    requires NoRepeats(cells)
    ensures NoRepeats(after) && forall k :: 0 <= k < |after| ==> after[k] in cells || fresh(after[k])
    ensures found <==> Configured(Contents(cells), i)
    ensures Contents(after) == if found then Contents(cells)[i := DefaultSlot(i)] else Contents(cells)
  {
    after := cells;
    found := 0 <= i < |cells| && !IsDefault(cells[i].slot, i);
    if found {
      var cell := new SlotCell(DefaultSlot(i));
      after := cells[i := cell];
    }
  }

  method WriteCell(cells: seq<SlotCell>, i: int, edit: Slot -> Slot) returns (found: bool)
    requires NoRepeats(cells)
    modifies cells
    ensures found <==> Configured(old(Contents(cells)), i)
    ensures Contents(cells)
         == if found then old(Contents(cells))[i := edit(old(Contents(cells))[i])] else old(Contents(cells))
  {
    found := 0 <= i < |cells| && !IsDefault(cells[i].slot, i);
    if found { cells[i].slot := edit(cells[i].slot); }
  }

  function ActionEdit(long: bool, action: RawAction): Slot -> Slot {
    (s: Slot) => PutAction(s, long, action)
  }

  function LongPressEdit(enabled: bool): Slot -> Slot {
    (s: Slot) => s.(longPress := enabled)
  }

  method AllocateCell(cells: seq<SlotCell>, deployed: seq<Slot>, name: string) returns (after: seq<SlotCell>,
      answer: AllocResult)
    requires NoRepeats(cells)
    ensures NoRepeats(after) && forall k :: 0 <= k < |after| ==> after[k] in cells || fresh(after[k])
    ensures answer == AllocateAt(Contents(cells), deployed, name)
    ensures Contents(after) == if answer.Allocated? then Contents(cells)[answer.index := NewEventSlot(Strip(name))]
                               else Contents(cells)
  {
    after := cells;
    answer := ScanForSlot(Contents(cells), deployed, name);
    RightAnswerIsUnique(Contents(cells), deployed, name, answer, AllocateAt(Contents(cells), deployed, name));
    if answer.Allocated? {
      var cell := new SlotCell(NewEventSlot(Strip(name)));
      after := cells[answer.index := cell];
    }
  }

  method EditAll(staged: seq<SlotCell>, deployed: seq<SlotCell>, es: seq<Edit>) returns (cells: seq<SlotCell>,
      changed: bool)
    requires NoRepeats(staged) && NoRepeats(deployed) && Apart(staged, deployed)
    modifies staged, deployed
    ensures NoRepeats(cells) && Apart(cells, deployed)
    ensures forall k :: 0 <= k < |cells| ==> cells[k] in staged || fresh(cells[k])
    ensures Tables(Contents(cells), Contents(deployed))
       == ApplyEdits(old(Tables(Contents(staged), Contents(deployed))), es)
    ensures changed <==> Changes(old(Tables(Contents(staged), Contents(deployed))), es)
    ensures !changed ==> Contents(deployed) == old(Contents(deployed))
  {
    ghost var t := Tables(Contents(staged), Contents(deployed));
    cells, changed := staged, false;
    for k := 0 to |es|
      invariant NoRepeats(cells) && Apart(cells, deployed)
      invariant forall j :: 0 <= j < |cells| ==> cells[j] in staged || fresh(cells[j])
      invariant ApplyEdits(Tables(Contents(cells), Contents(deployed)), es[k..]) == ApplyEdits(t, es)
      invariant Changes(t, es) <==> changed || Changes(Tables(Contents(cells), Contents(deployed)), es[k..])
      invariant !changed ==> Tables(Contents(cells), Contents(deployed)) == t
    {
      assert es[k..][1..] == es[k + 1..] && es[k..][0] == es[k];
      var wrote;
      ghost var before := Tables(Contents(cells), Contents(deployed));
      cells, wrote := EditCells(cells, deployed, es[k]);
      changed := changed || wrote;
    }
  }

  /** The deployed hash is recomputed only if there is one. */
  function FollowedHash(digest: Digest, r: DeviceRecord, commands: seq<Slot>, port: int): string {
    if Strip(r.hash) == "" then r.hash
    else CommandsHash(digest, commands, r.name, port,
                      NormalizePowerId(r.powerOn), NormalizePowerId(r.powerOff), r.slotCount)
  }

  function Followed(digest: Digest, r: DeviceRecord, es: seq<Edit>, port: int): DeviceRecord {
    var after := ApplyEdits(Tables(r.commands, r.deployed), es);
    r.(commands := after.commands, deployed := after.deployed,
       hash := FollowedHash(digest, r, after.commands, port))
  }

  /** Applied when some edit changes something, that is the reconcile step. */
  lemma FollowedIsFollow(digest: Digest, r: DeviceRecord, es: seq<Edit>, port: int)
    ensures Follow(digest, r, es, port)
         == if Changes(Tables(r.commands, r.deployed), es) then Followed(digest, r, es, port) else r
  {
  }

  // ------------------------------------------- what each method does, on values

  type Reader = DeviceRecord -> seq<Slot>

  const ReadBack: Reader := (r: DeviceRecord) => EventSlots(r)

  function SettledBy(read: Reader, r: DeviceRecord): DeviceRecord { r.(commands := read(r)) }

  function AllocatedBy(read: Reader, r: DeviceRecord, name: string): DeviceRecord {
    var s := SettledBy(read, r);
    if AllocateAt(s.commands, s.deployed, name).Allocated? then Allocate(s, name) else r
  }

  lemma AllocatedIs(read: Reader, r: DeviceRecord, name: string, commands: seq<Slot>)
    requires var answer := AllocateAt(read(r), r.deployed, name);
      answer.Allocated? ==> commands == read(r)[answer.index := NewEventSlot(Strip(name))]
    ensures AllocatedBy(read, r, name)
         == if AllocateAt(read(r), r.deployed, name).Allocated? then r.(commands := commands) else r
  {
  }

  function ResetBy(read: Reader, r: DeviceRecord, i: int): DeviceRecord {
    var s := SettledBy(read, r);
    if Configured(s.commands, i) then Reset(s, i) else r
  }

  function ActionBy(read: Reader, r: DeviceRecord, i: int, long: bool, action: RawAction): DeviceRecord {
    var s := SettledBy(read, r);
    if Configured(s.commands, i) then SetAction(s, i, long, action) else r
  }

  lemma ActionIs(read: Reader, r: DeviceRecord, i: int, long: bool, action: RawAction, commands: seq<Slot>)
    requires Configured(read(r), i) ==> commands == read(r)[i := ActionEdit(long, action)(read(r)[i])]
    ensures ActionBy(read, r, i, long, action) == if Configured(read(r), i) then r.(commands := commands) else r
  {
  }

  function LongPressBy(read: Reader, r: DeviceRecord, i: int, enabled: bool): DeviceRecord {
    var s := SettledBy(read, r);
    if Configured(s.commands, i) then SetLongPress(s, i, enabled) else r
  }

  function DeployedBy(read: Reader, r: DeviceRecord, id: int, hash: string, port: int): DeviceRecord {
    r.(deployed := read(r), deviceId := Some(id), hash := Strip(hash), port := Some(port))
  }

  function FollowedBy(read: Reader, digest: Digest, r: DeviceRecord, es: seq<Edit>, port: int): DeviceRecord {
    var s := SettledBy(read, r);
    if Changes(Tables(s.commands, s.deployed), es) then Followed(digest, s, es, port) else r
  }

  /** The follow-up, from the edited tables and the other fields. */
  lemma FollowedByIs(read: Reader, digest: Digest, r: DeviceRecord, es: seq<Edit>, port: int, header: DeviceRecord,
      commands: seq<Slot>, deployed: seq<Slot>)
    requires header.(commands := r.commands, deployed := r.deployed) == r
    requires Changes(Tables(read(r), r.deployed), es)
    requires Tables(commands, deployed) == ApplyEdits(Tables(read(r), r.deployed), es)
    ensures FollowedBy(read, digest, r, es, port)
         == header.(commands := commands, deployed := deployed, hash := FollowedHash(digest, header, commands, port))
  {
  }

  /** Reading a well-formed reserved record back changes nothing. */
  lemma WellFormedIsSettled(r: DeviceRecord)
    requires IsEventsRecord(r)
    ensures SettledBy(ReadBack, r) == r
  {
    EventSlotsAreTheCommands(r);
  }

  // On a record that reads back as it is, a well-formed one for instance, each method makes
  // the step of the event runs.

  lemma AllocatedIsStep(read: Reader, digest: Digest, r: DeviceRecord, name: string)
    requires SettledBy(read, r) == r
    ensures AllocatedBy(read, r, name) == Step(digest, r, OpAllocate(name))
  {
  }

  lemma ResetIsStep(read: Reader, digest: Digest, r: DeviceRecord, i: int)
    requires SettledBy(read, r) == r
    ensures ResetBy(read, r, i) == Step(digest, r, OpReset(i))
  {
  }

  lemma ActionIsStep(read: Reader, digest: Digest, r: DeviceRecord, i: int, long: bool, action: RawAction)
    requires SettledBy(read, r) == r
    ensures ActionBy(read, r, i, long, action) == Step(digest, r, OpSetAction(i, long, action))
  {
    SlotStepIs(digest, r, i, long, action, false);
  }

  lemma LongPressIsStep(read: Reader, digest: Digest, r: DeviceRecord, i: int, enabled: bool)
    requires SettledBy(read, r) == r
    ensures LongPressBy(read, r, i, enabled) == Step(digest, r, OpSetLongPress(i, enabled))
  {
    SlotStepIs(digest, r, i, false, NotAnAction, enabled);
  }

  lemma DeployedIsStep(read: Reader, digest: Digest, r: DeviceRecord, id: int, port: int)
    requires SettledBy(read, r) == r && CountTrue(ConfiguredFlags(r.commands)) != 0
    ensures DeployedBy(read, r, id, PayloadHash(digest, r, port), port) == Step(digest, r, OpSync(id, port))
  {
    SyncStepIs(digest, r, id, port);
    DeployedIsSync(read, r, id, PayloadHash(digest, r, port), port);
  }

  lemma DeployedIsSync(read: Reader, r: DeviceRecord, id: int, hash: string, port: int)
    requires read(r) == r.commands && Strip(hash) == hash
    ensures DeployedBy(read, r, id, hash, port)
         == r.(deployed := r.commands, deviceId := Some(id), hash := hash, port := Some(port))
  {
  }

  lemma FollowedIsStep(read: Reader, digest: Digest, r: DeviceRecord, es: seq<Edit>, port: int)
    requires SettledBy(read, r) == r
    ensures FollowedBy(read, digest, r, es, port) == Step(digest, r, OpFollow(es, port))
  {
    FollowedIsFollow(digest, r, es, port);
  }

  /** On every valid record each method makes the step of the same name; a deploy hands in the
      hash of the record and needs something configured. */
  lemma MethodsAreSteps(digest: Digest, r: DeviceRecord, name: string, i: int, long: bool, action: RawAction,
      enabled: bool, es: seq<Edit>, id: int, port: int)
    requires IsEventsRecord(r)
    ensures AllocatedBy(ReadBack, r, name) == Step(digest, r, OpAllocate(name))
    ensures ResetBy(ReadBack, r, i) == Step(digest, r, OpReset(i))
    ensures ActionBy(ReadBack, r, i, long, action) == Step(digest, r, OpSetAction(i, long, action))
    ensures LongPressBy(ReadBack, r, i, enabled) == Step(digest, r, OpSetLongPress(i, enabled))
    ensures FollowedBy(ReadBack, digest, r, es, port) == Step(digest, r, OpFollow(es, port))
    ensures CountTrue(ConfiguredFlags(r.commands)) != 0 ==>
      DeployedBy(ReadBack, r, id, PayloadHash(digest, r, port), port) == Step(digest, r, OpSync(id, port))
  {
    WellFormedIsSettled(r);
    AllocatedIsStep(ReadBack, digest, r, name);
    ResetIsStep(ReadBack, digest, r, i);
    ActionIsStep(ReadBack, digest, r, i, long, action);
    LongPressIsStep(ReadBack, digest, r, i, enabled);
    FollowedIsStep(ReadBack, digest, r, es, port);
    if CountTrue(ConfiguredFlags(r.commands)) != 0 { DeployedIsStep(ReadBack, digest, r, id, port); }
  }

  class EventsRecord {
    const read: Reader                     // how a staged table is read back
    var commands: seq<SlotCell>
    var deployed: seq<SlotCell>
    var header: DeviceRecord               // every field but the two tables

    function View(): DeviceRecord
      reads this, commands, deployed
    {
      header.(commands := Contents(commands), deployed := Contents(deployed))
    }

    /** The record once its staged table has been read back. */
    function Settled(): DeviceRecord
      reads this, commands, deployed
    {
      View().(commands := read(View()))
    }

    constructor (r: DeviceRecord)
      ensures View() == r && read == ReadBack && NoRepeats(deployed)
    {
      var staged := CopyCells(r.commands);
      var live := CopyCells(r.deployed);
      read, header, commands, deployed := ReadBack, r, staged, live;
    }

    /** `_wifi_events_slots`: fresh copies of the staged cells. */
    method Copies() returns (cells: seq<SlotCell>)
      ensures Contents(cells) == read(View()) && NoRepeats(cells)
      ensures forall k :: 0 <= k < |cells| ==> fresh(cells[k])
    {
      cells := CopyCells(read(View()));
    }

    method Commit(cells: seq<SlotCell>)
      modifies this`commands
      ensures View() == old(View()).(commands := Contents(cells)) && commands == cells
    {
      commands := cells;
    }

    /** Allocation writes no cell that existed before, whatever the two lists share. */
    method AllocateEvent(name: string) returns (answer: AllocResult)
      modifies this`commands
      ensures answer == AllocateAt(old(Settled()).commands, old(Settled()).deployed, name)
      ensures answer.Allocated? ==> Apart(commands, deployed)
      ensures answer.Refused? ==> commands == old(commands)
      ensures View() == AllocatedBy(read, old(View()), name)
    {
      var cells := Copies();
      cells, answer := AllocateCell(cells, Contents(deployed), name);
      AllocatedIs(read, View(), name, Contents(cells));
      if answer.Allocated? { Commit(cells); }
    }

    method ResetEvent(i: int) returns (found: bool)
      modifies this`commands
      ensures found <==> Configured(old(Settled()).commands, i)
      ensures found ==> Apart(commands, deployed)
      ensures !found ==> commands == old(commands)
      ensures View() == ResetBy(read, old(View()), i)
    {
      var cells := Copies();
      cells, found := ResetCell(cells, i);
      if found { Commit(cells); }
    }

    method SetEventAction(i: int, long: bool, action: RawAction) returns (found: bool)
      modifies this`commands
      ensures found <==> Configured(old(Settled()).commands, i)
      ensures found ==> Apart(commands, deployed)
      ensures !found ==> commands == old(commands)
      ensures View() == ActionBy(read, old(View()), i, long, action)
    {
      var cells := Copies();
      found := WriteCell(cells, i, ActionEdit(long, action));
      ActionIs(read, View(), i, long, action, Contents(cells));
      if found { Commit(cells); }
    }

    method SetEventLongPress(i: int, enabled: bool) returns (found: bool)
      modifies this`commands
      ensures found <==> Configured(old(Settled()).commands, i)
      ensures found ==> Apart(commands, deployed)
      ensures !found ==> commands == old(commands)
      ensures View() == LongPressBy(read, old(View()), i, enabled)
    {
      var cells := Copies();
      found := WriteCell(cells, i, LongPressEdit(enabled));
      if found { Commit(cells); }
    }

    /** The deployed list becomes the one handed in, object for object. */
    method SaveDeployed(cells: seq<SlotCell>, id: Option<int>, hash: string, port: Option<int>)
      modifies this`deployed, this`header
      ensures View() == old(View()).(deployed := Contents(cells), deviceId := id, hash := Strip(hash), port := port)
      ensures deployed == cells
    {
      deployed := cells;
      header := header.(deviceId := id, hash := Strip(hash), port := port);
    }

    /** A deploy hands in its own copies, so the snapshot shares nothing with the staged cells. */
    method Deploy(id: int, hash: string, port: int)
      modifies this`deployed, this`header
      ensures NoRepeats(deployed) && Apart(commands, deployed)
      ensures View() == DeployedBy(read, old(View()), id, hash, port)
    {
      var cells := Copies();
      SaveDeployed(cells, Some(id), hash, Some(port));
    }

    /** The edits, on copies of the staged cells and in place on the deployed ones. */
    method EditCopies(es: seq<Edit>) returns (cells: seq<SlotCell>, changed: bool)
      requires NoRepeats(deployed)
      modifies deployed
      ensures Apart(cells, deployed)
      ensures changed <==> Changes(old(Tables(read(View()), Contents(deployed))), es)
      ensures Tables(Contents(cells), Contents(deployed))
         == ApplyEdits(old(Tables(read(View()), Contents(deployed))), es)
      ensures !changed ==> forall k :: 0 <= k < |deployed| ==> deployed[k].slot == old(deployed[k].slot)
    {
      cells := Copies();
      cells, changed := EditAll(cells, deployed, es);
      assert !changed ==>
        forall k :: 0 <= k < |deployed| ==> Contents(deployed)[k] == old(Contents(deployed))[k];
    }

    /** The tables after the edits; nothing is committed when no edit changes anything. */
    method FollowTables(es: seq<Edit>) returns (changed: bool)
      requires NoRepeats(deployed)
      modifies this`commands, deployed
      ensures changed <==> Changes(old(Tables(read(View()), Contents(deployed))), es)
      ensures changed ==>
        Tables(Contents(commands), Contents(deployed)) == ApplyEdits(old(Tables(read(View()), Contents(deployed))), es)
      ensures changed ==> Apart(commands, deployed)
      ensures !changed ==> View() == old(View())
    {
      var cells;
      cells, changed := EditCopies(es);
      if changed {
        commands := cells;
      } else {
        assert Contents(commands) == old(Contents(commands));
        assert Contents(deployed) == old(Contents(deployed));
      }
    }

    /** The rename and removal reconciles: the only writers of deployed cells. */
    method FollowHub(digest: Digest, es: seq<Edit>, port: int) returns (changed: bool)
      requires NoRepeats(deployed)
      modifies this`commands, this`header, deployed
      ensures deployed == old(deployed)
      ensures changed <==> Changes(Tables(old(Settled()).commands, old(Settled()).deployed), es)
      ensures changed ==> Apart(commands, deployed)
      ensures !changed ==> View() == old(View())
      ensures View() == FollowedBy(read, digest, old(View()), es, port)
    {
      ghost var before := View();
      changed := FollowTables(es);
      if changed {
        var hash := FollowedHash(digest, header, Contents(commands), port);
        FollowedByIs(read, digest, before, es, port, header, Contents(commands), Contents(deployed));
        header := header.(hash := hash);
      }
    }
  }
}
