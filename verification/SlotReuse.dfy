/** Slot reuse over whole runs.  Every allocation creates an event with its own identity;
    the ghost owner of a staged slot is the event configured there, the ghost owner of a
    snapshot entry the event whose record the last sync deployed under that index.  A slot
    must not pass to another event while such a record is still deployed, because the
    index is baked into the deployed callback ids. */
module SlotReuse {
  import opened Text
  import opened Slots
  import opened Records
  import opened WifiEvents
  import WifiEventLaws

  type Owners = seq<Option<nat>>

  datatype Tracked = Tracked(r: DeviceRecord, staged: Owners, live: Owners, next: nat)

  function Disowned(o: Owners, i: int): (r: Owners)
    ensures |r| == |o|
  {
    if 0 <= i < |o| then o[i := None] else o
  }

  /** Removing a short record frees its index on both sides. */
  function AfterEdit(o: Owners, n: nat, e: Edit): (r: Owners)
    ensures |r| == |o|
  {
    if e.Remove? && 1 <= e.id <= n then Disowned(o, e.id - 1) else o
  }

  function AfterEdits(o: Owners, n: nat, es: seq<Edit>): (r: Owners)
    ensures |r| == |o|
    decreases es
  {
    if es == [] then o else AfterEdits(AfterEdit(o, n, es[0]), n, es[1..])
  }

  ghost function TrackedStep(digest: Digest, s: Tracked, op: EventOp): Tracked {
    var r := Step(digest, s.r, op);
    match op
    case OpAllocate(name) =>
      (match AllocateAt(s.r.commands, s.r.deployed, name)
       case Allocated(k) =>
         Tracked(r, if k < |s.staged| then s.staged[k := Some(s.next)] else s.staged, s.live, s.next + 1)
       case Refused(_) => s.(r := r))
    case OpReset(i) => s.(r := r, staged := Disowned(s.staged, i))
    case OpFollow(es, _) =>
      var n := |s.r.commands|;
      s.(r := r, staged := AfterEdits(s.staged, n, es), live := AfterEdits(s.live, n, es))
    case OpSync(_, _) => s.(r := r, live := if r.deployed == [] then [] else s.staged)
    case OpDisown => s.(r := r, live := [])
    case _ => s.(r := r)
  }

  ghost function Run(digest: Digest, s: Tracked, ops: seq<EventOp>): Tracked
    decreases ops
  {
    if ops == [] then s else Run(digest, TrackedStep(digest, s, ops[0]), ops[1..])
  }

  /** A record just created: valid, every slot free, nothing deployed. */
  ghost predicate Pristine(r: DeviceRecord) {
    && EventsValid(r) && r.deployed == []
    && forall i :: 0 <= i < |r.commands| ==> IsDefault(r.commands[i], i)
  }

  lemma EmptyRecordIsPristine(r: DeviceRecord)
    requires r == EmptyEventsRecord
    ensures Pristine(r) && |r.commands| > 0
  {
    EmptyRecordIsValid();
  }

  ghost function Start(r: DeviceRecord): Tracked {
    Tracked(r, seq(|r.commands|, _ => None), [], 0)
  }

  // ---------------------------------------------------------- invariants

  /** Owners fit the tables: a staged slot is owned exactly when it is configured. */
  ghost predicate Fits(t: Tables, staged: Owners, live: Owners) {
    && |staged| == |t.commands| && |live| == |t.deployed| && |live| <= |staged|
    && AllShaped(t.commands)
    && (forall i :: 0 <= i < |staged| ==> (staged[i].None? <==> IsDefault(t.commands[i], i)))
    && (forall i :: 0 <= i < |live| && live[i].Some? ==> IsTidy(t.deployed[i].name))
  }

  predicate IsTidy(name: string) { name != "" && Strip(name) == name }

  ghost predicate Minted(o: Owners, next: nat) {
    forall i :: 0 <= i < |o| && o[i].Some? ==> o[i].value < next
  }

  ghost predicate Inv(s: Tracked) {
    && EventsValid(s.r)
    && Fits(Tables(s.r.commands, s.r.deployed), s.staged, s.live)
    && Minted(s.staged, s.next) && Minted(s.live, s.next)
  }

  /** Where an event's record is deployed, the staged slot is that same event or free. */
  ghost predicate SameOrFree(staged: Owners, live: Owners) {
    forall i :: 0 <= i < |live| && i < |staged| && live[i].Some? ==> staged[i].None? || staged[i] == live[i]
  }

  /** The safety claim: a deployed event's slot never holds a different event. */
  ghost predicate Safe(s: Tracked) { SameOrFree(s.staged, s.live) }

  /** The same for one slot. */
  ghost predicate SafeAt(staged: Owners, live: Owners, k: nat) {
    k < |live| && k < |staged| && live[k].Some? ==> staged[k].None? || staged[k] == live[k]
  }

  lemma SafeIsSafeEverywhere(s: Tracked)
    ensures Safe(s) <==> forall k: nat :: SafeAt(s.staged, s.live, k)
  {
    if forall k: nat :: SafeAt(s.staged, s.live, k) {
      forall i: nat | i < |s.live| && i < |s.staged| && s.live[i].Some?
        ensures s.staged[i].None? || s.staged[i] == s.live[i]
      {
        assert SafeAt(s.staged, s.live, i);
      }
    }
  }

  /** The event in slot k does not go by the slot's own placeholder name. */
  ghost predicate PlainAt(slots: seq<Slot>, o: Owners, k: nat) {
    k < |o| && k < |slots| && o[k].Some? ==> slots[k].name != PlaceholderName(k)
  }

  /** The caller's side of the bargain for slot k, checkable before each call: no event placed
      there, and no record of that slot, takes the slot's placeholder name. */
  predicate AvoidsAt(r: DeviceRecord, op: EventOp, k: nat) {
    match op
    case OpAllocate(name) =>
      AllocateAt(r.commands, r.deployed, name) == Allocated(k) ==> Strip(name) != PlaceholderName(k)
    case OpFollow(es, _) => forall j :: 0 <= j < |es| ==> EditAvoids(es[j], k)
    case _ => true
  }

  predicate EditAvoids(e: Edit, k: nat) {
    e.Rename? && e.id == k + 1 ==> Strip(e.name) != PlaceholderName(k)
  }

  // ------------------------------------------------------ one hub edit

  lemma RenameKeepsFits(t: Tables, id: int, rawName: string, staged: Owners, live: Owners)
    requires Fits(t, staged, live)
    ensures Fits(ApplyEdit(t, Rename(id, rawName)), staged, live)
  {
    var after := ApplyEdit(t, Rename(id, rawName));
    EditKeepsShape(t, Rename(id, rawName));
    StripIdempotent(rawName);
    forall i | 0 <= i < |staged| ensures staged[i].None? <==> IsDefault(after.commands[i], i) {
      assert EventShaped(t.commands[i], i);
      assert IsDefault(t.commands[i], i) ==> after.commands[i] == t.commands[i];
      assert !IsDefault(t.commands[i], i) ==> !after.commands[i].favorite;
    }
  }

  lemma RemoveKeepsFits(t: Tables, id: int, staged: Owners, live: Owners)
    requires Fits(t, staged, live)
    ensures var n := |t.commands|;
            Fits(ApplyEdit(t, Remove(id)), AfterEdit(staged, n, Remove(id)), AfterEdit(live, n, Remove(id)))
  {
    var after := ApplyEdit(t, Remove(id));
    var n := |t.commands|;
    EditKeepsShape(t, Remove(id));
    forall i | 0 <= i < n ensures
      AfterEdit(staged, n, Remove(id))[i].None? <==> IsDefault(after.commands[i], i)
    {
      assert EventShaped(t.commands[i], i);
    }
  }

  lemma EditKeepsFits(t: Tables, e: Edit, staged: Owners, live: Owners)
    requires Fits(t, staged, live)
    ensures var n := |t.commands|;
            Fits(ApplyEdit(t, e), AfterEdit(staged, n, e), AfterEdit(live, n, e))
  {
    match e
    case Rename(id, name) => RenameKeepsFits(t, id, name, staged, live);
    case Remove(id) => RemoveKeepsFits(t, id, staged, live);
  }

  lemma {:induction false} EditsKeepFits(t: Tables, es: seq<Edit>, staged: Owners, live: Owners)
    requires Fits(t, staged, live)
    ensures var n := |t.commands|;
            Fits(ApplyEdits(t, es), AfterEdits(staged, n, es), AfterEdits(live, n, es))
    decreases es
  {
    if es != [] {
      var n := |t.commands|;
      EditKeepsFits(t, es[0], staged, live);
      EditsKeepFits(ApplyEdit(t, es[0]), es[1..], AfterEdit(staged, n, es[0]), AfterEdit(live, n, es[0]));
    }
  }

  ghost predicate PlainTables(t: Tables, staged: Owners, live: Owners, k: nat) {
    PlainAt(t.commands, staged, k) && PlainAt(t.deployed, live, k)
  }

  /** An edit renames slot k only if it is a rename of that slot, or frees it. */
  lemma EditKeepsPlain(t: Tables, e: Edit, staged: Owners, live: Owners, k: nat)
    requires |staged| == |t.commands| && |live| == |t.deployed|
    requires PlainTables(t, staged, live, k) && EditAvoids(e, k)
    ensures var n := |t.commands|;
            PlainTables(ApplyEdit(t, e), AfterEdit(staged, n, e), AfterEdit(live, n, e), k)
  {
  }

  lemma {:induction false} EditsKeepPlain(t: Tables, es: seq<Edit>, staged: Owners, live: Owners, k: nat)
    requires Fits(t, staged, live) && PlainTables(t, staged, live, k)
    requires forall j :: 0 <= j < |es| ==> EditAvoids(es[j], k)
    ensures var n := |t.commands|;
            PlainTables(ApplyEdits(t, es), AfterEdits(staged, n, es), AfterEdits(live, n, es), k)
    decreases es
  {
    if es != [] {
      var n := |t.commands|;
      EditKeepsFits(t, es[0], staged, live);
      EditKeepsPlain(t, es[0], staged, live, k);
      EditsKeepPlain(ApplyEdit(t, es[0]), es[1..], AfterEdit(staged, n, es[0]), AfterEdit(live, n, es[0]), k);
    }
  }

  /** The edits free slot k exactly when they remove its short record. */
  lemma {:induction false} EditsFree(o: Owners, n: nat, es: seq<Edit>, k: nat)
    requires k < |o| && k < n
    ensures AfterEdits(o, n, es)[k] == if Remove(k + 1) in es then None else o[k]
    decreases es
  {
    if es != [] {
      assert es == [es[0]] + es[1..];
      EditsFree(AfterEdit(o, n, es[0]), n, es[1..], k);
    }
  }

  lemma {:induction false} EditsMintNothing(o: Owners, n: nat, es: seq<Edit>, next: nat)
    requires Minted(o, next)
    ensures Minted(AfterEdits(o, n, es), next)
    decreases es
  {
    if es != [] {
      EditsMintNothing(AfterEdit(o, n, es[0]), n, es[1..], next);
    }
  }

  lemma FollowTables(digest: Digest, r: DeviceRecord, es: seq<Edit>, port: int)
    ensures var after := Follow(digest, r, es, port);
            Tables(after.commands, after.deployed) == ApplyEdits(Tables(r.commands, r.deployed), es)
  {
    if !Changes(Tables(r.commands, r.deployed), es) {
      WifiEventLaws.NoChangeIsIdentity(Tables(r.commands, r.deployed), es);
    }
  }

  // ------------------------------------------------- one slot rewritten

  lemma WriteFits(t: Tables, staged: Owners, live: Owners, i: nat, s: Slot, o: Option<nat>)
    requires Fits(t, staged, live) && i < |staged|
    requires EventShaped(s, i) && (o.None? <==> IsDefault(s, i))
    ensures Fits(Tables(t.commands[i := s], t.deployed), staged[i := o], live)
  {
  }

  lemma NewSlotFits(t: Tables, staged: Owners, live: Owners, rawName: string, owner: nat)
    requires Fits(t, staged, live)
    ensures var answer := AllocateAt(t.commands, t.deployed, rawName);
      answer.Allocated? ==>
        Fits(Tables(t.commands[answer.index := NewEventSlot(Strip(rawName))], t.deployed),
             staged[answer.index := Some(owner)], live)
  {
    var answer := AllocateAt(t.commands, t.deployed, rawName);
    if answer.Allocated? {
      var slot := NewEventSlot(Strip(rawName));
      StripIdempotent(rawName);
      assert HasAction(DEFAULT_ACTION);
      assert !slot.favorite && DefaultSlot(answer.index).favorite;
      WriteFits(t, staged, live, answer.index, slot, Some(owner));
    }
  }

  lemma FreedSlotFits(t: Tables, staged: Owners, live: Owners, i: int)
    requires Fits(t, staged, live)
    ensures Configured(t.commands, i) ==>
      Fits(Tables(t.commands[i := DefaultSlot(i)], t.deployed), Disowned(staged, i), live)
    ensures !Configured(t.commands, i) ==> Disowned(staged, i) == staged
  {
    if Configured(t.commands, i) {
      WriteFits(t, staged, live, i, DefaultSlot(i), None);
    }
  }

  /** Setting an action or a flag neither frees, claims nor renames a slot. */
  lemma FieldEditFits(t: Tables, staged: Owners, live: Owners, i: int, s: Slot)
    requires Fits(t, staged, live) && Configured(t.commands, i)
    requires s == t.commands[i].(longPress := s.longPress, action := s.action, longAction := s.longAction)
    requires HasAction(s.action) && HasAction(s.longAction)
    ensures Fits(Tables(t.commands[i := s], t.deployed), staged, live)
  {
    assert EventShaped(t.commands[i], i);
    WriteFits(t, staged, live, i, s, staged[i]);
    assert staged[i := staged[i]] == staged;
  }

  lemma SnapshotFits(t: Tables, staged: Owners, live: Owners)
    requires Fits(t, staged, live)
    ensures Fits(Tables(t.commands, t.commands), staged, staged)
    ensures Fits(Tables(t.commands, []), staged, [])
  {
    forall i | 0 <= i < |staged| && staged[i].Some? ensures IsTidy(t.commands[i].name) {
      assert EventShaped(t.commands[i], i);
    }
  }

  lemma ActionFits(t: Tables, staged: Owners, live: Owners, i: int, long: bool, action: RawAction)
    requires Fits(t, staged, live) && AllShaped(t.commands) && Configured(t.commands, i)
    ensures Fits(Tables(t.commands[i := PutAction(t.commands[i], long, action)], t.deployed), staged, live)
  {
    assert EventShaped(t.commands[i], i);
    FieldEditFits(t, staged, live, i, PutAction(t.commands[i], long, action));
  }

  lemma LongPressFits(t: Tables, staged: Owners, live: Owners, i: int, enabled: bool)
    requires Fits(t, staged, live) && AllShaped(t.commands) && Configured(t.commands, i)
    ensures Fits(Tables(t.commands[i := t.commands[i].(longPress := enabled)], t.deployed), staged, live)
  {
    assert EventShaped(t.commands[i], i);
    FieldEditFits(t, staged, live, i, t.commands[i].(longPress := enabled));
  }

  lemma FollowFits(digest: Digest, r: DeviceRecord, staged: Owners, live: Owners, es: seq<Edit>, port: int)
    requires Fits(Tables(r.commands, r.deployed), staged, live)
    ensures var after := Follow(digest, r, es, port);
      Fits(Tables(after.commands, after.deployed), AfterEdits(staged, |r.commands|, es),
          AfterEdits(live, |r.commands|, es))
  {
    FollowTables(digest, r, es, port);
    EditsKeepFits(Tables(r.commands, r.deployed), es, staged, live);
  }

  lemma SyncedTables(digest: Digest, r: DeviceRecord, id: int, port: int)
    ensures var after := Step(digest, r, OpSync(id, port));
      after.commands == r.commands && (after.deployed == [] || after.deployed == r.commands)
  {
    SyncStepIs(digest, r, id, port);
  }

  lemma SyncFits(digest: Digest, s: Tracked, id: int, port: int)
    requires Fits(Tables(s.r.commands, s.r.deployed), s.staged, s.live)
    ensures var after := TrackedStep(digest, s, OpSync(id, port));
      Fits(Tables(after.r.commands, after.r.deployed), after.staged, after.live)
  {
    SyncedTables(digest, s.r, id, port);
    SnapshotFits(Tables(s.r.commands, s.r.deployed), s.staged, s.live);
  }

  lemma AllocatedFits(digest: Digest, s: Tracked, name: string)
    requires Fits(Tables(s.r.commands, s.r.deployed), s.staged, s.live)
    ensures var after := TrackedStep(digest, s, OpAllocate(name));
      Fits(Tables(after.r.commands, after.r.deployed), after.staged, after.live)
  {
    NewSlotFits(Tables(s.r.commands, s.r.deployed), s.staged, s.live, name, s.next);
  }

  lemma ResetFits(digest: Digest, s: Tracked, i: int)
    requires Fits(Tables(s.r.commands, s.r.deployed), s.staged, s.live)
    ensures var after := TrackedStep(digest, s, OpReset(i));
      Fits(Tables(after.r.commands, after.r.deployed), after.staged, after.live)
  {
    FreedSlotFits(Tables(s.r.commands, s.r.deployed), s.staged, s.live, i);
  }

  lemma SetActionFits(digest: Digest, s: Tracked, i: int, long: bool, action: RawAction)
    requires Fits(Tables(s.r.commands, s.r.deployed), s.staged, s.live)
    ensures var after := TrackedStep(digest, s, OpSetAction(i, long, action));
      Fits(Tables(after.r.commands, after.r.deployed), after.staged, after.live)
  {
    var t := Tables(s.r.commands, s.r.deployed);
    if Configured(t.commands, i) { ActionFits(t, s.staged, s.live, i, long, action); }
  }

  lemma SetLongPressFits(digest: Digest, s: Tracked, i: int, enabled: bool)
    requires Fits(Tables(s.r.commands, s.r.deployed), s.staged, s.live)
    ensures var after := TrackedStep(digest, s, OpSetLongPress(i, enabled));
      Fits(Tables(after.r.commands, after.r.deployed), after.staged, after.live)
  {
    var t := Tables(s.r.commands, s.r.deployed);
    if Configured(t.commands, i) { LongPressFits(t, s.staged, s.live, i, enabled); }
  }

  lemma FollowedFits(digest: Digest, s: Tracked, es: seq<Edit>, port: int)
    requires Fits(Tables(s.r.commands, s.r.deployed), s.staged, s.live)
    ensures var after := TrackedStep(digest, s, OpFollow(es, port));
      Fits(Tables(after.r.commands, after.r.deployed), after.staged, after.live)
  {
    FollowFits(digest, s.r, s.staged, s.live, es, port);
  }

  lemma DisownedFits(digest: Digest, s: Tracked)
    requires Fits(Tables(s.r.commands, s.r.deployed), s.staged, s.live)
    ensures var after := TrackedStep(digest, s, OpDisown);
      Fits(Tables(after.r.commands, after.r.deployed), after.staged, after.live)
  {
    SnapshotFits(Tables(s.r.commands, s.r.deployed), s.staged, s.live);
  }

  lemma StepFits(digest: Digest, s: Tracked, op: EventOp)
    requires Inv(s)
    ensures var after := TrackedStep(digest, s, op);
      Fits(Tables(after.r.commands, after.r.deployed), after.staged, after.live)
  {
    match op
    case OpAllocate(name) => AllocatedFits(digest, s, name);
    case OpReset(i) => ResetFits(digest, s, i);
    case OpSetAction(i, long, action) => SetActionFits(digest, s, i, long, action);
    case OpSetLongPress(i, enabled) => SetLongPressFits(digest, s, i, enabled);
    case OpFollow(es, port) => FollowedFits(digest, s, es, port);
    case OpSync(id, port) => SyncFits(digest, s, id, port);
    case OpDisown => DisownedFits(digest, s);
  }

  lemma StepMints(digest: Digest, s: Tracked, op: EventOp)
    requires Minted(s.staged, s.next) && Minted(s.live, s.next)
    ensures var after := TrackedStep(digest, s, op);
      Minted(after.staged, after.next) && Minted(after.live, after.next)
  {
    if op.OpFollow? {
      EditsMintNothing(s.staged, |s.r.commands|, op.edits, s.next);
      EditsMintNothing(s.live, |s.r.commands|, op.edits, s.next);
    }
  }

  lemma TrackedRecord(digest: Digest, s: Tracked, op: EventOp)
    ensures TrackedStep(digest, s, op).r == Step(digest, s.r, op)
  {
  }

  lemma MakesInv(s: Tracked)
    requires EventsValid(s.r) && Fits(Tables(s.r.commands, s.r.deployed), s.staged, s.live)
    requires Minted(s.staged, s.next) && Minted(s.live, s.next)
    ensures Inv(s)
  {
  }

  lemma StepKeepsInv(digest: Digest, s: Tracked, op: EventOp)
    requires Inv(s)
    ensures Inv(TrackedStep(digest, s, op))
  {
    StepKeepsValid(digest, s.r, op);
    StepFits(digest, s, op);
    StepMints(digest, s, op);
    TrackedRecord(digest, s, op);
    MakesInv(TrackedStep(digest, s, op));
  }

  // -------------------------------------------------------------- safety

  /** A slot the allocator answers, though a deployed event owns its index, passed the
      guard because that event goes by the slot's placeholder name. */
  lemma GuardMissesMimics(t: Tables, staged: Owners, live: Owners, name: string)
    requires Fits(t, staged, live)
    ensures var answer := AllocateAt(t.commands, t.deployed, name);
      answer.Allocated? && answer.index < |live| && live[answer.index].Some?
      ==> t.deployed[answer.index].name == PlaceholderName(answer.index)
  {
    var answer := AllocateAt(t.commands, t.deployed, name);
    if answer.Allocated? && answer.index < |live| && live[answer.index].Some? {
      assert IsTidy(t.deployed[answer.index].name);
    }
  }

  // -------------------------------------------------- runs as moves

  /** What a call does to the owners: all of it can be read off the record before and after. */
  datatype Move = Claim(j: nat) | Free(i: int) | Edits(es: seq<Edit>) | Deploy(any: bool) | Clear | Keep

  function MoveOf(r: DeviceRecord, op: EventOp, after: DeviceRecord): Move {
    match op
    case OpAllocate(name) =>
      (match AllocateAt(r.commands, r.deployed, name)
       case Allocated(k) => Claim(k)
       case Refused(_) => Keep)
    case OpReset(i) => Free(i)
    case OpFollow(es, _) => Edits(es)
    case OpSync(_, _) => Deploy(after.deployed != [])
    case OpDisown => Clear
    case _ => Keep
  }

  function MovesOf(digest: Digest, r: DeviceRecord, ops: seq<EventOp>): seq<Move>
    decreases ops
  {
    if ops == [] then []
    else
      var after := Step(digest, r, ops[0]);
      [MoveOf(r, ops[0], after)] + MovesOf(digest, after, ops[1..])
  }

  datatype Holders = Holders(staged: Owners, live: Owners, next: nat)

  function HoldersOf(s: Tracked): Holders { Holders(s.staged, s.live, s.next) }

  function Moved(h: Holders, m: Move): Holders {
    match m
    case Claim(j) =>
      Holders(if j < |h.staged| then h.staged[j := Some(h.next)] else h.staged, h.live, h.next + 1)
    case Free(i) => h.(staged := Disowned(h.staged, i))
    case Edits(es) =>
      var n := |h.staged|;
      h.(staged := AfterEdits(h.staged, n, es), live := AfterEdits(h.live, n, es))
    case Deploy(any) => h.(live := if any then h.staged else [])
    case Clear => h.(live := [])
    case Keep => h
  }

  function MovedAll(h: Holders, ms: seq<Move>): Holders
    decreases ms
  {
    if ms == [] then h else MovedAll(Moved(h, ms[0]), ms[1..])
  }

  lemma FollowIsMove(digest: Digest, s: Tracked, es: seq<Edit>, port: int)
    requires Aligned(s)
    ensures HoldersOf(TrackedStep(digest, s, OpFollow(es, port))) == Moved(HoldersOf(s), Edits(es))
  {
  }

  lemma SyncIsMove(digest: Digest, s: Tracked, id: int, port: int)
    ensures HoldersOf(TrackedStep(digest, s, OpSync(id, port)))
         == Moved(HoldersOf(s), Deploy(Step(digest, s.r, OpSync(id, port)).deployed != []))
  {
  }

  lemma StepIsMove(digest: Digest, s: Tracked, op: EventOp)
    requires Aligned(s)
    ensures HoldersOf(TrackedStep(digest, s, op)) == Moved(HoldersOf(s), MoveOf(s.r, op, Step(digest, s.r, op)))
  {
    match op
    case OpAllocate(name) =>
    case OpReset(i) =>
    case OpFollow(es, port) => FollowIsMove(digest, s, es, port);
    case OpSync(id, port) => SyncIsMove(digest, s, id, port);
    case OpDisown =>
    case _ =>
  }

  predicate Aligned(s: Tracked) { |s.staged| == |s.r.commands| }

  lemma StepKeepsAligned(digest: Digest, s: Tracked, op: EventOp)
    requires Aligned(s)
    ensures Aligned(TrackedStep(digest, s, op))
  {
    match op
    case OpFollow(es, port) => FollowTables(digest, s.r, es, port);
    case OpSync(id, port) => SyncedTables(digest, s.r, id, port);
    case _ =>
  }

  /** The first step of a run and the move it makes. */
  lemma FirstMove(digest: Digest, s: Tracked, ops: seq<EventOp>) returns (next: Tracked, m: Move)
    requires Aligned(s) && ops != []
    ensures next == TrackedStep(digest, s, ops[0]) && next.r == Step(digest, s.r, ops[0]) && |next.staged| == |s.staged|
    ensures m == MoveOf(s.r, ops[0], next.r)
    ensures Aligned(next) && HoldersOf(next) == Moved(HoldersOf(s), m)
    ensures Run(digest, s, ops) == Run(digest, next, ops[1..])
    ensures MovesOf(digest, s.r, ops) == [m] + MovesOf(digest, next.r, ops[1..])
  {
    next, m := TrackedStep(digest, s, ops[0]), MoveOf(s.r, ops[0], Step(digest, s.r, ops[0]));
    StepKeepsAligned(digest, s, ops[0]);
    StepIsMove(digest, s, ops[0]);
  }

  lemma MovedHead(h: Holders, m: Move, ms: seq<Move>)
    ensures MovedAll(h, [m] + ms) == MovedAll(Moved(h, m), ms)
  {
    assert ([m] + ms)[1..] == ms;
  }

  lemma {:induction false} RunIsMoves(digest: Digest, s: Tracked, ops: seq<EventOp>)
    requires Aligned(s)
    ensures HoldersOf(Run(digest, s, ops)) == MovedAll(HoldersOf(s), MovesOf(digest, s.r, ops))
    decreases ops
  {
    if ops != [] {
      var next, m := FirstMove(digest, s, ops);
      RunIsMoves(digest, next, ops[1..]);
      MovedHead(HoldersOf(s), m, MovesOf(digest, next.r, ops[1..]));
    }
  }

  lemma {:induction false} MovesOfPrefix(digest: Digest, r: DeviceRecord, ops: seq<EventOp>, n: nat)
    requires n <= |ops|
    ensures |MovesOf(digest, r, ops)| == |ops|
    ensures MovesOf(digest, r, ops[..n]) == MovesOf(digest, r, ops)[..n]
    decreases ops
  {
    if ops != [] {
      var after := Step(digest, r, ops[0]);
      MovesOfPrefix(digest, after, ops[1..], if n == 0 then 0 else n - 1);
      if n > 0 { assert ops[..n][1..] == ops[1..][..n - 1]; }
    }
  }

  // ------------------------------------------------- what is on the hub

  predicate Owned(o: Owners, k: nat) { k < |o| && o[k].Some? }

  ghost predicate Proper(h: Holders) { |h.live| <= |h.staged| && Minted(h.staged, h.next) && Minted(h.live, h.next) }

  lemma MoveKeepsProper(h: Holders, m: Move)
    requires Proper(h)
    ensures Proper(Moved(h, m)) && |Moved(h, m).staged| == |h.staged|
  {
    if m.Edits? {
      EditsMintNothing(h.staged, |h.staged|, m.es, h.next);
      EditsMintNothing(h.live, |h.staged|, m.es, h.next);
    }
  }

  /** Only the claim of a slot whose event is on the hub makes a safe slot unsafe. */
  lemma MoveSafeAtIff(h: Holders, m: Move, k: nat)
    requires Proper(h) && SafeAt(h.staged, h.live, k)
    ensures SafeAt(Moved(h, m).staged, Moved(h, m).live, k) <==> !(m == Claim(k) && Owned(h.live, k))
  {
    match m
    case Claim(j) =>
      if Owned(h.live, k) { assert h.live[k].value < h.next; }
    case Edits(es) =>
      if k < |h.live| {
        EditsFree(h.live, |h.staged|, es, k);
        EditsFree(h.staged, |h.staged|, es, k);
      }
    case _ =>
  }

  // ---------------------------------------------------- reuse, slot by slot

  /** Every state of the run is safe at slot k. */
  ghost predicate AlwaysSafe(h: Holders, ms: seq<Move>, k: nat)
    decreases ms
  {
    SafeAt(h.staged, h.live, k) && (ms == [] || AlwaysSafe(Moved(h, ms[0]), ms[1..], k))
  }

  lemma {:induction false} AlwaysSafePrefix(h: Holders, ms: seq<Move>, k: nat, n: nat)
    requires n <= |ms| && AlwaysSafe(h, ms, k)
    ensures SafeAt(MovedAll(h, ms[..n]).staged, MovedAll(h, ms[..n]).live, k)
    decreases ms
  {
    if n > 0 {
      assert ms[..n][1..] == ms[1..][..n - 1];
      AlwaysSafePrefix(Moved(h, ms[0]), ms[1..], k, n - 1);
    }
  }

  lemma {:induction false} PrefixesAlwaysSafe(h: Holders, ms: seq<Move>, k: nat)
    requires forall n :: 0 <= n <= |ms| ==> SafeAt(MovedAll(h, ms[..n]).staged, MovedAll(h, ms[..n]).live, k)
    ensures AlwaysSafe(h, ms, k)
    decreases ms
  {
    assert MovedAll(h, ms[..0]) == h;
    if ms != [] {
      var next, rest := Moved(h, ms[0]), ms[1..];
      forall n | 0 <= n <= |rest| ensures SafeAt(MovedAll(next, rest[..n]).staged, MovedAll(next, rest[..n]).live, k) {
        assert ms[..n + 1][1..] == rest[..n] && ms[..n + 1][0] == ms[0];
        assert MovedAll(h, ms[..n + 1]) == MovedAll(next, rest[..n]);
      }
      PrefixesAlwaysSafe(next, rest, k);
    }
  }

  lemma StartIsSafe(r: DeviceRecord)
    requires Pristine(r)
    ensures Inv(Start(r)) && Safe(Start(r))
  {
  }

  lemma RunPrefixIsMoves(digest: Digest, s: Tracked, ops: seq<EventOp>, n: nat)
    requires Aligned(s) && n <= |ops|
    ensures |MovesOf(digest, s.r, ops)| == |ops|
    ensures HoldersOf(Run(digest, s, ops[..n])) == MovedAll(HoldersOf(s), MovesOf(digest, s.r, ops)[..n])
  {
    RunIsMoves(digest, s, ops[..n]);
    MovesOfPrefix(digest, s.r, ops, n);
  }

  /** The run keeps slot k safe in every state it passes through. */
  ghost predicate SafeThroughout(digest: Digest, s: Tracked, ops: seq<EventOp>, k: nat) {
    forall n :: 0 <= n <= |ops| ==> SafeAt(Run(digest, s, ops[..n]).staged, Run(digest, s, ops[..n]).live, k)
  }

  lemma SafeThroughoutIff(digest: Digest, s: Tracked, ops: seq<EventOp>, k: nat)
    requires Aligned(s)
    ensures SafeThroughout(digest, s, ops, k) <==> AlwaysSafe(HoldersOf(s), MovesOf(digest, s.r, ops), k)
  {
    var h, ms := HoldersOf(s), MovesOf(digest, s.r, ops);
    MovesOfPrefix(digest, s.r, ops, 0);
    forall n | 0 <= n <= |ops|
      ensures HoldersOf(Run(digest, s, ops[..n])) == MovedAll(h, ms[..n])
    {
      RunPrefixIsMoves(digest, s, ops, n);
    }
    if SafeThroughout(digest, s, ops, k) {
      forall n | 0 <= n <= |ms| ensures SafeAt(MovedAll(h, ms[..n]).staged, MovedAll(h, ms[..n]).live, k) {
        assert SafeAt(Run(digest, s, ops[..n]).staged, Run(digest, s, ops[..n]).live, k);
      }
      PrefixesAlwaysSafe(h, ms, k);
    }
    if AlwaysSafe(h, ms, k) {
      forall n | 0 <= n <= |ops| ensures SafeAt(Run(digest, s, ops[..n]).staged, Run(digest, s, ops[..n]).live, k) {
        AlwaysSafePrefix(h, ms, k, n);
      }
    }
  }

  lemma StepSafeAtIff(digest: Digest, s: Tracked, op: EventOp, k: nat)
    requires Inv(s) && SafeAt(s.staged, s.live, k)
    ensures SafeAt(TrackedStep(digest, s, op).staged, TrackedStep(digest, s, op).live, k)
       <==> !(MoveOf(s.r, op, Step(digest, s.r, op)) == Claim(k) && Owned(s.live, k))
  {
    StepIsMove(digest, s, op);
    MoveSafeAtIff(HoldersOf(s), MoveOf(s.r, op, Step(digest, s.r, op)), k);
  }

  /** The guard on slot k lets a new event in although a record is deployed there: the name is
      usable, the staged slot is free, the deployed entry carries the slot's placeholder name,
      which the guard takes for a removed record, and no slot before it is available. */
  predicate SlipsPast(r: DeviceRecord, rawName: string, k: nat) {
    var name := Strip(rawName);
    && name != "" && (forall i :: 0 <= i < |r.commands| ==> !Taken(r.commands, i, name))
    && k < |r.commands| && IsDefault(r.commands[k], k)
    && k < |r.deployed| && Strip(r.deployed[k].name) == PlaceholderName(k)
    && forall i :: 0 <= i < k ==> !Available(r.commands, r.deployed, i)
  }

  /** Where the deployed entry has a name, that is when the allocator answers slot k. */
  lemma AllocatedIff(r: DeviceRecord, rawName: string, k: nat)
    requires k < |r.deployed| && Strip(r.deployed[k].name) != ""
    ensures AllocateAt(r.commands, r.deployed, rawName) == Allocated(k) <==> SlipsPast(r, rawName, k)
  {
    if SlipsPast(r, rawName, k) {
      RightAnswerIsUnique(r.commands, r.deployed, rawName, AllocateAt(r.commands, r.deployed, rawName), Allocated(k));
    }
  }

  /** Whether slot k has an event's record on the hub, followed from call to call: a deploy puts
      a configured slot there; a reconcile that removes its record and a clearing take it away. */
  predicate OnHub(r: DeviceRecord, op: EventOp, k: nat, before: bool) {
    match op
    case OpFollow(es, _) => before && Remove(k + 1) !in es
    case OpSync(_, _) => Configured(r.commands, k)
    case OpDisown => false
    case _ => before
  }

  /** No call of the run slips past the guard into slot k while an event's record is there. */
  predicate NeverSlips(digest: Digest, r: DeviceRecord, ops: seq<EventOp>, k: nat, onHub: bool)
    decreases ops
  {
    ops == [] || (
      && !(ops[0].OpAllocate? && onHub && SlipsPast(r, ops[0].name, k))
      && NeverSlips(digest, Step(digest, r, ops[0]), ops[1..], k, OnHub(r, ops[0], k, onHub)))
  }

  lemma SyncDeploysAny(digest: Digest, r: DeviceRecord, id: int, port: int, k: nat)
    requires EventsValid(r) && Configured(r.commands, k)
    ensures Step(digest, r, OpSync(id, port)).deployed != []
  {
    SyncStepIs(digest, r, id, port);
    SyncDeploysConfigured(digest, r, k, id, port);
  }

  /** A staged slot is owned exactly when it is configured. */
  lemma StagedIsConfigured(t: Tables, staged: Owners, live: Owners, k: nat)
    requires Fits(t, staged, live) && k < |staged|
    ensures Owned(staged, k) <==> Configured(t.commands, k)
  {
  }

  lemma SyncedIsOnHub(digest: Digest, s: Tracked, id: int, port: int, k: nat)
    requires Inv(s) && k < |s.staged|
    ensures Owned(TrackedStep(digest, s, OpSync(id, port)).live, k) <==> Configured(s.r.commands, k)
  {
    StagedIsConfigured(Tables(s.r.commands, s.r.deployed), s.staged, s.live, k);
    if Configured(s.r.commands, k) { SyncDeploysAny(digest, s.r, id, port, k); }
    SyncMoves(digest, s, id, port, k);
  }

  lemma SyncMoves(digest: Digest, s: Tracked, id: int, port: int, k: nat)
    ensures Owned(TrackedStep(digest, s, OpSync(id, port)).live, k)
       <==> Owned(s.staged, k) && Step(digest, s.r, OpSync(id, port)).deployed != []
  {
    SyncIsMove(digest, s, id, port);
  }

  lemma FollowedIsOnHub(digest: Digest, s: Tracked, es: seq<Edit>, port: int, k: nat)
    requires Aligned(s) && |s.live| <= |s.staged|
    ensures Owned(TrackedStep(digest, s, OpFollow(es, port)).live, k) <==> Owned(s.live, k) && Remove(k + 1) !in es
  {
    if k < |s.live| { EditsFree(s.live, |s.staged|, es, k); }
  }

  lemma StepIsOnHub(digest: Digest, s: Tracked, op: EventOp, k: nat)
    requires Inv(s) && k < |s.staged|
    ensures Owned(TrackedStep(digest, s, op).live, k) <==> OnHub(s.r, op, k, Owned(s.live, k))
  {
    match op
    case OpFollow(es, port) => FollowedIsOnHub(digest, s, es, port, k);
    case OpSync(id, port) => SyncedIsOnHub(digest, s, id, port, k);
    case OpAllocate(_) =>
    case OpReset(_) =>
    case OpSetAction(_, _, _) =>
    case OpSetLongPress(_, _) =>
    case OpDisown =>
  }

  /** A call slips past the guard exactly when it claims the slot of an event on the hub. */
  lemma StepSlipsIff(digest: Digest, s: Tracked, op: EventOp, k: nat)
    requires Inv(s) && Owned(s.live, k)
    ensures MoveOf(s.r, op, Step(digest, s.r, op)) == Claim(k) <==> op.OpAllocate? && SlipsPast(s.r, op.name, k)
  {
    if op.OpAllocate? {
      assert IsTidy(s.r.deployed[k].name);
      AllocatedIff(s.r, op.name, k);
    }
  }

  /** No move of the run claims slot k while its event is on the hub. */
  predicate NeverClaims(h: Holders, ms: seq<Move>, k: nat)
    decreases ms
  {
    ms == [] || (!(ms[0] == Claim(k) && Owned(h.live, k)) && NeverClaims(Moved(h, ms[0]), ms[1..], k))
  }

  lemma {:induction false} AlwaysSafeIff(h: Holders, ms: seq<Move>, k: nat)
    requires Proper(h) && SafeAt(h.staged, h.live, k)
    ensures AlwaysSafe(h, ms, k) <==> NeverClaims(h, ms, k)
    decreases ms
  {
    if ms != [] {
      var next := Moved(h, ms[0]);
      MoveKeepsProper(h, ms[0]);
      MoveSafeAtIff(h, ms[0], k);
      if SafeAt(next.staged, next.live, k) { AlwaysSafeIff(next, ms[1..], k); }
    }
  }

  lemma ClaimsHead(h: Holders, m: Move, ms: seq<Move>, k: nat)
    ensures NeverClaims(h, [m] + ms, k) <==> !(m == Claim(k) && Owned(h.live, k)) && NeverClaims(Moved(h, m), ms, k)
  {
    assert ([m] + ms)[1..] == ms;
  }

  lemma {:induction false} NeverClaimsIff(digest: Digest, s: Tracked, ops: seq<EventOp>, k: nat)
    requires Inv(s) && k < |s.staged|
    ensures NeverClaims(HoldersOf(s), MovesOf(digest, s.r, ops), k)
       <==> NeverSlips(digest, s.r, ops, k, Owned(s.live, k))
    decreases ops
  {
    if ops != [] {
      var next, m := FirstMove(digest, s, ops);
      if Owned(s.live, k) { StepSlipsIff(digest, s, ops[0], k); }
      StepIsOnHub(digest, s, ops[0], k);
      StepKeepsInv(digest, s, ops[0]);
      ClaimsHead(HoldersOf(s), m, MovesOf(digest, next.r, ops[1..]), k);
      NeverClaimsIff(digest, next, ops[1..], k);
    }
  }

  /** Over a whole run from a fresh record, the slot of a deployed event is never given to
      another event if and only if no call slips past the guard while that event is on the hub;
      the right-hand side is about records and calls only, and can be checked before each. */
  lemma SlotIsReusedIff(digest: Digest, r: DeviceRecord, ops: seq<EventOp>, k: nat)
    requires Pristine(r) && k < |r.commands|
    ensures SafeThroughout(digest, Start(r), ops, k) <==> NeverSlips(digest, r, ops, k, false)
  {
    StartIsSafe(r);
    SafeThroughoutIff(digest, Start(r), ops, k);
    AlwaysSafeIff(HoldersOf(Start(r)), MovesOf(digest, r, ops), k);
    NeverClaimsIff(digest, Start(r), ops, k);
  }

  /** An allocation that gives slot k away gets past the guard only because the deployed entry
      carries the slot's placeholder name, which the guard takes for a removed record. */
  lemma ReusedSlotIsMimicked(digest: Digest, s: Tracked, name: string, k: nat)
    requires Inv(s) && AllocateAt(s.r.commands, s.r.deployed, name) == Allocated(k) && Owned(s.live, k)
    ensures k < |s.r.deployed| && s.r.deployed[k].name == PlaceholderName(k)
    ensures var after := TrackedStep(digest, s, OpAllocate(name)); !SafeAt(after.staged, after.live, k)
  {
    GuardMissesMimics(Tables(s.r.commands, s.r.deployed), s.staged, s.live, name);
    assert s.live[k].value < s.next;
  }

  // ------------------------------------------------ avoiding placeholders

  lemma NewSlotIsPlain(t: Tables, staged: Owners, live: Owners, name: string, owner: nat, k: nat)
    requires Fits(t, staged, live) && PlainAt(t.commands, staged, k)
    requires AllocateAt(t.commands, t.deployed, name) == Allocated(k) ==> Strip(name) != PlaceholderName(k)
    ensures var answer := AllocateAt(t.commands, t.deployed, name);
      answer.Allocated? ==>
        PlainAt(t.commands[answer.index := NewEventSlot(Strip(name))], staged[answer.index := Some(owner)], k)
  {
    assert NewEventSlot(Strip(name)).name == Strip(name);
  }

  ghost predicate Plain(s: Tracked, k: nat) { PlainTables(Tables(s.r.commands, s.r.deployed), s.staged, s.live, k) }

  lemma FollowedIsPlain(t: Tables, es: seq<Edit>, staged: Owners, live: Owners, k: nat,
      after: Tables, staged': Owners, live': Owners)
    requires Fits(t, staged, live) && PlainTables(t, staged, live, k)
    requires forall j :: 0 <= j < |es| ==> EditAvoids(es[j], k)
    requires after == ApplyEdits(t, es)
    requires staged' == AfterEdits(staged, |t.commands|, es) && live' == AfterEdits(live, |t.commands|, es)
    ensures PlainTables(after, staged', live', k)
  {
    EditsKeepPlain(t, es, staged, live, k);
  }

  lemma FollowKeepsPlain(digest: Digest, s: Tracked, es: seq<Edit>, port: int, k: nat)
    requires Fits(Tables(s.r.commands, s.r.deployed), s.staged, s.live) && Plain(s, k)
    requires forall j :: 0 <= j < |es| ==> EditAvoids(es[j], k)
    ensures Plain(TrackedStep(digest, s, OpFollow(es, port)), k)
  {
    var after := TrackedStep(digest, s, OpFollow(es, port));
    FollowTables(digest, s.r, es, port);
    FollowedIsPlain(Tables(s.r.commands, s.r.deployed), es, s.staged, s.live, k,
                    Tables(after.r.commands, after.r.deployed), after.staged, after.live);
  }

  lemma SyncKeepsPlain(digest: Digest, s: Tracked, id: int, port: int, k: nat)
    requires PlainAt(s.r.commands, s.staged, k)
    ensures Plain(TrackedStep(digest, s, OpSync(id, port)), k)
  {
    SyncedTables(digest, s.r, id, port);
  }

  lemma HomeAssistantEditKeepsPlain(digest: Digest, s: Tracked, op: EventOp, k: nat)
    requires Plain(s, k) && (op.OpSetAction? || op.OpSetLongPress?)
    ensures Plain(TrackedStep(digest, s, op), k)
  {
  }

  lemma AllocateKeepsPlain(digest: Digest, s: Tracked, name: string, k: nat)
    requires Fits(Tables(s.r.commands, s.r.deployed), s.staged, s.live) && Plain(s, k)
    requires AvoidsAt(s.r, OpAllocate(name), k)
    ensures Plain(TrackedStep(digest, s, OpAllocate(name)), k)
  {
    NewSlotIsPlain(Tables(s.r.commands, s.r.deployed), s.staged, s.live, name, s.next, k);
  }

  lemma ResetKeepsPlain(digest: Digest, s: Tracked, i: int, k: nat)
    requires Fits(Tables(s.r.commands, s.r.deployed), s.staged, s.live) && Plain(s, k)
    ensures Plain(TrackedStep(digest, s, OpReset(i)), k)
  {
    FreedSlotFits(Tables(s.r.commands, s.r.deployed), s.staged, s.live, i);
  }

  lemma StepKeepsPlain(digest: Digest, s: Tracked, op: EventOp, k: nat)
    requires Inv(s) && AvoidsAt(s.r, op, k) && Plain(s, k)
    ensures Plain(TrackedStep(digest, s, op), k)
  {
    match op
    case OpAllocate(name) => AllocateKeepsPlain(digest, s, name, k);
    case OpReset(i) => ResetKeepsPlain(digest, s, i, k);
    case OpFollow(es, port) => FollowKeepsPlain(digest, s, es, port, k);
    case OpSync(id, port) => SyncKeepsPlain(digest, s, id, port, k);
    case OpDisown =>
    case _ => HomeAssistantEditKeepsPlain(digest, s, op, k);
  }

  ghost predicate RunAvoidsAt(digest: Digest, r: DeviceRecord, ops: seq<EventOp>, k: nat)
    decreases ops
  {
    ops == [] || (AvoidsAt(r, ops[0], k) && RunAvoidsAt(digest, Step(digest, r, ops[0]), ops[1..], k))
  }

  lemma StepKeepsSafeAt(digest: Digest, s: Tracked, op: EventOp, k: nat)
    requires Inv(s) && SafeAt(s.staged, s.live, k) && Plain(s, k)
    ensures SafeAt(TrackedStep(digest, s, op).staged, TrackedStep(digest, s, op).live, k)
  {
    StepSafeAtIff(digest, s, op, k);
    if op.OpAllocate? { GuardMissesMimics(Tables(s.r.commands, s.r.deployed), s.staged, s.live, op.name); }
  }

  lemma {:induction false} AvoidingRunIsSafe(digest: Digest, s: Tracked, ops: seq<EventOp>, k: nat)
    requires Inv(s) && SafeAt(s.staged, s.live, k) && RunAvoidsAt(digest, s.r, ops, k)
    requires Plain(s, k)
    ensures Inv(Run(digest, s, ops))
    ensures AlwaysSafe(HoldersOf(s), MovesOf(digest, s.r, ops), k)
    ensures SafeAt(Run(digest, s, ops).staged, Run(digest, s, ops).live, k)
    decreases ops
  {
    if ops != [] {
      StepKeepsInv(digest, s, ops[0]);
      StepKeepsPlain(digest, s, ops[0], k);
      StepKeepsSafeAt(digest, s, ops[0], k);
      StepIsMove(digest, s, ops[0]);
      AvoidingRunIsSafe(digest, TrackedStep(digest, s, ops[0]), ops[1..], k);
    }
  }

  /** A slot for which no event and no rename takes the slot's placeholder name is never given
      away while its event is deployed, whatever happens to the other slots. */
  lemma AvoidedSlotIsNotReused(digest: Digest, r: DeviceRecord, ops: seq<EventOp>, k: nat)
    requires Pristine(r) && RunAvoidsAt(digest, r, ops, k)
    ensures SafeThroughout(digest, Start(r), ops, k)
    ensures var s := Run(digest, Start(r), ops); Inv(s) && SafeAt(s.staged, s.live, k)
  {
    StartIsSafe(r);
    AvoidingRunIsSafe(digest, Start(r), ops, k);
    SafeThroughoutIff(digest, Start(r), ops, k);
  }

  lemma {:induction false} RunKeepsInv(digest: Digest, s: Tracked, ops: seq<EventOp>)
    requires Inv(s)
    ensures Inv(Run(digest, s, ops))
    decreases ops
  {
    if ops != [] {
      StepKeepsInv(digest, s, ops[0]);
      RunKeepsInv(digest, TrackedStep(digest, s, ops[0]), ops[1..]);
    }
  }

  /** When no slot is so named at all, no deployed slot is reused. */
  lemma NoDeployedSlotIsReused(digest: Digest, r: DeviceRecord, ops: seq<EventOp>)
    requires Pristine(r) && forall k :: RunAvoidsAt(digest, r, ops, k)
    ensures Inv(Run(digest, Start(r), ops)) && Safe(Run(digest, Start(r), ops))
  {
    StartIsSafe(r);
    RunKeepsInv(digest, Start(r), ops);
    forall k: nat ensures SafeAt(Run(digest, Start(r), ops).staged, Run(digest, Start(r), ops).live, k) {
      AvoidedSlotIsNotReused(digest, r, ops, k);
    }
    SafeIsSafeEverywhere(Run(digest, Start(r), ops));
  }

  // ------------------------------------------- where the guard falls short

  /** Four calls that reach such a state: an event named like its own slot. */
  function MimicRun(): (ops: seq<EventOp>)
    ensures |ops| == 4
  {
    [OpAllocate("Command 1"), OpSync(7, 8060), OpReset(0), OpAllocate("Lights")]
  }

  lemma EmptyTableAllocatesFirst(commands: seq<Slot>, deployed: seq<Slot>, name: string)
    requires IsTidy(name) && |commands| > 0
    requires forall i :: 0 <= i < |commands| ==> IsDefault(commands[i], i)
    requires deployed == [] || deployed[0].name == PlaceholderName(0)
    ensures AllocateAt(commands, deployed, name) == Allocated(0)
  {
    PlaceholderNameIsTidy(0);
    assert Available(commands, deployed, 0);
    assert forall i :: 0 <= i < |commands| ==> !Taken(commands, i, name);
  }

  lemma SyncDeploysConfigured(digest: Digest, r: DeviceRecord, i: nat, id: int, port: int)
    requires EventsValid(r) && i < |r.commands| && !IsDefault(r.commands[i], i)
    ensures Sync(digest, r, id, port).deployed == r.commands
    ensures Sync(digest, r, id, port).commands == r.commands
  {
    var counted := ConfiguredFlags(r.commands);
    assert EventShaped(r.commands[i], i);
    ShapedSlots(r.commands[i], i);
    CountedUnlessOnlyLongPress(r.commands[i], i);
    assert counted[i];
    CountTrueUpdate(counted, i, false);
  }

  lemma FourSteps(digest: Digest, s: Tracked, ops: seq<EventOp>, s1: Tracked, s2: Tracked, s3: Tracked, s4: Tracked)
    requires |ops| == 4
    requires s1 == TrackedStep(digest, s, ops[0]) && s2 == TrackedStep(digest, s1, ops[1])
    requires s3 == TrackedStep(digest, s2, ops[2]) && s4 == TrackedStep(digest, s3, ops[3])
    ensures Run(digest, s, ops) == s4
  {
    var a, b, c := ops[1..], ops[2..], ops[3..];
    assert a[1..] == b && b[1..] == c && c[1..] == [];
    assert a[0] == ops[1] && b[0] == ops[2] && c[0] == ops[3];
    assert Run(digest, s3, c) == Run(digest, s4, []);
    assert Run(digest, s2, b) == Run(digest, s3, c);
    assert Run(digest, s1, a) == Run(digest, s2, b);
  }

  lemma FreeingEmptiesTable(base: seq<Slot>, r: DeviceRecord, name: string)
    requires |base| > 0 && IsDefault(base[0], 0)
    requires r.commands == base[0 := NewEventSlot(name)]
    ensures Reset(r, 0) == r.(commands := base)
  {
    assert !r.commands[0].favorite;
    assert base[0 := NewEventSlot(name)][0 := base[0]] == base;
  }

  /** Only slot 0 is configured, by event 0, under the slot's placeholder name. */
  ghost predicate OneMimic(s: Tracked, base: seq<Slot>) {
    && |base| > 0 && (forall i :: 0 <= i < |base| ==> IsDefault(base[i], i))
    && s.r.commands == base[0 := NewEventSlot(PlaceholderName(0))]
    && |s.staged| == |base| && s.staged[0] == Some(0) && s.next == 1
  }

  lemma AllocateMimic(digest: Digest, r: DeviceRecord)
    requires Pristine(r)
    ensures OneMimic(TrackedStep(digest, Start(r), OpAllocate("Command 1")), r.commands)
    ensures EventsValid(TrackedStep(digest, Start(r), OpAllocate("Command 1")).r)
  {
    assert PlaceholderName(0) == "Command 1" by { assert Decimal(1) == "1"; }
    StripTrimmed("Command 1");
    EmptyTableAllocatesFirst(r.commands, [], "Command 1");
    AllocateKeepsValid(r, "Command 1");
  }

  lemma TrackedSync(digest: Digest, s: Tracked, id: int, port: int)
    requires Step(digest, s.r, OpSync(id, port)).deployed != []
    ensures TrackedStep(digest, s, OpSync(id, port)) == s.(r := Step(digest, s.r, OpSync(id, port)), live := s.staged)
  {
  }

  lemma SyncMimic(digest: Digest, s: Tracked, base: seq<Slot>)
    requires OneMimic(s, base) && EventsValid(s.r)
    ensures var after := TrackedStep(digest, s, OpSync(7, 8060));
      && OneMimic(after, base) && after.live == s.staged && after.r.deployed == s.r.commands
  {
    MimicIsConfigured(s.r.commands, base);
    SyncDeploysConfigured(digest, s.r, 0, 7, 8060);
    SyncStepIs(digest, s.r, 7, 8060);
    SyncedTables(digest, s.r, 7, 8060);
    TrackedSync(digest, s, 7, 8060);
    MimicStays(s, TrackedStep(digest, s, OpSync(7, 8060)), base);
  }

  lemma MimicStays(s: Tracked, after: Tracked, base: seq<Slot>)
    requires OneMimic(s, base)
    requires after.r.commands == s.r.commands && after.staged == s.staged && after.next == s.next
    ensures OneMimic(after, base)
  {
  }

  lemma MimicIsConfigured(commands: seq<Slot>, base: seq<Slot>)
    requires |base| > 0 && commands == base[0 := NewEventSlot(PlaceholderName(0))]
    ensures |commands| > 0 && !IsDefault(commands[0], 0)
  {
    assert !commands[0].favorite && DefaultSlot(0).favorite;
  }

  lemma FreeMimic(digest: Digest, s: Tracked, base: seq<Slot>)
    requires OneMimic(s, base)
    ensures var after := TrackedStep(digest, s, OpReset(0));
      && after.r == s.r.(commands := base) && after.live == s.live && after.next == 1
      && |after.staged| == |base|
  {
    FreeingEmptiesTable(base, s.r, PlaceholderName(0));
  }

  lemma ReuseMimic(digest: Digest, s: Tracked, base: seq<Slot>)
    requires |base| > 0 && forall i :: 0 <= i < |base| ==> IsDefault(base[i], i)
    requires s.r.commands == base && |s.r.deployed| > 0 && s.r.deployed[0].name == PlaceholderName(0)
    requires |s.staged| == |base| && s.next == 1
    ensures var after := TrackedStep(digest, s, OpAllocate("Lights"));
      after.live == s.live && |after.staged| == |base| && after.staged[0] == Some(1)
  {
    StripTrimmed("Lights");
    EmptyTableAllocatesFirst(base, s.r.deployed, "Lights");
  }

  /** After that run slot 0 stages event 1 while event 0 is still deployed there. */
  lemma MimicRunReusesDeployedSlot(digest: Digest, r: DeviceRecord)
    requires Pristine(r) && |r.commands| > 0
    ensures var s := Run(digest, Start(r), MimicRun());
            |s.staged| > 0 && |s.live| > 0 && s.staged[0] == Some(1) && s.live[0] == Some(0)
  {
    var s1 := TrackedStep(digest, Start(r), MimicRun()[0]);
    AllocateMimic(digest, r);
    var s2 := TrackedStep(digest, s1, MimicRun()[1]);
    SyncMimic(digest, s1, r.commands);
    var s3 := TrackedStep(digest, s2, MimicRun()[2]);
    FreeMimic(digest, s2, r.commands);
    var s4 := TrackedStep(digest, s3, MimicRun()[3]);
    ReuseMimic(digest, s3, r.commands);
    FourSteps(digest, Start(r), MimicRun(), s1, s2, s3, s4);
  }

  lemma MimicRunIsUnsafe(digest: Digest, r: DeviceRecord)
    requires Pristine(r) && |r.commands| > 0
    ensures !SafeThroughout(digest, Start(r), MimicRun(), 0)
  {
    var ops := MimicRun();
    MimicRunReusesDeployedSlot(digest, r);
    assert ops[..4] == ops;
  }

  /** In particular on the reserved record as it is created. */
  lemma FirstEventSlotCanBeReused(digest: Digest, r: DeviceRecord)
    requires r == EmptyEventsRecord
    ensures !SafeThroughout(digest, Start(r), MimicRun(), 0)
  {
    EmptyRecordIsPristine(r);
    MimicRunIsUnsafe(digest, r);
  }
}
