/** What the Wifi Events endpoints promise: counts, the hash, and the reconciles
    that follow edits made on the hub. */
module WifiEventLaws {
  import opened Text
  import opened Slots
  import opened Records
  import opened WifiEvents

  function ConfiguredCount(r: DeviceRecord): nat { CountTrue(ConfiguredFlags(r.commands)) }
  function ListedCount(r: DeviceRecord): nat { CountTrue(ListedFlags(r.commands)) }

  /** In every valid record the event list is as long as the configured count, although
      the two compare slots under different long-press rules. */
  lemma ListingHasConfiguredLength(r: DeviceRecord)
    requires EventsValid(r)
    ensures ListedCount(r) == ConfiguredCount(r)
  {
    ShapedTables(r.commands);
    ListingMatchesCount(r.commands);
  }

  lemma ListedAfterWrite(slots: seq<Slot>, i: nat, s: Slot)
    requires i < |slots|
    ensures CountTrue(ListedFlags(slots[i := s]))
         == CountTrue(ListedFlags(slots)) - (if IsDefault(slots[i], i) then 0 else 1)
                                          + (if IsDefault(s, i) then 0 else 1)
  {
    assert ListedFlags(slots[i := s]) == ListedFlags(slots)[i := !IsDefault(s, i)];
    CountTrueUpdate(ListedFlags(slots), i, !IsDefault(s, i));
  }

  lemma AllocateCountsOneMore(r: DeviceRecord, name: string, k: nat)
    requires EventsValid(r) && EventsValid(Allocate(r, name))
    requires AllocateAt(r.commands, r.deployed, name) == Allocated(k)
    ensures ConfiguredCount(Allocate(r, name)) == ConfiguredCount(r) + 1
  {
    ListedAfterWrite(r.commands, k, NewEventSlot(Strip(name)));
    ListingHasConfiguredLength(r);
    ListingHasConfiguredLength(Allocate(r, name));
  }

  /** A successful allocation adds one event at the answered index and moves nothing else. */
  lemma AllocateAddsOne(r: DeviceRecord, name: string)
    requires EventsValid(r)
    ensures var answer := AllocateAt(r.commands, r.deployed, name);
      var after := Allocate(r, name);
      && (answer.Refused? ==> after == r)
      && (answer.Allocated? ==>
            && ConfiguredCount(after) == ConfiguredCount(r) + 1
            && IsDefault(r.commands[answer.index], answer.index)
            && !IsDefault(after.commands[answer.index], answer.index)
            && after.commands[answer.index].name == Strip(name)
            && forall j :: 0 <= j < |r.commands| && j != answer.index ==> after.commands[j] == r.commands[j])
  {
    var answer := AllocateAt(r.commands, r.deployed, name);
    if answer.Allocated? {
      AllocateKeepsValid(r, name);
      AllocateCountsOneMore(r, name, answer.index);
    }
  }

  lemma ResetCountsOneLess(r: DeviceRecord, i: int)
    requires EventsValid(r) && EventsValid(Reset(r, i)) && Configured(r.commands, i)
    ensures ConfiguredCount(Reset(r, i)) == ConfiguredCount(r) - 1
  {
    ListedAfterWrite(r.commands, i, DefaultSlot(i));
    ListingHasConfiguredLength(r);
    ListingHasConfiguredLength(Reset(r, i));
  }

  /** Freeing a configured slot takes one event away, in place. */
  lemma ResetRemovesOne(digest: Digest, r: DeviceRecord, i: int)
    requires EventsValid(r)
    ensures Configured(r.commands, i) ==>
      && ConfiguredCount(Reset(r, i)) == ConfiguredCount(r) - 1
      && IsDefault(Reset(r, i).commands[i], i)
      && forall j :: 0 <= j < |r.commands| && j != i ==> Reset(r, i).commands[j] == r.commands[j]
    ensures !Configured(r.commands, i) ==> Reset(r, i) == r
  {
    if Configured(r.commands, i) {
      ResetKeepsValid(r, i);
      ResetCountsOneLess(r, i);
    }
  }

  /** Allocating and then freeing the slot restores the record. */
  lemma ResetUndoesAllocate(r: DeviceRecord, name: string)
    requires EventsValid(r)
    requires AllocateAt(r.commands, r.deployed, name).Allocated?
    ensures Reset(Allocate(r, name), AllocateAt(r.commands, r.deployed, name).index) == r
  {
    var k := AllocateAt(r.commands, r.deployed, name).index;
    assert r.commands[k := NewEventSlot(Strip(name))][k := DefaultSlot(k)] == r.commands;
  }

  // --------------------------------------------------------------- hash

  lemma SameOnHubSameHash(digest: Digest, r: DeviceRecord, commands: seq<Slot>, port: int)
    requires EventsValid(r) && EventsValid(r.(commands := commands))
    requires forall i :: 0 <= i < |commands| ==> SameOnHub(r.commands[i], commands[i])
    ensures PayloadHash(digest, r.(commands := commands), port) == PayloadHash(digest, r, port)
  {
    PayloadHashOf(digest, r, port);
    PayloadHashOf(digest, r.(commands := commands), port);
    HashIgnoresHomeAssistantSide(digest, r.commands, commands, r.name, port,
                                 r.powerOn, r.powerOff, r.slotCount);
  }

  lemma WriteStaysOnHub(commands: seq<Slot>, i: nat, s: Slot)
    requires i < |commands| && SameOnHub(commands[i], s)
    ensures forall j :: 0 <= j < |commands| ==> SameOnHub(commands[j], commands[i := s][j])
  {
  }

  lemma ActionStaysOnHub(r: DeviceRecord, i: int, long: bool, action: RawAction)
    ensures var after := SetAction(r, i, long, action);
      && after == r.(commands := after.commands) && |after.commands| == |r.commands|
      && forall j :: 0 <= j < |r.commands| ==> SameOnHub(r.commands[j], after.commands[j])
  {
    if Configured(r.commands, i) {
      WriteStaysOnHub(r.commands, i, PutAction(r.commands[i], long, action));
    }
  }

  lemma LongPressStaysOnHub(r: DeviceRecord, i: int, enabled: bool)
    requires AllShaped(r.commands)
    ensures var after := SetLongPress(r, i, enabled);
      && after == r.(commands := after.commands) && |after.commands| == |r.commands|
      && forall j :: 0 <= j < |r.commands| ==> SameOnHub(r.commands[j], after.commands[j])
  {
    if Configured(r.commands, i) {
      assert EventShaped(r.commands[i], i);
      ShapedSlots(r.commands[i], i);
      WriteStaysOnHub(r.commands, i, r.commands[i].(longPress := enabled));
    }
  }

  /** Home-Assistant-side edits never move the hash, so they never flag a record
      out of step nor bring it back. */
  lemma HomeAssistantEditsKeepHash(digest: Digest, r: DeviceRecord, op: EventOp, port: int)
    requires EventsValid(r)
    requires op.OpSetAction? || op.OpSetLongPress?
    ensures PayloadHash(digest, Step(digest, r, op), port) == PayloadHash(digest, r, port)
    ensures InSync(digest, Step(digest, r, op), port) <==> InSync(digest, r, port)
  {
    var after := Step(digest, r, op);
    StepKeepsValid(digest, r, op);
    match op {
      case OpSetAction(i, long, action) => ActionStaysOnHub(r, i, long, action);
      case OpSetLongPress(i, enabled) => LongPressStaysOnHub(r, i, enabled);
    }
    SameOnHubSameHash(digest, r, after.commands, port);
    assert after.hash == r.hash;
  }

  /** Right after a sync the record reads in sync exactly when something was deployed. */
  lemma SyncSettlesStatus(digest: Digest, r: DeviceRecord, id: int, port: int)
    requires EventsValid(r)
    ensures InSync(digest, Sync(digest, r, id, port), port) <==> ConfiguredCount(r) > 0
  {
    var after := Sync(digest, r, id, port);
    SyncKeepsValid(digest, r, id, port);
    PayloadHashOf(digest, r, port);
    PayloadHashOf(digest, after, port);
    StripTrimmed("");
  }

  // --------------------------------------------------- following the hub

  /** Staged and deployed names agree on every index the snapshot covers. */
  predicate NamesAgree(t: Tables) {
    forall i :: 0 <= i < |t.commands| && i < |t.deployed| ==> t.commands[i].name == t.deployed[i].name
  }

  lemma {:induction false} EditsKeepAgreement(t: Tables, es: seq<Edit>)
    requires NamesAgree(t)
    ensures NamesAgree(ApplyEdits(t, es))
    decreases es
  {
    if es != [] {
      EditsKeepAgreement(ApplyEdit(t, es[0]), es[1..]);
    }
  }

  lemma {:induction false} NoChangeIsIdentity(t: Tables, es: seq<Edit>)
    requires !Changes(t, es)
    ensures ApplyEdits(t, es) == t
    decreases es
  {
    if es != [] {
      NoChangeIsIdentity(t, es[1..]);
    }
  }

  lemma FollowSettlesHash(digest: Digest, r: DeviceRecord, es: seq<Edit>, port: int)
    requires WellFormed(r) && Changes(Tables(r.commands, r.deployed), es)
    requires WellFormed(Follow(digest, r, es, port))
    ensures var after := Follow(digest, r, es, port);
      after.hash == if r.hash == "" then "" else PayloadHash(digest, after, port)
  {
    PayloadHashOf(digest, Follow(digest, r, es, port), port);
  }

  lemma StatusOfHash(digest: Digest, r: DeviceRecord, port: int)
    requires Strip(r.hash) == r.hash
    ensures InSync(digest, r, port) ==> r.hash != ""
    ensures r.hash == PayloadHash(digest, r, port) ==> InSync(digest, r, port)
  {
  }

  /** A reconcile that changed anything leaves the record reading in sync exactly when
      a hash had been deployed, whether or not every staged event had been. */
  lemma FollowKeepsSync(digest: Digest, r: DeviceRecord, es: seq<Edit>, port: int)
    requires EventsValid(r)
    ensures InSync(digest, r, port) ==> InSync(digest, Follow(digest, r, es, port), port)
    ensures Changes(Tables(r.commands, r.deployed), es)
        ==> (InSync(digest, Follow(digest, r, es, port), port) <==> r.hash != "")
  {
    if Changes(Tables(r.commands, r.deployed), es) {
      FollowIsValid(digest, r, es, port);
      FollowSettlesHash(digest, r, es, port);
      StatusOfHash(digest, r, port);
      StatusOfHash(digest, Follow(digest, r, es, port), port);
    }
  }

  lemma FollowIsValid(digest: Digest, r: DeviceRecord, es: seq<Edit>, port: int)
    requires EventsValid(r)
    ensures WellFormed(Follow(digest, r, es, port))
  {
    FollowKeepsValid(digest, r, es, port);
  }

  /** The reconciles keep staged and deployed names equal wherever both exist. */
  lemma FollowKeepsAgreement(digest: Digest, r: DeviceRecord, es: seq<Edit>, port: int)
    requires NamesAgree(Tables(r.commands, r.deployed))
    ensures var after := Follow(digest, r, es, port);
            NamesAgree(Tables(after.commands, after.deployed))
  {
    EditsKeepAgreement(Tables(r.commands, r.deployed), es);
  }

  // ------------------------------------------------------------ removals

  function Removals(ids: seq<int>): (es: seq<Edit>)
    ensures |es| == |ids|
    ensures forall k :: 0 <= k < |ids| ==> es[k] == Remove(ids[k])
  {
    seq(|ids|, k requires 0 <= k < |ids| => Remove(ids[k]))
  }

  /** The table after a set of removals, slot by slot. */
  predicate RemovedFrom(t: Tables, ids: set<int>, after: Tables) {
    var n := |t.commands|;
    && |after.commands| == n && |after.deployed| == |t.deployed|
    && (forall i :: 0 <= i < n ==> after.commands[i] == RemovedSlot(t.commands[i], i, n, ids))
    && (forall i :: 0 <= i < |t.deployed| ==> after.deployed[i] == RemovedEntry(t.deployed[i], i, n, ids))
  }

  function RemovedSlot(s: Slot, i: nat, n: nat, ids: set<int>): Slot {
    if i + 1 in ids then DefaultSlot(i) else if i + n + 1 in ids then ClearLongPress(s) else s
  }

  function RemovedEntry(s: Slot, i: nat, n: nat, ids: set<int>): Slot {
    if i < n && i + 1 in ids then s.(name := PlaceholderName(i)) else s
  }

  function IdSet(ids: seq<int>): set<int> { set id | id in ids }

  lemma RemoveOneSlot(t: Tables, done: set<int>, mid: Tables, id: int, i: nat)
    requires RemovedFrom(t, done, mid) && i < |t.commands|
    ensures ApplyEdit(mid, Remove(id)).commands[i] == RemovedSlot(t.commands[i], i, |t.commands|, done + {id})
  {
  }

  lemma RemoveOneEntry(t: Tables, done: set<int>, mid: Tables, id: int, i: nat)
    requires RemovedFrom(t, done, mid) && i < |t.deployed|
    ensures ApplyEdit(mid, Remove(id)).deployed[i] == RemovedEntry(t.deployed[i], i, |t.commands|, done + {id})
  {
  }

  lemma RemoveOne(t: Tables, done: set<int>, mid: Tables, id: int)
    requires RemovedFrom(t, done, mid)
    ensures RemovedFrom(t, done + {id}, ApplyEdit(mid, Remove(id)))
  {
    var n, ids, after := |t.commands|, done + {id}, ApplyEdit(mid, Remove(id));
    forall i | 0 <= i < n ensures after.commands[i] == RemovedSlot(t.commands[i], i, n, ids) {
      RemoveOneSlot(t, done, mid, id, i);
    }
    forall i | 0 <= i < |t.deployed| ensures after.deployed[i] == RemovedEntry(t.deployed[i], i, n, ids) {
      RemoveOneEntry(t, done, mid, id, i);
    }
  }

  lemma {:induction false} RemovalsFrom(t: Tables, done: set<int>, mid: Tables, ids: seq<int>)
    requires RemovedFrom(t, done, mid)
    ensures RemovedFrom(t, done + IdSet(ids), ApplyEdits(mid, Removals(ids)))
    decreases ids
  {
    if ids == [] {
      assert done + IdSet(ids) == done;
    } else {
      RemoveOne(t, done, mid, ids[0]);
      RemovalsFrom(t, done + {ids[0]}, ApplyEdit(mid, Remove(ids[0])), ids[1..]);
      assert Removals(ids)[1..] == Removals(ids[1..]);
      assert IdSet(ids) == {ids[0]} + IdSet(ids[1..]);
      assert done + {ids[0]} + IdSet(ids[1..]) == done + IdSet(ids);
    }
  }

  /** Removals act slot by slot on the set of removed ids. */
  lemma RemovalsBySet(t: Tables, ids: seq<int>)
    ensures RemovedFrom(t, IdSet(ids), ApplyEdits(t, Removals(ids)))
  {
    RemovalsFrom(t, {}, t, ids);
    assert {} + IdSet(ids) == IdSet(ids);
  }

  /** Order and repetition of the removed ids do not matter. */
  lemma RemovalsIgnoreOrder(t: Tables, a: seq<int>, b: seq<int>)
    requires IdSet(a) == IdSet(b)
    ensures ApplyEdits(t, Removals(a)) == ApplyEdits(t, Removals(b))
  {
    RemovalsBySet(t, a);
    RemovalsBySet(t, b);
    var ra, rb := ApplyEdits(t, Removals(a)), ApplyEdits(t, Removals(b));
    assert ra.commands == rb.commands;
    assert ra.deployed == rb.deployed;
  }

  /** Nothing left to remove: each id names a free slot with a placeholder record, a
      cleared flag, or nothing at all. */
  predicate NothingToRemove(t: Tables, ids: set<int>) {
    && (forall i :: 0 <= i < |t.commands| && i + 1 in ids ==>
          IsDefault(t.commands[i], i) && (i < |t.deployed| ==> t.deployed[i].name == PlaceholderName(i)))
    && (forall i :: 0 <= i < |t.commands| && i + |t.commands| + 1 in ids ==> !t.commands[i].longPress)
  }

  lemma {:induction false} NothingMeansNoChange(t: Tables, ids: seq<int>)
    requires NothingToRemove(t, IdSet(ids))
    ensures !Changes(t, Removals(ids))
    decreases ids
  {
    if ids != [] {
      var id := ids[0];
      assert id in IdSet(ids);
      assert Removals(ids)[1..] == Removals(ids[1..]);
      assert IdSet(ids[1..]) <= IdSet(ids);
      var n := |t.commands|;
      if 1 <= id <= n {
        assert IsDefault(t.commands[id - 1], id - 1);
        assert t.commands[id - 1 := DefaultSlot(id - 1)] == t.commands;
        assert SetName(t.deployed, id - 1, PlaceholderName(id - 1)) == t.deployed;
      } else if n < id <= 2 * n {
        assert (id - n - 1) + n + 1 in IdSet(ids);
        assert !t.commands[id - n - 1].longPress;
        assert t.commands[id - n - 1 := t.commands[id - n - 1]] == t.commands;
      }
      NothingMeansNoChange(t, ids[1..]);
    }
  }

  /** Applying the same removals again reports no change. */
  lemma RemovalsAreIdempotent(t: Tables, ids: seq<int>)
    ensures var after := ApplyEdits(t, Removals(ids));
            !Changes(after, Removals(ids)) && ApplyEdits(after, Removals(ids)) == after
  {
    RemovalsBySet(t, ids);
    var after := ApplyEdits(t, Removals(ids));
    NothingMeansNoChange(after, ids);
    NoChangeIsIdentity(after, Removals(ids));
  }

  // ------------------------------------------------------------- renames

  function Renames(m: seq<(int, string)>): (es: seq<Edit>)
    ensures |es| == |m|
    ensures forall k :: 0 <= k < |m| ==> es[k] == Rename(m[k].0, m[k].1)
  {
    seq(|m|, k requires 0 <= k < |m| => Rename(m[k].0, m[k].1))
  }

  /** The ids of a rename mapping are its keys, so they are pairwise distinct. */
  predicate DistinctIds(m: seq<(int, string)>) {
    forall j, k :: 0 <= j < k < |m| ==> m[j].0 != m[k].0
  }

  /** Every slot a listed rename names already carries the name, or is free. */
  predicate AlreadyNamed(t: Tables, m: seq<(int, string)>) {
    forall k :: 0 <= k < |m| ==> ApplyEdit(t, Rename(m[k].0, m[k].1)) == t
  }

  lemma {:induction false} AlreadyNamedNoChange(t: Tables, m: seq<(int, string)>)
    requires AlreadyNamed(t, m)
    ensures !Changes(t, Renames(m))
    decreases m
  {
    if m != [] {
      assert ApplyEdit(t, Rename(m[0].0, m[0].1)) == t;
      assert Renames(m)[1..] == Renames(m[1..]);
      AlreadyNamedNoChange(t, m[1..]);
    }
  }

  lemma RenameSticks(t: Tables, id: int, name: string)
    ensures var after := ApplyEdit(t, Rename(id, name));
            ApplyEdit(after, Rename(id, name)) == after
  {
  }

  /** Renaming another id leaves a settled rename settled. */
  lemma RenameIsLocal(t: Tables, id: int, name: string, other: int, otherName: string)
    requires id != other
    requires ApplyEdit(t, Rename(id, name)) == t
    ensures ApplyEdit(ApplyEdit(t, Rename(other, otherName)), Rename(id, name))
         == ApplyEdit(t, Rename(other, otherName))
  {
    var mid := ApplyEdit(t, Rename(other, otherName));
    var n := |t.commands|;
    if Strip(name) != "" && 1 <= id <= n && !IsDefault(t.commands[id - 1], id - 1) {
      assert ApplyEdit(t, Rename(id, name)).commands[id - 1].name == Strip(name);
      assert mid.commands[id - 1] == t.commands[id - 1];
      if id - 1 < |t.deployed| {
        assert ApplyEdit(t, Rename(id, name)).deployed[id - 1].name == Strip(name);
        assert mid.deployed[id - 1] == t.deployed[id - 1];
      }
      assert mid.commands[id - 1 := mid.commands[id - 1].(name := Strip(name))] == mid.commands;
      assert SetName(mid.deployed, id - 1, Strip(name)) == mid.deployed;
    }
  }

  lemma {:induction false} RenamesSettle(t: Tables, m: seq<(int, string)>)
    requires DistinctIds(m)
    ensures AlreadyNamed(ApplyEdits(t, Renames(m)), m)
  {
    if m != [] {
      var n := |m| - 1;
      var front := m[..n];
      RenamesSettle(t, front);
      EditsSnoc(t, Renames(front), Rename(m[n].0, m[n].1));
      assert Renames(m) == Renames(front) + [Rename(m[n].0, m[n].1)];
      var mid := ApplyEdits(t, Renames(front));
      var after := ApplyEdits(t, Renames(m));
      forall k | 0 <= k < |m| ensures ApplyEdit(after, Rename(m[k].0, m[k].1)) == after {
        if k < n {
          assert front[k] == m[k];
          RenameIsLocal(mid, m[k].0, m[k].1, m[n].0, m[n].1);
        } else {
          RenameSticks(mid, m[n].0, m[n].1);
        }
      }
    }
  }

  lemma {:induction false} EditsSnoc(t: Tables, es: seq<Edit>, e: Edit)
    ensures ApplyEdits(t, es + [e]) == ApplyEdit(ApplyEdits(t, es), e)
    decreases es
  {
    if es == [] {
      assert ([e])[1..] == [];
    } else {
      assert (es + [e])[1..] == es[1..] + [e];
      EditsSnoc(ApplyEdit(t, es[0]), es[1..], e);
    }
  }

  /** Applying the same renames again reports no change. */
  lemma RenamesAreIdempotent(t: Tables, m: seq<(int, string)>)
    requires DistinctIds(m)
    ensures !Changes(ApplyEdits(t, Renames(m)), Renames(m))
  {
    RenamesSettle(t, m);
    AlreadyNamedNoChange(ApplyEdits(t, Renames(m)), m);
  }
}
