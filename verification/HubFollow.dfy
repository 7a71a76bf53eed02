/** A live edit of the Wifi Events device on the hub, and the store that follows it: the
    renames and removals read off the edited bundle, and where they leave each slot. */
module HubFollow {
  import opened Text
  import opened Slots
  import opened WifiEvents
  import opened WifiEventLaws

  /** Command labels of the device in a bundle, by command id. */
  type LabelMap = map<int, string>

  /** `_collect_command_removals`: ids the edit dropped. */
  function CollectRemovals(baseline: LabelMap, edited: LabelMap): set<int> {
    baseline.Keys - edited.Keys
  }

  /** `_collect_short_command_renames`: ids whose label the edit changed. */
  function CollectRenames(baseline: LabelMap, edited: LabelMap): LabelMap {
    map id | id in edited && id in baseline && baseline[id] != edited[id] :: edited[id]
  }

  /** A mapping handed on pair by pair, in whatever order. */
  predicate Lists(m: seq<(int, string)>, renames: LabelMap) {
    && WifiEventLaws.DistinctIds(m)
    && (forall k :: 0 <= k < |m| ==> m[k].0 in renames && renames[m[k].0] == m[k].1)
    && (forall id :: id in renames ==> exists k :: 0 <= k < |m| && m[k].0 == id)
  }

  function OneRename(s: Slot, i: nat, name: string): Slot {
    if Strip(name) == "" || IsDefault(s, i) then s else s.(name := Strip(name))
  }

  /** What a list of renames makes of slot i: only a rename of its short id counts. */
  function RenamedSlot(s: Slot, i: nat, m: seq<(int, string)>): Slot
    decreases m
  {
    if m == [] then s else if m[0].0 == i + 1 then OneRename(s, i, m[0].1) else RenamedSlot(s, i, m[1..])
  }

  lemma {:induction false} NotRenamed(s: Slot, i: nat, m: seq<(int, string)>)
    requires forall k :: 0 <= k < |m| ==> m[k].0 != i + 1
    ensures RenamedSlot(s, i, m) == s
    decreases m
  {
    if m != [] { NotRenamed(s, i, m[1..]); }
  }

  lemma RenameOne(t: Tables, id: int, name: string, i: nat)
    requires i < |t.commands|
    ensures ApplyEdit(t, Rename(id, name)).commands[i]
         == if id == i + 1 then OneRename(t.commands[i], i, name) else t.commands[i]
  {
  }

  /** Renames act slot by slot. */
  lemma {:induction false} RenamesBySlot(t: Tables, m: seq<(int, string)>, i: nat)
    requires i < |t.commands| && WifiEventLaws.DistinctIds(m)
    ensures ApplyEdits(t, Renames(m)).commands[i] == RenamedSlot(t.commands[i], i, m)
    decreases m
  {
    if m != [] {
      assert Renames(m)[1..] == Renames(m[1..]);
      var mid := ApplyEdit(t, Rename(m[0].0, m[0].1));
      RenameOne(t, m[0].0, m[0].1, i);
      RenamesBySlot(mid, m[1..], i);
      if m[0].0 == i + 1 { NotRenamed(mid.commands[i], i, m[1..]); }
    }
  }

  lemma {:induction false} RenamedAt(s: Slot, i: nat, m: seq<(int, string)>, k: nat)
    requires k < |m| && m[k].0 == i + 1 && WifiEventLaws.DistinctIds(m)
    ensures RenamedSlot(s, i, m) == OneRename(s, i, m[k].1)
    decreases m
  {
    if k > 0 {
      assert m[0].0 != m[k].0;
      RenamedAt(s, i, m[1..], k - 1);
    }
  }

  lemma RenamedTo(s: Slot, i: nat, m: seq<(int, string)>, renames: LabelMap)
    requires Lists(m, renames)
    ensures RenamedSlot(s, i, m) == if i + 1 in renames then OneRename(s, i, renames[i + 1]) else s
  {
    if i + 1 in renames {
      var k :| 0 <= k < |m| && m[k].0 == i + 1;
      RenamedAt(s, i, m, k);
    } else {
      NotRenamed(s, i, m);
    }
  }

  /** The store after both reconciles, when its names matched the hub's labels before the
      edit: a dropped event's slot is free again, a kept event carries the edited label, and
      a free slot stays free. */
  lemma StoreFollowsHub(t: Tables, baseline: LabelMap, edited: LabelMap, m: seq<(int, string)>, ids: seq<int>, i: nat)
    requires Lists(m, CollectRenames(baseline, edited)) && IdSet(ids) == CollectRemovals(baseline, edited)
    requires i < |t.commands| && i + 1 in baseline
    requires !IsDefault(t.commands[i], i) ==> baseline[i + 1] == t.commands[i].name
    requires i + 1 in edited ==> Strip(edited[i + 1]) == edited[i + 1] != ""
    ensures var after := ApplyEdits(ApplyEdits(t, Renames(m)), Removals(ids)).commands[i];
      && (i + 1 !in edited ==> IsDefault(after, i))
      && (i + 1 in edited && !IsDefault(t.commands[i], i) ==> after.name == edited[i + 1])
      && (i + 1 in edited && IsDefault(t.commands[i], i) ==> IsDefault(after, i))
  {
    var mid := ApplyEdits(t, Renames(m));
    RenamesBySlot(t, m, i);
    RenamedTo(t.commands[i], i, m, CollectRenames(baseline, edited));
    RemovalsBySet(mid, ids);
    assert ApplyEdits(mid, Removals(ids)).commands[i]
        == RemovedSlot(mid.commands[i], i, |t.commands|, IdSet(ids));
  }
}
