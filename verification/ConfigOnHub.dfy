/** What a configuration means on the hub, slot field by slot field: the laws of the expansion
    a sync aims at, and of the hub after a complete in-place sync. */
module ConfigOnHub {
  import opened Text
  import opened Slots
  import CommandIds
  import opened InplacePlan
  import opened InplaceRun
  import opened InplaceSync
  import opened WifiConfig

  // ------------------------------------------------- what a slot asks for

  predicate SelectsInput(s: Slot, k: Lookup) {
    Strip(s.inputActivity) != "" && k.parse(Strip(s.inputActivity)).Some?
  }

  predicate NamesInput(s: Slot, a: int, k: Lookup) {
    Strip(s.inputActivity) != "" && k.parse(Strip(s.inputActivity)) == Some(a)
  }

  predicate Lists(s: Slot, a: int, k: Lookup) {
    exists j :: 0 <= j < |s.activities| && k.parse(s.activities[j]) == Some(a)
  }

  predicate HasButton(s: Slot) { Strip(s.hardButton) != "" }

  /** The slot's button is b; a name without a code, or with code zero, is no button. */
  predicate Presses(s: Slot, b: int, k: Lookup) {
    var name := Lower(Strip(s.hardButton));
    name != "" && name in k.codes && k.codes[name] == b && b != 0
  }

  /** The slot brings the device into the activity. */
  predicate JoinsIn(s: Slot, a: int, k: Lookup) {
    NamesInput(s, a, k) || ((s.favorite || HasButton(s)) && Lists(s, a, k))
  }

  predicate FavoriteIn(s: Slot, a: int, k: Lookup) { s.favorite && Lists(s, a, k) }

  predicate PressesIn(s: Slot, b: int, a: int, k: Lookup) { Presses(s, b, k) && Lists(s, a, k) }

  predicate SomeJoins(slots: seq<Slot>, a: int, k: Lookup) {
    exists i :: 0 <= i < |slots| && JoinsIn(slots[i], a, k)
  }

  predicate SomePresses(slots: seq<Slot>, b: int, a: int, k: Lookup) {
    exists i :: 0 <= i < |slots| && PressesIn(slots[i], b, a, k)
  }

  /** Slot i is the last that claims the button for the activity. */
  predicate LastPress(slots: seq<Slot>, i: nat, b: int, a: int, k: Lookup) {
    && i < |slots| && PressesIn(slots[i], b, a, k)
    && forall j :: i < j < |slots| ==> !PressesIn(slots[j], b, a, k)
  }

  /** Slot i alone claims the button, in whatever activities. */
  predicate OnlyPress(slots: seq<Slot>, i: nat, b: int, k: Lookup) {
    && i < |slots| && Presses(slots[i], b, k)
    && forall j :: 0 <= j < |slots| && j != i ==> !Presses(slots[j], b, k)
  }

  /** Slot i is the first that names the activity as input. */
  predicate FirstInput(slots: seq<Slot>, i: nat, a: int, k: Lookup) {
    && i < |slots| && NamesInput(slots[i], a, k)
    && forall j :: 0 <= j < i ==> !NamesInput(slots[j], a, k)
  }

  /** What a press of slot i's button runs: its short command, and its long one if it has one. */
  predicate RunsSlot(row: KeyRow, s: Slot, i: nat, n: nat) {
    row.command == i + 1 && row.long == if s.longPress then Some(i + 1 + n) else None
  }

  predicate IsLabel(text: string, s: Slot, i: nat) {
    text == if Strip(s.name) == "" then "Command " + Decimal(i + 1) else Strip(s.name)
  }

  /** The ids of the slots that select an input, in slot order. */
  ghost predicate AreInputs(inputs: seq<int>, slots: seq<Slot>, k: Lookup) {
    && (forall x, y :: 0 <= x < y < |inputs| ==> inputs[x] < inputs[y])
    && (forall c :: c in inputs <==> 1 <= c <= |slots| && SelectsInput(slots[c - 1], k))
  }

  // ------------------------------------------------------ the expansion

  lemma ActivitiesAre(s: Slot, a: int, k: Lookup)
    ensures a in ActivitiesOf(s, k) <==> (s.favorite || HasButton(s)) && Lists(s, a, k)
  {
    if Lists(s, a, k) {
      var j :| 0 <= j < |s.activities| && k.parse(s.activities[j]) == Some(a);
      assert s.activities[j] in s.activities;
    }
  }

  lemma ButtonIs(s: Slot, b: int, k: Lookup)
    ensures ButtonCode(s, k) == Some(b) <==> Presses(s, b, k)
    ensures Presses(s, b, k) ==> HasButton(s)
  {
  }

  lemma InputIs(s: Slot, a: int, k: Lookup)
    ensures InputActivity(s, k) == Some(a) <==> NamesInput(s, a, k)
    ensures InputActivity(s, k).Some? <==> SelectsInput(s, k)
  {
  }

  lemma AreInputsMore(front: seq<Slot>, s: Slot, inputs: seq<int>, k: Lookup)
    requires AreInputs(inputs, front, k)
    ensures AreInputs(inputs + if SelectsInput(s, k) then [|front| + 1] else [], front + [s], k)
  {
    var all, more := front + [s], inputs + if SelectsInput(s, k) then [|front| + 1] else [];
    assert forall x :: 0 <= x < |inputs| ==> inputs[x] in inputs;
    forall c ensures c in more <==> 1 <= c <= |all| && SelectsInput(all[c - 1], k) {
      if 1 <= c <= |front| { assert all[c - 1] == front[c - 1]; }
    }
  }

  lemma {:induction false} InputsAre(slots: seq<Slot>, k: Lookup)
    ensures AreInputs(Inputs(slots, k), slots, k)
  {
    if slots != [] {
      var front, last := slots[..|slots| - 1], slots[|slots| - 1];
      assert slots == front + [last];
      InputsAre(front, k);
      InputIs(last, 0, k);
      AreInputsMore(front, last, Inputs(front, k), k);
      InputsMore(front, last, k);
    }
  }

  predicate SomeNames(slots: seq<Slot>, a: int, k: Lookup) {
    exists i :: 0 <= i < |slots| && NamesInput(slots[i], a, k)
  }

  lemma NamesMore(front: seq<Slot>, s: Slot, a: int, k: Lookup)
    ensures SomeNames(front + [s], a, k) <==> SomeNames(front, a, k) || NamesInput(s, a, k)
  {
    var all := front + [s];
    assert all[|front|] == s;
    if i :| 0 <= i < |front| && NamesInput(front[i], a, k) { assert NamesInput(all[i], a, k); }
  }

  lemma FirstInputMore(front: seq<Slot>, s: Slot, a: int, k: Lookup, i: nat)
    ensures FirstInput(front, i, a, k) ==> FirstInput(front + [s], i, a, k)
    ensures NamesInput(s, a, k) && !SomeNames(front, a, k) ==> FirstInput(front + [s], |front|, a, k)
  {
  }

  lemma InputsMore(front: seq<Slot>, s: Slot, k: Lookup)
    ensures Inputs(front + [s], k) == Inputs(front, k) + if InputActivity(s, k).Some? then [|front| + 1] else []
  {
    assert (front + [s])[..|front|] == front;
  }

  lemma OrdinalsNext(front: seq<Slot>, s: Slot, k: Lookup)
    ensures var input, before := InputActivity(s, k), Ordinals(front, k);
      Ordinals(front + [s], k)
      == if input.Some? && input.value !in before then before[input.value := |Inputs(front, k)| + 1] else before
  {
    assert (front + [s])[..|front|] == front;
    InputsMore(front, s, k);
  }

  /** The ordinal leads through the inputs to the first slot that names the activity. */
  predicate LeadsToFirst(slots: seq<Slot>, inputs: seq<int>, ordinals: map<int, nat>, a: int, k: Lookup) {
    && (a in ordinals <==> SomeNames(slots, a, k))
    && (a in ordinals ==>
          && 1 <= ordinals[a] <= |inputs| && inputs[ordinals[a] - 1] >= 1
          && FirstInput(slots, inputs[ordinals[a] - 1] - 1, a, k))
  }

  lemma LeadsOn(front: seq<Slot>, s: Slot, inputs: seq<int>, ordinals: map<int, nat>, input: Option<int>, a: int,
      k: Lookup)
    requires LeadsToFirst(front, inputs, ordinals, a, k) && (input == Some(a) <==> NamesInput(s, a, k))
    ensures LeadsToFirst(front + [s], inputs + (if input.Some? then [|front| + 1] else []),
      if input.Some? && input.value !in ordinals then ordinals[input.value := |inputs| + 1] else ordinals, a, k)
  {
    NamesMore(front, s, a, k);
    if a in ordinals {
      FirstInputMore(front, s, a, k, inputs[ordinals[a] - 1] - 1);
    } else {
      FirstInputMore(front, s, a, k, 0);
    }
  }

  lemma OrdinalsLeadOn(front: seq<Slot>, s: Slot, a: int, k: Lookup)
    requires LeadsToFirst(front, Inputs(front, k), Ordinals(front, k), a, k)
    ensures LeadsToFirst(front + [s], Inputs(front + [s], k), Ordinals(front + [s], k), a, k)
  {
    var inputs, ordinals := Inputs(front, k), Ordinals(front, k);
    InputIs(s, a, k);
    InputsMore(front, s, k);
    OrdinalsNext(front, s, k);
    LeadsOn(front, s, inputs, ordinals, InputActivity(s, k), a, k);
  }

  lemma {:induction false} OrdinalsLead(slots: seq<Slot>, a: int, k: Lookup)
    ensures LeadsToFirst(slots, Inputs(slots, k), Ordinals(slots, k), a, k)
  {
    if slots != [] {
      var front, last := slots[..|slots| - 1], slots[|slots| - 1];
      OrdinalsLead(front, a, k);
      OrdinalsLeadOn(front, last, a, k);
      assert slots == front + [last];
    }
  }

  lemma FavoritesAre(slots: seq<Slot>, a: int, i: nat, k: Lookup)
    ensures i + 1 in FavoritesIn(slots, a, k) <==> i < |slots| && FavoriteIn(slots[i], a, k)
  {
    if i < |slots| { ActivitiesAre(slots[i], a, k); }
  }

  lemma PressesMore(front: seq<Slot>, s: Slot, b: int, a: int, k: Lookup)
    ensures SomePresses(front + [s], b, a, k) <==> SomePresses(front, b, a, k) || PressesIn(s, b, a, k)
    ensures PressesIn(s, b, a, k) ==> forall i: nat :: LastPress(front + [s], i, b, a, k) ==> i == |front|
    ensures !PressesIn(s, b, a, k) ==>
      forall i: nat :: LastPress(front + [s], i, b, a, k) ==> LastPress(front, i, b, a, k)
  {
    var all := front + [s];
    assert all[|front|] == s;
    assert forall j :: 0 <= j < |front| ==> all[j] == front[j];
    if SomePresses(front, b, a, k) {
      var j :| 0 <= j < |front| && PressesIn(front[j], b, a, k);
      assert PressesIn(all[j], b, a, k);
    }
  }

  lemma BindingsMore(front: seq<Slot>, s: Slot, a: int, n: nat, b: int, k: Lookup)
    ensures var rows := BindingsIn(front + [s], a, n, k);
      && (PressesIn(s, b, a, k) ==> b in rows && RunsSlot(rows[b], s, |front|, n))
      && (!PressesIn(s, b, a, k) ==>
            && (b in rows <==> b in BindingsIn(front, a, n, k))
            && (b in rows ==> rows[b] == BindingsIn(front, a, n, k)[b]))
  {
    assert (front + [s])[..|front|] == front;
    ActivitiesAre(s, a, k);
    ButtonIs(s, b, k);
  }

  lemma {:induction false} BindingsAre(slots: seq<Slot>, a: int, n: nat, b: int, k: Lookup)
    ensures b in BindingsIn(slots, a, n, k) <==> SomePresses(slots, b, a, k)
    ensures forall i: nat :: LastPress(slots, i, b, a, k) ==>
      b in BindingsIn(slots, a, n, k) && RunsSlot(BindingsIn(slots, a, n, k)[b], slots[i], i, n)
  {
    if slots != [] {
      var m := |slots| - 1;
      var front, last := slots[..m], slots[m];
      assert slots == front + [last];
      BindingsAre(front, a, n, b, k);
      PressesMore(front, last, b, a, k);
      BindingsMore(front, last, a, n, b, k);
    }
  }

  lemma ReferencedAre(slots: seq<Slot>, a: int, k: Lookup)
    ensures a in Referenced(slots, k) <==> SomeJoins(slots, a, k)
  {
    OrdinalsLead(slots, a, k);
    forall i | 0 <= i < |slots|
      ensures JoinsIn(slots[i], a, k) <==> NamesInput(slots[i], a, k) || a in ActivitiesOf(slots[i], k)
    {
      ActivitiesAre(slots[i], a, k);
    }
  }

  lemma ClaimsAre(slots: seq<Slot>, i: nat, b: int, k: Lookup)
    requires i < |slots|
    ensures OnlyPress(slots, i, b, k) <==> ButtonCode(slots[i], k) == Some(b) && Claims(slots, b, k) == {i}
  {
    forall j | 0 <= j < |slots| ensures j in Claims(slots, b, k) <==> Presses(slots[j], b, k) {
      ButtonIs(slots[j], b, k);
    }
    ButtonIs(slots[i], b, k);
    assert Claims(slots, b, k) == {i} <==>
      i in Claims(slots, b, k) && forall j :: j in Claims(slots, b, k) ==> j == i;
  }

  lemma KeyIs(slots: seq<Slot>, n: nat, b: int, k: Lookup, i: nat)
    requires OnlyPress(slots, i, b, k)
    ensures b in DeviceKeys(slots, n, k) && RunsSlot(DeviceKeys(slots, n, k)[b], slots[i], i, n)
  {
    ClaimsAre(slots, i, b, k);
    assert DeviceKeys(slots, n, k)[b] == RowFor(slots[i], i, n);
  }

  lemma KeyHasClaim(slots: seq<Slot>, n: nat, b: int, k: Lookup)
    requires b in DeviceKeys(slots, n, k)
    ensures exists i: nat :: OnlyPress(slots, i, b, k)
  {
    var i: nat :| i < |slots| && ButtonCode(slots[i], k) == Some(b) && Claims(slots, b, k) == {i};
    ClaimsAre(slots, i, b, k);
  }

  lemma KeysAre(slots: seq<Slot>, n: nat, b: int, k: Lookup)
    ensures b in DeviceKeys(slots, n, k) <==> exists i: nat :: OnlyPress(slots, i, b, k)
    ensures forall i: nat :: OnlyPress(slots, i, b, k) ==>
      b in DeviceKeys(slots, n, k) && RunsSlot(DeviceKeys(slots, n, k)[b], slots[i], i, n)
  {
    forall i: nat | OnlyPress(slots, i, b, k)
      ensures b in DeviceKeys(slots, n, k) && RunsSlot(DeviceKeys(slots, n, k)[b], slots[i], i, n)
    {
      KeyIs(slots, n, b, k, i);
    }
    if b in DeviceKeys(slots, n, k) { KeyHasClaim(slots, n, b, k); }
  }

  lemma LabelsAre(slots: seq<Slot>, n: nat, i: nat)
    requires i < |slots| <= n
    ensures var labels := CommandIds.Labels(slots, n);
      && i + 1 in labels && IsLabel(labels[i + 1], slots[i], i)
      && i + 1 + n in labels && labels[i + 1 + n] == labels[i + 1] + " Long Press"
  {
    CommandIds.LabelsOf(slots, n, i);
    PlaceholderNameIsTidy(i);
    StripTrimmed("");
  }

  lemma RecordIds(slots: seq<Slot>, n: nat, c: int)
    requires |slots| <= n
    ensures c in CommandIds.Labels(slots, n) <==> 1 <= c <= |slots| || n + 1 <= c <= n + |slots|
  {
  }

  // ---------------------------------------- what a hub shows of the slots

  /** One side of the comparison: the slots wanted, those deployed before, how they are read. */
  datatype View = View(id: int, slots: seq<Slot>, prior: seq<Slot>, n: nat, k: Lookup)

  ghost predicate ShowsInputs(inputs: seq<int>, was: seq<int>, v: View) {
    if exists i :: 0 <= i < |v.slots| && SelectsInput(v.slots[i], v.k) then AreInputs(inputs, v.slots, v.k)
    else inputs == was
  }

  /** Record i + 1 carries slot i's name or its placeholder, the long record the same marked so. */
  predicate ShowsRecord(labels: map<int, string>, v: View, i: nat)
    requires i < |v.slots|
  {
    && i + 1 in labels && IsLabel(labels[i + 1], v.slots[i], i)
    && i + 1 + v.n in labels && labels[i + 1 + v.n] == labels[i + 1] + " Long Press"
  }

  /** A device key follows the one slot that claims it; where none or several do, it keeps its
      row unless the deployed slots put it there. */
  ghost predicate ShowsKey(keys: map<int, KeyRow>, was: map<int, KeyRow>, v: View, b: int) {
    && (forall i: nat :: OnlyPress(v.slots, i, b, v.k) ==> b in keys && RunsSlot(keys[b], v.slots[i], i, v.n))
    && ((forall i: nat :: !OnlyPress(v.slots, i, b, v.k)) ==>
          && (b in keys <==> b in was && forall i: nat :: !OnlyPress(v.prior, i, b, v.k))
          && (b in keys ==> keys[b] == was[b]))
  }

  /** The device is in the activity exactly when a slot brings it there, or it was there on its
      own account: not by what was deployed before. */
  predicate ShowsMember(act: Activity, was: Activity, v: View, a: int) {
    && (SomeJoins(v.slots, a, v.k) ==> act.members == was.members + {v.id})
    && (!SomeJoins(v.slots, a, v.k) && SomeJoins(v.prior, a, v.k) ==> act.members == was.members - {v.id})
    && (!SomeJoins(v.slots, a, v.k) && !SomeJoins(v.prior, a, v.k) ==> act == was)
  }

  /** Slot i's favorite is there if the slot is a favorite and lists the activity, or if it was
      there and not by what was deployed before. */
  predicate ShowsFavorite(act: Activity, was: Activity, v: View, a: int, i: nat) {
    var f := Favorite(v.id, i + 1);
    f in act.favorites <==>
      || (i < |v.slots| && FavoriteIn(v.slots[i], a, v.k))
      || (f in was.favorites && !(i < |v.prior| && FavoriteIn(v.prior[i], a, v.k)))
  }

  predicate Ours(act: Activity, v: View, a: int, b: int) {
    b in act.bindings && act.bindings[b].device == v.id && SomePresses(v.prior, b, a, v.k)
  }

  /** A button runs the last slot that claims it for the activity; one that no slot claims keeps
      its row unless it is ours and the deployed slots claimed it. */
  ghost predicate ShowsButton(act: Activity, was: Activity, v: View, a: int, b: int) {
    && (forall i: nat :: LastPress(v.slots, i, b, a, v.k) ==>
          b in act.bindings && act.bindings[b].device == v.id && RunsSlot(act.bindings[b].row, v.slots[i], i, v.n))
    && (!SomePresses(v.slots, b, a, v.k) ==>
          && (b in act.bindings <==> b in was.bindings && !Ours(was, v, a, b))
          && (b in act.bindings ==> act.bindings[b] == was.bindings[b]))
  }

  /** The input selected is the record of the first slot that names the activity as its input. */
  ghost predicate ShowsInput(act: Activity, inputs: seq<int>, v: View, a: int) {
    && (forall i: nat :: FirstInput(v.slots, i, a, v.k) ==>
          && v.id in act.ordinals && act.ordinals[v.id] <= |inputs|
          && inputs[act.ordinals[v.id] - 1] == i + 1)
    && ((forall j :: 0 <= j < |v.slots| ==> !NamesInput(v.slots[j], a, v.k)) ==> v.id !in act.ordinals)
  }

  // ------------------------------------------------- the target shows it

  /** Expansions of the wanted and of the deployed slots. */
  predicate Expanded(v: View, d: Desired, o: Desired) {
    && |v.slots| <= v.n && |v.prior| <= v.n
    && d == DesiredFrom(v.slots, v.n, d.name, d.brand, d.powerOn, d.powerOff, v.k)
    && o == DesiredFrom(v.prior, v.n, o.name, o.brand, o.powerOn, o.powerOff, v.k)
  }

  predicate RefsKnown(v: View, d: Desired, o: Desired, a: int) {
    && (a in d.activities <==> SomeJoins(v.slots, a, v.k)) && (a in o.activities <==> SomeJoins(v.prior, a, v.k))
    && (a in d.activities ==>
          && d.activities[a].favorites == FavoritesIn(v.slots, a, v.k)
          && d.activities[a].bindings == BindingsIn(v.slots, a, v.n, v.k))
    && (a in o.activities ==>
          && o.activities[a].favorites == FavoritesIn(v.prior, a, v.k)
          && o.activities[a].bindings == BindingsIn(v.prior, a, v.n, v.k))
  }

  lemma RefsAre(v: View, d: Desired, o: Desired, a: int)
    requires Expanded(v, d, o)
    ensures RefsKnown(v, d, o, a)
  {
    ReferencedAre(v.slots, a, v.k);
    ReferencedAre(v.prior, a, v.k);
  }

  lemma PressJoins(slots: seq<Slot>, b: int, a: int, k: Lookup)
    ensures SomePresses(slots, b, a, k) ==> SomeJoins(slots, a, k)
    ensures forall i :: 0 <= i < |slots| && FavoriteIn(slots[i], a, k) ==> SomeJoins(slots, a, k)
  {
    if i :| 0 <= i < |slots| && PressesIn(slots[i], b, a, k) {
      assert JoinsIn(slots[i], a, k);
    }
    forall i | 0 <= i < |slots| && FavoriteIn(slots[i], a, k) ensures SomeJoins(slots, a, k) {
      assert JoinsIn(slots[i], a, k);
    }
  }

  lemma TargetMember(act: Activity, v: View, d: Desired, o: Desired, a: int)
    requires RefsKnown(v, d, o, a)
    ensures ShowsMember(TargetActivity(act, v.id, a, d, o), act, v, a)
  {
  }

  lemma TargetFavorite(act: Activity, v: View, d: Desired, o: Desired, a: int, i: nat)
    requires RefsKnown(v, d, o, a) && SomeJoins(v.slots, a, v.k)
    ensures ShowsFavorite(TargetActivity(act, v.id, a, d, o), act, v, a, i)
  {
    FavoritesAre(v.slots, a, i, v.k);
    FavoritesAre(v.prior, a, i, v.k);
    PressJoins(v.prior, 0, a, v.k);
  }

  lemma TargetButton(act: Activity, v: View, d: Desired, o: Desired, a: int, b: int)
    requires RefsKnown(v, d, o, a) && SomeJoins(v.slots, a, v.k)
    ensures ShowsButton(TargetActivity(act, v.id, a, d, o), act, v, a, b)
  {
    BindingsAre(v.slots, a, v.n, b, v.k);
    BindingsAre(v.prior, a, v.n, b, v.k);
    PressJoins(v.prior, b, a, v.k);
  }

  lemma FirstInputIsUnique(slots: seq<Slot>, i: nat, j: nat, a: int, k: Lookup)
    requires FirstInput(slots, i, a, k) && FirstInput(slots, j, a, k)
    ensures i == j
  {
  }

  /** An activity whose ordinal leads to the first slot, or is none. */
  lemma InputShown(act: Activity, inputs: seq<int>, v: View, ordinals: map<int, nat>, a: int)
    requires LeadsToFirst(v.slots, inputs, ordinals, a, v.k)
    requires if a in ordinals then v.id in act.ordinals && act.ordinals[v.id] == ordinals[a] else v.id !in act.ordinals
    ensures ShowsInput(act, inputs, v, a)
  {
    if a in ordinals {
      forall i: nat | FirstInput(v.slots, i, a, v.k) ensures inputs[ordinals[a] - 1] == i + 1 {
        FirstInputIsUnique(v.slots, i, inputs[ordinals[a] - 1] - 1, a, v.k);
      }
    }
  }

  lemma TargetInput(act: Activity, inputs: seq<int>, v: View, d: Desired, o: Desired, a: int)
    requires a in d.activities && d.activities[a].ordinal == OrdinalOf(v, a)
    requires inputs == WrittenInputs(Inputs(v.slots, v.k), inputs)
    ensures ShowsInput(TargetActivity(act, v.id, a, d, o), inputs, v, a)
  {
    var wanted, ordinals := Inputs(v.slots, v.k), Ordinals(v.slots, v.k);
    OrdinalsLead(v.slots, a, v.k);
    assert LeadsToFirst(v.slots, inputs, ordinals, a, v.k);
    InputShown(TargetActivity(act, v.id, a, d, o), inputs, v, ordinals, a);
  }

  function OrdinalOf(v: View, a: int): nat {
    if a in Ordinals(v.slots, v.k) then Ordinals(v.slots, v.k)[a] else 0
  }

  lemma OrdinalIs(v: View, d: Desired, o: Desired, a: int)
    requires Expanded(v, d, o) && a in d.activities
    ensures d.activities[a].ordinal == OrdinalOf(v, a) && d.inputs == Inputs(v.slots, v.k)
  {
  }

  lemma TargetInputs(v: View, was: seq<int>)
    ensures ShowsInputs(WrittenInputs(Inputs(v.slots, v.k), was), was, v)
  {
    var wanted := Inputs(v.slots, v.k);
    InputsAre(v.slots, v.k);
    if i :| 0 <= i < |v.slots| && SelectsInput(v.slots[i], v.k) {
      assert i + 1 in wanted;
    } else if wanted != [] {
      assert wanted[0] in wanted;
    }
  }

  lemma LabelsShow(labels: map<int, string>, v: View, i: nat)
    requires i < |v.slots| <= v.n && labels == CommandIds.Labels(v.slots, v.n)
    ensures ShowsRecord(labels, v, i)
  {
    LabelsAre(v.slots, v.n, i);
  }

  lemma TargetKey(dev: Device, v: View, d: Desired, o: Desired, b: int)
    requires d.keys == DeviceKeys(v.slots, v.n, v.k) && o.keys == DeviceKeys(v.prior, v.n, v.k)
    ensures ShowsKey(TargetDevice(dev, d, o).keys, dev.keys, v, b)
  {
    KeysAre(v.slots, v.n, b, v.k);
    KeysAre(v.prior, v.n, b, v.k);
  }

  // -------------------------------------------- the hub after a full sync

  function ViewOf(q: Request, id: int): (v: View)
  {
    View(id, q.slots, Snapshot(q, id), q.slotCount, q.lookup)
  }

  /** Every record the configuration needs is on the hub. */
  ghost predicate RecordsThere(live: Live, q: Request) {
    forall c :: 1 <= c <= |q.slots| || q.slotCount + 1 <= c <= q.slotCount + |q.slots| ==> c in live.device.labels
  }

  ghost predicate CanSync(live: Live, q: Request) {
    |q.slots| <= q.slotCount && Ready(live, DesiredOf(q)) && RecordsThere(live, q)
  }

  lemma RecordsAreThere(live: Live, q: Request)
    requires |q.slots| <= q.slotCount && RecordsThere(live, q)
    ensures NoRecordMissing(live.device, DesiredOf(q))
  {
    forall c | c in CommandIds.Labels(q.slots, q.slotCount) ensures c in live.device.labels {
      RecordIds(q.slots, q.slotCount, c);
    }
  }

  lemma AfterIsTarget(live: Live, q: Request, d: Desired, o: Desired)
    requires CanSync(live, q) && d == DesiredOf(q) && o == OwnedOf(q, live.id)
    ensures Performed(PlanFor(live, q), live) == Target(live, d, o) && RunsThrough(PlanFor(live, q), live)
    ensures Expanded(ViewOf(q, live.id), d, o) && d.activities.Keys <= live.activities.Keys
  {
    RecordsAreThere(live, q);
    PlanReachesTarget(live, d, o);
  }

  /** The device is an activity's only member, through what was deployed before, and no slot wants
      it there any more. */
  predicate WouldEmpty(live: Live, v: View, a: int) {
    && a in live.activities && live.activities[a].members == {v.id}
    && SomeJoins(v.prior, a, v.k) && !SomeJoins(v.slots, a, v.k)
  }

  lemma OneMember(s: set<int>, x: int)
    ensures x in s && |s| <= 1 <==> s == {x}
  {
    if x in s { assert |s - {x}| == |s| - 1; }
  }

  lemma LastMemberIs(live: Live, v: View, d: Desired, o: Desired, a: int)
    requires RefsKnown(v, d, o, a) && v.id == live.id
    ensures a in live.activities && LastMember(live, d, o, a) <==> WouldEmpty(live, v, a)
  {
    if a in live.activities { OneMember(live.activities[a].members, v.id); }
  }

  /** The planner declines exactly when leaving an activity would empty it. */
  lemma DeclinedIff(live: Live, q: Request)
    requires |q.slots| <= q.slotCount
    ensures PlanOf(live, DesiredOf(q), OwnedOf(q, live.id)).Fallback?
       <==> exists a :: WouldEmpty(live, ViewOf(q, live.id), a)
  {
    var v, d, o := ViewOf(q, live.id), DesiredOf(q), OwnedOf(q, live.id);
    forall a ensures a in live.activities && LastMember(live, d, o, a) <==> WouldEmpty(live, v, a) {
      RefsAre(v, d, o, a);
      LastMemberIs(live, v, d, o, a);
    }
  }

  /** The head and the power ids are the request's; an unset power id leaves what the hub holds. */
  lemma HeadAfter(live: Live, q: Request)
    requires CanSync(live, q)
    ensures var dev := Performed(PlanFor(live, q), live).device;
      && dev.name == q.name && dev.brand == q.brand
      && dev.powerOn == (if q.powerOn.Some? then q.powerOn else live.device.powerOn)
      && dev.powerOff == (if q.powerOff.Some? then q.powerOff else live.device.powerOff)
  {
    AfterIsTarget(live, q, DesiredOf(q), OwnedOf(q, live.id));
  }

  /** The device's inputs are the slots that select one, in slot order; with none it keeps its list. */
  lemma InputsAfter(live: Live, q: Request)
    requires CanSync(live, q)
    ensures ShowsInputs(Performed(PlanFor(live, q), live).device.inputs, live.device.inputs, ViewOf(q, live.id))
  {
    AfterIsTarget(live, q, DesiredOf(q), OwnedOf(q, live.id));
    TargetInputs(ViewOf(q, live.id), live.device.inputs);
  }

  lemma LabelsAfter(live: Live, q: Request)
    requires CanSync(live, q)
    ensures Performed(PlanFor(live, q), live).device.labels == CommandIds.Labels(q.slots, q.slotCount)
  {
    AfterIsTarget(live, q, DesiredOf(q), OwnedOf(q, live.id));
  }

  /** Each record carries its slot's name, */
  lemma RecordsAfter(live: Live, q: Request, i: nat)
    requires CanSync(live, q) && i < |q.slots|
    ensures ShowsRecord(Performed(PlanFor(live, q), live).device.labels, ViewOf(q, live.id), i)
  {
    var labels, v := Performed(PlanFor(live, q), live).device.labels, ViewOf(q, live.id);
    LabelsAfter(live, q);
    LabelsShow(labels, v, i);
  }

  /** and there are no others. */
  lemma NoOtherRecords(live: Live, q: Request, c: int)
    requires CanSync(live, q)
    ensures c in Performed(PlanFor(live, q), live).device.labels <==>
      1 <= c <= |q.slots| || q.slotCount + 1 <= c <= q.slotCount + |q.slots|
  {
    LabelsAfter(live, q);
    RecordIds(q.slots, q.slotCount, c);
  }

  lemma KeysAfter(live: Live, q: Request, b: int)
    requires CanSync(live, q)
    ensures ShowsKey(Performed(PlanFor(live, q), live).device.keys, live.device.keys, ViewOf(q, live.id), b)
  {
    var d, o := DesiredOf(q), OwnedOf(q, live.id);
    AfterIsTarget(live, q, d, o);
    TargetKey(live.device, ViewOf(q, live.id), d, o, b);
  }

  /** An activity after the sync, as the target has it. */
  lemma ActivityAfter(live: Live, q: Request, d: Desired, o: Desired, a: int)
    requires CanSync(live, q) && d == DesiredOf(q) && o == OwnedOf(q, live.id)
    ensures var done := Performed(PlanFor(live, q), live).activities;
      && (a in done <==> a in live.activities)
      && (a in done ==> done[a] == TargetActivity(live.activities[a], live.id, a, d, o))
    ensures RefsKnown(ViewOf(q, live.id), d, o, a)
  {
    AfterIsTarget(live, q, d, o);
    RefsAre(ViewOf(q, live.id), d, o, a);
  }

  lemma MembersAfter(live: Live, q: Request, a: int)
    requires CanSync(live, q)
    ensures var done := Performed(PlanFor(live, q), live).activities;
      && (a in done <==> a in live.activities)
      && (a in done ==> ShowsMember(done[a], live.activities[a], ViewOf(q, live.id), a))
  {
    var d, o := DesiredOf(q), OwnedOf(q, live.id);
    ActivityAfter(live, q, d, o, a);
    if a in live.activities { TargetMember(live.activities[a], ViewOf(q, live.id), d, o, a); }
  }

  /** In an activity a slot brings the device to: its favorites, */
  lemma FavoritesAfter(live: Live, q: Request, a: int, i: nat)
    requires CanSync(live, q) && SomeJoins(q.slots, a, q.lookup)
    ensures var done := Performed(PlanFor(live, q), live).activities;
      a in done && a in live.activities && ShowsFavorite(done[a], live.activities[a], ViewOf(q, live.id), a, i)
  {
    var d, o := DesiredOf(q), OwnedOf(q, live.id);
    AfterIsTarget(live, q, d, o);
    ActivityAfter(live, q, d, o, a);
    TargetFavorite(live.activities[a], ViewOf(q, live.id), d, o, a, i);
  }

  /** what its buttons run, */
  lemma ButtonsAfter(live: Live, q: Request, a: int, b: int)
    requires CanSync(live, q) && SomeJoins(q.slots, a, q.lookup)
    ensures var done := Performed(PlanFor(live, q), live).activities;
      a in done && a in live.activities && ShowsButton(done[a], live.activities[a], ViewOf(q, live.id), a, b)
  {
    var d, o := DesiredOf(q), OwnedOf(q, live.id);
    AfterIsTarget(live, q, d, o);
    ActivityAfter(live, q, d, o, a);
    TargetButton(live.activities[a], ViewOf(q, live.id), d, o, a, b);
  }

  /** and the input it selects. */
  lemma InputAfter(live: Live, q: Request, a: int)
    requires CanSync(live, q) && SomeJoins(q.slots, a, q.lookup)
    ensures var done := Performed(PlanFor(live, q), live);
      a in done.activities && ShowsInput(done.activities[a], done.device.inputs, ViewOf(q, live.id), a)
  {
    var d, o := DesiredOf(q), OwnedOf(q, live.id);
    AfterIsTarget(live, q, d, o);
    ActivityAfter(live, q, d, o, a);
    OrdinalIs(ViewOf(q, live.id), d, o, a);
    TargetInput(live.activities[a], Target(live, d, o).device.inputs, ViewOf(q, live.id), d, o, a);
  }
}
