/** The command-id law: slot i's short record is id i + 1, its long record id
    i + 1 + slot_count.  One bijection wherever ids are written, expected or read back. */
module CommandIds {
  import opened Text
  import opened Slots
  import opened WifiEvents

  datatype Press = Short | Long

  function Encode(i: nat, press: Press, n: nat): nat {
    match press
    case Short => i + 1
    case Long => i + 1 + n
  }

  /** How the removal reconcile reads a removed id. */
  function Decode(id: int, n: nat): Option<(nat, Press)> {
    if 1 <= id <= n then Some((id - 1, Short))
    else if n < id <= 2 * n then Some((id - n - 1, Long))
    else None
  }

  /** Decoding undoes encoding, */
  lemma EncodeThenDecode(i: nat, press: Press, n: nat)
    requires i < n
    ensures 1 <= Encode(i, press, n) <= 2 * n && Decode(Encode(i, press, n), n) == Some((i, press))
  {
  }

  /** and encoding undoes decoding, exactly on the ids 1..2n. */
  lemma DecodeThenEncode(id: int, n: nat)
    ensures Decode(id, n).Some? <==> 1 <= id <= 2 * n
    ensures Decode(id, n).Some? ==>
      Decode(id, n).value.0 < n && Encode(Decode(id, n).value.0, Decode(id, n).value.1, n) == id
  {
  }

  function OrPlaceholder(name: string, i: nat): string {
    if name == "" then PlaceholderName(i) else name
  }

  /** `str(name or "Command N").strip() or "Command N"` */
  function RecordName(name: string, i: nat): string {
    OrPlaceholder(Strip(OrPlaceholder(name, i)), i)
  }

  function DisplayName(name: string, i: nat, press: Press): string {
    match press
    case Short => RecordName(name, i)
    case Long => RecordName(name, i) + " Long Press"
  }

  datatype CommandDef = CommandDef(display: string, trigger: string, press: Press, index: nat)

  function DefFor(slots: seq<Slot>, i: nat, press: Press): CommandDef
    requires i < |slots|
  {
    CommandDef(DisplayName(slots[i].name, i, press), RecordName(slots[i].name, i), press, i)
  }

  function DefsOf(slots: seq<Slot>, press: Press): (r: seq<CommandDef>)
    ensures |r| == |slots| && forall i :: 0 <= i < |slots| ==> r[i] == DefFor(slots, i, press)
  {
    seq(|slots|, i requires 0 <= i < |slots| => DefFor(slots, i, press))
  }

  /** All short records, then all long ones. */
  function Layout(slots: seq<Slot>): (r: seq<CommandDef>)
    ensures |r| == 2 * |slots|
  {
    DefsOf(slots, Short) + DefsOf(slots, Long)
  }

  lemma HalvesAt<T>(a: seq<T>, b: seq<T>, i: nat)
    requires i < |a| == |b|
    ensures (a + b)[i] == a[i] && (a + b)[|a| + i] == b[i]
  {
  }

  lemma LaidOutAt(slots: seq<Slot>, i: nat, p: Press)
    requires i < |slots|
    ensures Layout(slots)[Encode(i, p, |slots|) - 1] == DefFor(slots, i, p)
  {
    HalvesAt(DefsOf(slots, Short), DefsOf(slots, Long), i);
  }

  /** The two loops that lay out the records of a new device: the hub numbers them from
      one in list order, so record id k is entry k - 1. */
  method LayOutRecords(slots: seq<Slot>) returns (defs: seq<CommandDef>)
    ensures |defs| == 2 * |slots|
    ensures forall i: nat, p: Press :: i < |slots| ==> defs[Encode(i, p, |slots|) - 1] == DefFor(slots, i, p)
  {
    ghost var shorts, longs := DefsOf(slots, Short), DefsOf(slots, Long);
    defs := [];
    for idx := 0 to |slots|
      invariant defs == shorts[..idx]
    {
      TakeOne(shorts, idx);
      defs := defs + [CommandDef(RecordName(slots[idx].name, idx), RecordName(slots[idx].name, idx), Short, idx)];
    }
    for idx := 0 to |slots|
      invariant defs == shorts + longs[..idx]
    {
      TakeOne(longs, idx);
      var name := RecordName(slots[idx].name, idx);
      defs := defs + [CommandDef(name + " Long Press", name, Long, idx)];
    }
    forall i: nat, p: Press | i < |slots| ensures defs[Encode(i, p, |slots|) - 1] == DefFor(slots, i, p) {
      LaidOutAt(slots, i, p);
    }
  }

  /** The label each record id should carry when `slots` are deployed under slot count n. */
  function LabelAt(slots: seq<Slot>, n: nat, id: int): Option<string> {
    match Decode(id, n)
    case Some((i, press)) => if i < |slots| then Some(DisplayName(slots[i].name, i, press)) else None
    case None => None
  }

  function Labels(slots: seq<Slot>, n: nat): (m: map<int, string>)
    requires |slots| <= n
    ensures forall id :: id in m <==> LabelAt(slots, n, id).Some?
    ensures forall id :: id in m ==> LabelAt(slots, n, id) == Some(m[id])
  {
    map id | 1 <= id <= 2 * n && LabelAt(slots, n, id).Some? :: LabelAt(slots, n, id).value
  }

  /** The id belongs to a slot below a bound. */
  predicate EncodedBelow(id: int, bound: nat, n: nat) {
    Decode(id, n).Some? && Decode(id, n).value.0 < bound
  }

  lemma EncodedNext(i: nat, n: nat)
    requires i < n
    ensures forall id :: EncodedBelow(id, i + 1, n) <==> EncodedBelow(id, i, n) || id == i + 1 || id == i + 1 + n
  {
  }

  lemma LabelsOf(slots: seq<Slot>, n: nat, i: nat)
    requires i < |slots| <= n
    ensures LabelAt(slots, n, i + 1) == Some(RecordName(slots[i].name, i))
    ensures LabelAt(slots, n, i + 1 + n) == Some(RecordName(slots[i].name, i) + " Long Press")
  {
  }

  /** The loop of the drift gate that fills the expected labels. */
  method ExpectLabels(slots: seq<Slot>, n: nat) returns (labels: map<int, string>)
    requires |slots| <= n
    ensures labels == Labels(slots, n)
  {
    labels := map[];
    for idx := 0 to |slots|
      invariant forall id :: id in labels <==> EncodedBelow(id, idx, n)
      invariant forall id :: id in labels ==> LabelAt(slots, n, id) == Some(labels[id])
    {
      var name := RecordName(slots[idx].name, idx);
      LabelsOf(slots, n, idx);
      EncodedNext(idx, n);
      labels := labels[idx + 1 := name];
      labels := labels[idx + 1 + n := name + " Long Press"];
    }
    forall id ensures EncodedBelow(id, |slots|, n) <==> LabelAt(slots, n, id).Some? {
    }
    assert labels.Keys == Labels(slots, n).Keys;
  }

  /** What the drift gate expects of record id k is what the deploy wrote as entry k - 1. */
  lemma ExpectedIsDeployed(slots: seq<Slot>, i: nat, p: Press)
    requires i < |slots|
    ensures var id := Encode(i, p, |slots|);
      id in Labels(slots, |slots|) && Labels(slots, |slots|)[id] == DefFor(slots, i, p).display
  {
    EncodeThenDecode(i, p, |slots|);
    assert LabelAt(slots, |slots|, Encode(i, p, |slots|)).Some?;
  }

  /** Removing the record a slot's press is encoded as touches exactly that slot. */
  lemma RemovalHitsItsSlot(t: Tables, i: nat, p: Press)
    requires i < |t.commands|
    ensures var after := ApplyEdit(t, Remove(Encode(i, p, |t.commands|))).commands;
      && after[i] == (if p.Short? then DefaultSlot(i) else ClearLongPress(t.commands[i]))
      && forall j :: 0 <= j < |t.commands| && j != i ==> after[j] == t.commands[j]
  {
  }
}
