/** From a stored slot table to the snapshot a deploy aims at. */
module WifiConfig {
  import opened Text
  import opened Slots
  import opened CommandIds
  import opened InplacePlan

  /** Outside knowledge: `int(text)` where it succeeds, and the hub's button codes. */
  datatype Lookup = Lookup(parse: string -> Option<int>, codes: map<string, int>)

  function ParseAll(texts: seq<string>, parse: string -> Option<int>): set<int> {
    set t | t in texts && parse(t).Some? :: parse(t).value
  }

  function ButtonName(s: Slot): string { Lower(Strip(s.hardButton)) }

  function ButtonCode(s: Slot, k: Lookup): Option<int> {
    if ButtonName(s) != "" && ButtonName(s) in k.codes && k.codes[ButtonName(s)] != 0
    then Some(k.codes[ButtonName(s)]) else None
  }

  function InputActivity(s: Slot, k: Lookup): Option<int> {
    if Strip(s.inputActivity) == "" then None else k.parse(Strip(s.inputActivity))
  }

  /** A slot's activity list only means something for favorites and hard buttons. */
  function ActivitiesOf(s: Slot, k: Lookup): set<int> {
    if s.favorite || ButtonName(s) != "" then ParseAll(s.activities, k.parse) else {}
  }

  function RowFor(s: Slot, i: nat, n: nat): KeyRow {
    KeyRow(i + 1, if s.longPress then Some(i + 1 + n) else None)
  }

  /** The device's input list: the short ids of slots that select an input, in slot order. */
  function Inputs(slots: seq<Slot>, k: Lookup): (r: seq<int>)
    ensures forall j :: 0 <= j < |r| ==> 1 <= r[j] <= |slots|
    ensures forall i, j :: 0 <= i < j < |r| ==> r[i] < r[j]
  {
    if slots == [] then []
    else
      var m := |slots| - 1;
      Inputs(slots[..m], k) + if InputActivity(slots[m], k).Some? then [m + 1] else []
  }

  /** Which entry of that list an activity selects: the first slot naming it wins. */
  function Ordinals(slots: seq<Slot>, k: Lookup): (r: map<int, nat>)
    ensures forall a :: a in r ==> 1 <= r[a] <= |Inputs(slots, k)|
  {
    if slots == [] then map[]
    else
      var m := |slots| - 1;
      var front := Ordinals(slots[..m], k);
      var input := InputActivity(slots[m], k);
      if input.Some? && input.value !in front then front[input.value := |Inputs(slots, k)|] else front
  }

  function FavoritesIn(slots: seq<Slot>, a: int, k: Lookup): set<int> {
    set i | 0 <= i < |slots| && slots[i].favorite && a in ActivitiesOf(slots[i], k) :: i + 1
  }

  /** The last slot that claims a button for the activity wins. */
  function BindingsIn(slots: seq<Slot>, a: int, n: nat, k: Lookup): map<int, KeyRow> {
    if slots == [] then map[]
    else
      var m := |slots| - 1;
      var front := BindingsIn(slots[..m], a, n, k);
      var code := ButtonCode(slots[m], k);
      if code.Some? && a in ActivitiesOf(slots[m], k) then front[code.value := RowFor(slots[m], m, n)] else front
  }

  function Referenced(slots: seq<Slot>, k: Lookup): set<int> {
    Ordinals(slots, k).Keys + (set i, a | 0 <= i < |slots| && a in ActivitiesOf(slots[i], k) :: a)
  }

  function Claims(slots: seq<Slot>, b: int, k: Lookup): set<int> {
    set i | 0 <= i < |slots| && ButtonCode(slots[i], k) == Some(b)
  }

  /** The device's own key rows: buttons exactly one slot claims. */
  function DeviceKeys(slots: seq<Slot>, n: nat, k: Lookup): map<int, KeyRow> {
    map i | 0 <= i < |slots| && ButtonCode(slots[i], k).Some? && Claims(slots, ButtonCode(slots[i], k).value, k) == {i}
      :: ButtonCode(slots[i], k).value := RowFor(slots[i], i, n)
  }

  /** `desired_snapshot_from_config` */
  function DesiredFrom(
      slots: seq<Slot>, n: nat, name: string, brand: string,
      powerOn: Option<int>, powerOff: Option<int>, k: Lookup): Desired
    requires |slots| <= n
  {
    var ordinals := Ordinals(slots, k);
    Desired(name, brand, powerOn, powerOff, Inputs(slots, k), Labels(slots, n),
      map a | a in Referenced(slots, k) ::
        Refs(if a in ordinals then ordinals[a] else 0, FavoritesIn(slots, a, k), BindingsIn(slots, a, n, k)),
      DeviceKeys(slots, n, k))
  }

  /** Every configuration yields a well-formed input list and ordinals into it. */
  lemma ConfigurationsAreWellFormed(
      slots: seq<Slot>, n: nat, name: string, brand: string,
      powerOn: Option<int>, powerOff: Option<int>, k: Lookup)
    requires |slots| <= n
    ensures var d := DesiredFrom(slots, n, name, brand, powerOn, powerOff, k);
      && (forall i, j :: 0 <= i < j < |d.inputs| ==> d.inputs[i] != d.inputs[j])
      && (forall a :: a in d.activities ==> d.activities[a].ordinal <= |d.inputs|)
  {
  }

  /** The row runs commands of one of the slots. */
  predicate OwnRow(row: KeyRow, slots: seq<Slot>, n: nat) {
    exists i: nat :: i < |slots| && row == RowFor(slots[i], i, n)
  }

  lemma {:induction false} BindingsAreOwn(slots: seq<Slot>, a: int, n: nat, k: Lookup)
    ensures forall b :: b in BindingsIn(slots, a, n, k) ==> OwnRow(BindingsIn(slots, a, n, k)[b], slots, n)
  {
    if slots != [] {
      var m := |slots| - 1;
      BindingsAreOwn(slots[..m], a, n, k);
      forall b | b in BindingsIn(slots[..m], a, n, k) ensures OwnRow(BindingsIn(slots[..m], a, n, k)[b], slots, n) {
        var i: nat :| i < m && BindingsIn(slots[..m], a, n, k)[b] == RowFor(slots[..m][i], i, n);
        assert slots[..m][i] == slots[i];
      }
    }
  }

  lemma OwnIdsAreLabelled(slots: seq<Slot>, n: nat, i: nat)
    requires i < |slots| <= n
    ensures i + 1 in Labels(slots, n) && i + 1 + n in Labels(slots, n)
  {
    LabelsOf(slots, n, i);
  }

  /** The ids a row runs are labelled. */
  predicate RunsLabelled(row: KeyRow, labels: map<int, string>) {
    row.command in labels && (row.long.Some? ==> row.long.value in labels)
  }

  lemma OwnRowIsLabelled(row: KeyRow, slots: seq<Slot>, n: nat)
    requires |slots| <= n && OwnRow(row, slots, n)
    ensures RunsLabelled(row, Labels(slots, n))
  {
    var i: nat :| i < |slots| && row == RowFor(slots[i], i, n);
    OwnIdsAreLabelled(slots, n, i);
  }

  /** A configuration names only command ids it labels: as inputs, as favorites, and on the
      buttons of activities and of the device. */
  lemma ConfigurationsNameOwnIds(
      slots: seq<Slot>, n: nat, name: string, brand: string,
      powerOn: Option<int>, powerOff: Option<int>, k: Lookup)
    requires |slots| <= n
    ensures var d := DesiredFrom(slots, n, name, brand, powerOn, powerOff, k);
      && (forall j :: 0 <= j < |d.inputs| ==> d.inputs[j] in d.labels)
      && (forall a, c :: a in d.activities && c in d.activities[a].favorites ==> c in d.labels)
      && (forall a, b :: a in d.activities && b in d.activities[a].bindings ==>
            RunsLabelled(d.activities[a].bindings[b], d.labels))
      && (forall b :: b in d.keys ==> RunsLabelled(d.keys[b], d.labels))
  {
    forall j | 0 <= j < |Inputs(slots, k)| ensures Inputs(slots, k)[j] in Labels(slots, n) {
      OwnIdsAreLabelled(slots, n, Inputs(slots, k)[j] - 1);
    }
    forall a, c | c in FavoritesIn(slots, a, k) ensures c in Labels(slots, n) {
      OwnIdsAreLabelled(slots, n, c - 1);
    }
    forall a, b | b in BindingsIn(slots, a, n, k)
      ensures RunsLabelled(BindingsIn(slots, a, n, k)[b], Labels(slots, n))
    {
      BindingsAreOwn(slots, a, n, k);
      OwnRowIsLabelled(BindingsIn(slots, a, n, k)[b], slots, n);
    }
    forall b | b in DeviceKeys(slots, n, k) ensures RunsLabelled(DeviceKeys(slots, n, k)[b], Labels(slots, n)) {
      DeviceKeysAreOwn(slots, n, k, b);
      OwnRowIsLabelled(DeviceKeys(slots, n, k)[b], slots, n);
    }
  }

  lemma DeviceKeysAreOwn(slots: seq<Slot>, n: nat, k: Lookup, b: int)
    requires b in DeviceKeys(slots, n, k)
    ensures OwnRow(DeviceKeys(slots, n, k)[b], slots, n)
  {
    var i: nat :| i < |slots| && ButtonCode(slots[i], k) == Some(b) && Claims(slots, b, k) == {i};
    assert DeviceKeys(slots, n, k)[b] == RowFor(slots[i], i, n);
  }

  /** A button two slots claim gets no device row: which slot it should follow is open. */
  lemma AmbiguousButtonsGetNoDeviceKey(slots: seq<Slot>, n: nat, k: Lookup, i: nat, j: nat, b: int)
    requires i < j < |slots| && ButtonCode(slots[i], k) == ButtonCode(slots[j], k) == Some(b)
    ensures b !in DeviceKeys(slots, n, k)
  {
    assert i in Claims(slots, b, k) && j in Claims(slots, b, k);
  }
}
