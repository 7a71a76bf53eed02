/** Command slots of a Wifi Device record: normalization, the configured count
    and the part of a slot table that the deploy hash covers. */
module Slots {
  import opened Text
  import Sorting

  const COMMAND_SLOT_COUNT: nat := 10
  const WIFI_EVENTS_SLOT_COUNT: nat := 25
  const MAX_RECORD_SLOT_COUNT: nat := 100
  const POWER_COMMAND_MIN := 1
  const POWER_COMMAND_MAX := 10
  const DEFAULT_WIFI_DEVICE_NAME := "Home Assistant"

  // ------------------------------------------------------------ actions

  /** An action payload.  Values are seen through their text; "" is falsy. */
  type Action = map<string, string>

  const DEFAULT_ACTION: Action := map["action" := "perform-action"]

  datatype RawAction =
    | NotAnAction
    | ActionDict(fields: Action)
    | ActionList(items: seq<Option<Action>>)  // None: an item that is no dict

  predicate HasAction(a: Action) { "action" in a && a["action"] != "" }

  function WithAction(a: Action): Action {
    if HasAction(a) then a else a + DEFAULT_ACTION
  }

  function FirstDict(items: seq<Option<Action>>): Action {
    if items == [] then DEFAULT_ACTION
    else if items[0].Some? then items[0].value else FirstDict(items[1..])
  }

  function NormalizeAction(raw: RawAction): (r: Action)
    ensures HasAction(r)
  {
    match raw
    case NotAnAction => DEFAULT_ACTION
    case ActionDict(fields) => WithAction(fields)
    case ActionList(items) => WithAction(FirstDict(items))
  }

  // -------------------------------------------------------------- slots

  datatype Slot = Slot(
    name: string, favorite: bool, hardButton: string, longPress: bool,
    inputActivity: string, activities: seq<string>,
    action: Action, longAction: Action)

  /** What may sit at a slot position before normalization; a missing flag or
      text reads as false or "", `activities` None is a missing or non-list value. */
  datatype RawSlot =
    | NotASlot
    | RawSlot(
        name: Option<string>, favorite: bool, hardButton: string, longPress: bool,
        inputActivity: string, activities: Option<seq<string>>,
        action: RawAction, longAction: RawAction)

  datatype RawCommands = NotAList | CommandList(items: seq<RawSlot>)

  function PlaceholderName(i: nat): string { "Command " + Decimal(i + 1) }

  lemma PlaceholderNameIsTidy(i: nat)
    ensures PlaceholderName(i) != "" && Strip(PlaceholderName(i)) == PlaceholderName(i)
  {
    var digits := Decimal(i + 1);
    assert IsDigit(digits[|digits| - 1]);
    StripTrimmed("Command " + digits);
  }

  function DefaultSlot(i: nat): Slot {
    Slot(PlaceholderName(i), true, "", false, "", [], DEFAULT_ACTION, DEFAULT_ACTION)
  }

  function NonEmpty(texts: seq<string>): (r: seq<string>)
    ensures "" !in r
    ensures "" !in texts ==> r == texts
  {
    if texts == [] then []
    else (if texts[0] == "" then [] else [texts[0]]) + NonEmpty(texts[1..])
  }

  function NormalizeSlot(raw: RawSlot, i: nat, standalone: bool): Slot {
    match raw
    case NotASlot => DefaultSlot(i)
    case RawSlot(name, favorite, button, longPress, input, acts, action, longAction) =>
      var bound := Strip(button) != "";
      Slot(
        if name.Some? then name.value else PlaceholderName(i),
        favorite,
        button,
        longPress && (standalone || bound),
        input,
        if (favorite || bound) && acts.Some? then NonEmpty(acts.value) else [],
        NormalizeAction(action),
        NormalizeAction(longAction))
  }

  /** A stored slot, read back as raw input. */
  function AsRaw(s: Slot): RawSlot {
    RawSlot(Some(s.name), s.favorite, s.hardButton, s.longPress, s.inputActivity,
            Some(s.activities), ActionDict(s.action), ActionDict(s.longAction))
  }

  /** The four rules every normalized slot obeys. */
  predicate IsNormal(s: Slot, standalone: bool) {
    var bound := Strip(s.hardButton) != "";
    && HasAction(s.action) && HasAction(s.longAction)
    && "" !in s.activities
    && (s.longPress ==> standalone || bound)
    && (s.activities != [] ==> s.favorite || bound)
  }

  lemma NormalizeSlotIsNormal(raw: RawSlot, i: nat, standalone: bool)
    ensures IsNormal(NormalizeSlot(raw, i, standalone), standalone)
  {
    assert HasAction(DEFAULT_ACTION);
  }

  /** Normalization leaves exactly the slots that obey the rules alone. */
  lemma NormalSlotsAreTheFixedPoints(s: Slot, i: nat, standalone: bool)
    ensures NormalizeSlot(AsRaw(s), i, standalone) == s <==> IsNormal(s, standalone)
  {
    var n := NormalizeSlot(AsRaw(s), i, standalone);
    NormalizeSlotIsNormal(AsRaw(s), i, standalone);
    if IsNormal(s, standalone) {
      assert n.activities == s.activities;
      assert n == s;
    }
  }

  lemma NormalizeSlotIdempotent(raw: RawSlot, i: nat, standalone: bool)
    ensures var n := NormalizeSlot(raw, i, standalone);
            NormalizeSlot(AsRaw(n), i, standalone) == n
  {
    var n := NormalizeSlot(raw, i, standalone);
    NormalizeSlotIsNormal(raw, i, standalone);
    NormalSlotsAreTheFixedPoints(n, i, standalone);
  }

  // -------------------------------------------------------- slot tables

  function NormalizeCommands(raw: RawCommands, slotCount: nat, standalone: bool): (r: seq<Slot>)
    ensures |r| == slotCount
  {
    seq(slotCount, i requires 0 <= i < slotCount =>
      if raw.CommandList? && i < |raw.items| then NormalizeSlot(raw.items[i], i, standalone)
      else DefaultSlot(i))
  }

  method NormalizeCommandList(raw: RawCommands, slotCount: nat, standalone: bool) returns (slots: seq<Slot>)
    ensures slots == NormalizeCommands(raw, slotCount, standalone)
  {
    slots := seq(slotCount, i requires 0 <= i < slotCount => DefaultSlot(i));
    if raw.NotAList? { return; }
    var last := if |raw.items| < slotCount then |raw.items| else slotCount;
    for idx := 0 to last
      invariant |slots| == slotCount
      invariant forall k :: 0 <= k < idx ==> slots[k] == NormalizeSlot(raw.items[k], k, standalone)
      invariant forall k :: idx <= k < slotCount ==> slots[k] == DefaultSlot(k)
    {
      slots := slots[idx := NormalizeSlot(raw.items[idx], idx, standalone)];
    }
  }

  function AsRawList(slots: seq<Slot>): (r: RawCommands)
    ensures r.CommandList? && |r.items| == |slots|
    ensures forall i :: 0 <= i < |slots| ==> r.items[i] == AsRaw(slots[i])
  {
    CommandList(seq(|slots|, i requires 0 <= i < |slots| => AsRaw(slots[i])))
  }

  /** Re-read a stored table. */
  function Renormalize(slots: seq<Slot>, slotCount: nat, standalone: bool): (r: seq<Slot>)
    ensures |r| == slotCount
    ensures forall i :: 0 <= i < slotCount ==>
      r[i] == if i < |slots| then NormalizeSlot(AsRaw(slots[i]), i, standalone) else DefaultSlot(i)
  {
    NormalizeCommands(AsRawList(slots), slotCount, standalone)
  }

  predicate AllNormal(slots: seq<Slot>, standalone: bool) {
    forall i :: 0 <= i < |slots| ==> IsNormal(slots[i], standalone)
  }

  lemma NormalizeCommandsIsNormal(raw: RawCommands, slotCount: nat, standalone: bool)
    ensures AllNormal(NormalizeCommands(raw, slotCount, standalone), standalone)
  {
    var r := NormalizeCommands(raw, slotCount, standalone);
    forall i | 0 <= i < |r| ensures IsNormal(r[i], standalone) {
      if raw.CommandList? && i < |raw.items| {
        NormalizeSlotIsNormal(raw.items[i], i, standalone);
      } else {
        assert HasAction(DEFAULT_ACTION);
      }
    }
  }

  /** A table of the right length survives re-reading exactly when its slots are normal. */
  lemma NormalTablesAreTheFixedPoints(slots: seq<Slot>, standalone: bool)
    ensures Renormalize(slots, |slots|, standalone) == slots <==> AllNormal(slots, standalone)
  {
    var r := Renormalize(slots, |slots|, standalone);
    forall i | 0 <= i < |slots| ensures r[i] == slots[i] <==> IsNormal(slots[i], standalone) {
      NormalSlotsAreTheFixedPoints(slots[i], i, standalone);
    }
    if AllNormal(slots, standalone) {
      assert r == slots;
    }
  }

  // ---------------------------------------------------- configured count

  function CountTrue(flags: seq<bool>): (n: nat)
    ensures n <= |flags|
  {
    if flags == [] then 0
    else CountTrue(flags[..|flags| - 1]) + if flags[|flags| - 1] then 1 else 0
  }

  function PositionsOf(flags: seq<bool>): (r: seq<nat>)
    ensures |r| == CountTrue(flags)
    ensures forall k :: 0 <= k < |r| ==> r[k] < |flags| && flags[r[k]]
    ensures forall j, k :: 0 <= j < k < |r| ==> r[j] < r[k]
  {
    if flags == [] then []
    else PositionsOf(flags[..|flags| - 1])
         + if flags[|flags| - 1] then [|flags| - 1] else []
  }

  /** Setting one flag adds one, clearing it takes one away. */
  lemma {:induction false} CountTrueUpdate(flags: seq<bool>, i: nat, v: bool)
    requires i < |flags|
    ensures CountTrue(flags[i := v])
         == CountTrue(flags) - (if flags[i] then 1 else 0) + (if v then 1 else 0)
  {
    var n := |flags| - 1;
    if i < n {
      CountTrueUpdate(flags[..n], i, v);
      assert flags[i := v][..n] == flags[..n][i := v];
    } else {
      assert flags[i := v][..n] == flags[..n];
    }
  }

  lemma {:induction false} CountTrueCompare(fewer: seq<bool>, more: seq<bool>)
    requires |fewer| == |more|
    requires forall i :: 0 <= i < |more| && fewer[i] ==> more[i]
    ensures CountTrue(fewer) <= CountTrue(more)
    ensures CountTrue(fewer) == CountTrue(more) <==> fewer == more
  {
    if more != [] {
      var n := |more| - 1;
      CountTrueCompare(fewer[..n], more[..n]);
      if CountTrue(fewer) == CountTrue(more) {
        assert fewer == fewer[..n] + [fewer[n]] && more == more[..n] + [more[n]];
      }
    }
  }

  lemma CountNext(flags: seq<bool>, i: nat)
    requires i < |flags|
    ensures CountTrue(flags[..i + 1]) == CountTrue(flags[..i]) + if flags[i] then 1 else 0
  {
    assert flags[..i + 1][..i] == flags[..i];
  }

  /** Slot i as the count sees it: both sides re-read without the standalone
      long-press rule. */
  predicate CountsAsConfigured(s: Slot, i: nat) {
    NormalizeSlot(AsRaw(s), i, false) != NormalizeSlot(AsRaw(DefaultSlot(i)), i, false)
  }

  predicate IsDefault(s: Slot, i: nat) { s == DefaultSlot(i) }

  function ConfiguredFlags(slots: seq<Slot>): (r: seq<bool>)
    ensures |r| == |slots|
    ensures forall i :: 0 <= i < |slots| ==> r[i] == CountsAsConfigured(slots[i], i)
  {
    seq(|slots|, i requires 0 <= i < |slots| => CountsAsConfigured(slots[i], i))
  }

  function ListedFlags(slots: seq<Slot>): (r: seq<bool>)
    ensures |r| == |slots|
    ensures forall i :: 0 <= i < |slots| ==> r[i] == !IsDefault(slots[i], i)
  {
    seq(|slots|, i requires 0 <= i < |slots| => !IsDefault(slots[i], i))
  }

  method CountConfiguredCommandSlots(raw: RawCommands, slotCount: nat, standalone: bool) returns (configured: nat)
    ensures configured == CountTrue(ConfiguredFlags(NormalizeCommands(raw, slotCount, standalone)))
  {
    var normalized := NormalizeCommandList(raw, slotCount, standalone);
    ghost var flags := ConfiguredFlags(normalized);
    configured := 0;
    for idx := 0 to slotCount
      invariant configured == CountTrue(flags[..idx])
    {
      CountNext(flags, idx);
      if CountsAsConfigured(normalized[idx], idx) {
        configured := configured + 1;
      }
    }
    assert flags[..slotCount] == flags;
  }

  /** Differs from the default by a long-press flag and nothing else. */
  predicate OnlyLongPress(s: Slot, i: nat) {
    !IsDefault(s, i) && IsDefault(s.(longPress := false), i)
  }

  lemma CountedUnlessOnlyLongPress(s: Slot, i: nat)
    requires IsNormal(s, true)
    ensures CountsAsConfigured(s, i) <==> !IsDefault(s, i) && !OnlyLongPress(s, i)
  {
    var d := DefaultSlot(i);
    NormalSlotsAreTheFixedPoints(d, i, false);
    assert NormalizeSlot(AsRaw(d), i, false) == d;
    var n := NormalizeSlot(AsRaw(s), i, false);
    assert n.activities == s.activities;
    assert n == s.(longPress := s.longPress && Strip(s.hardButton) != "");
  }

  /** The listing and the configured count agree exactly when no slot differs from
      its default by the standalone long-press flag alone. */
  lemma ListingMatchesCount(slots: seq<Slot>)
    requires AllNormal(slots, true)
    ensures CountTrue(ListedFlags(slots)) == CountTrue(ConfiguredFlags(slots))
       <==> forall i :: 0 <= i < |slots| ==> !OnlyLongPress(slots[i], i)
  {
    var counted, listed := ConfiguredFlags(slots), ListedFlags(slots);
    forall i | 0 <= i < |slots|
      ensures counted[i] == (listed[i] && !OnlyLongPress(slots[i], i))
    {
      CountedUnlessOnlyLongPress(slots[i], i);
    }
    CountTrueCompare(counted, listed);
    if counted == listed {
      forall i | 0 <= i < |slots| ensures !OnlyLongPress(slots[i], i) {
        assert counted[i] == listed[i];
      }
    }
  }

  // --------------------------------------------------------------- hash

  /** The part of one slot the hash covers. */
  datatype HashRow = HashRow(
    name: string, favorite: bool, mappedKey: string, longPress: bool,
    inputActivity: string, activities: seq<string>)

  datatype HashInput = HashInput(
    rows: seq<HashRow>, deviceName: string, port: int,
    powerOn: Option<int>, powerOff: Option<int>)

  predicate IsHexDigest(s: string) {
    |s| == 15 && forall i :: 0 <= i < |s| ==> IsDigit(s[i]) || 'a' <= s[i] <= 'f'
  }

  /** The truncated SHA-256 digest, left uninterpreted: any function that prints
      fifteen hexadecimal digits. */
  type Digest = f: HashInput -> string | forall x :: IsHexDigest(f(x))
    witness (x: HashInput) => "000000000000000"

  function StripAll(texts: seq<string>): seq<string> {
    seq(|texts|, i requires 0 <= i < |texts| => Strip(texts[i]))
  }

  function RowOf(s: Slot): HashRow {
    HashRow(Strip(s.name), s.favorite, Strip(s.hardButton),
            s.longPress && Strip(s.hardButton) != "",
            Strip(s.inputActivity), Sorting.SortBy(NonEmpty(StripAll(s.activities)), AsIs, Sorting.ByText))
  }

  const AsIs: string -> string := (text: string) => text

  /** `",".join(texts)` */
  function JoinCommas(texts: seq<string>): string {
    if texts == [] then "" else if |texts| == 1 then texts[0] else texts[0] + "," + JoinCommas(texts[1..])
  }

  function Flag(b: bool): string { if b then "1" else "0" }

  /** What the rows are sorted by before they are hashed: not the place of their slot. */
  const RowKey: HashRow -> seq<string> := (row: HashRow) =>
    [Lower(row.name), row.mappedKey, Flag(row.longPress), Flag(row.favorite), row.inputActivity,
        JoinCommas(row.activities)]

  function RowsOf(slots: seq<Slot>): (r: seq<HashRow>)
    ensures |r| == |slots|
  {
    seq(|slots|, i requires 0 <= i < |slots| => RowOf(slots[i]))
  }

  /** `_hash_payload` */
  function HashedRows(slots: seq<Slot>): seq<HashRow> {
    Sorting.SortBy(RowsOf(slots), RowKey, Sorting.ByTuple)
  }

  function NormalizePowerId(id: Option<int>): Option<int> {
    if id.Some? && POWER_COMMAND_MIN <= id.value <= POWER_COMMAND_MAX then id else None
  }

  function OrDefaultName(name: string): string {
    if name == "" then DEFAULT_WIFI_DEVICE_NAME else name
  }

  function CommandsHash(
      digest: Digest, slots: seq<Slot>, deviceName: string, port: int,
      powerOn: Option<int>, powerOff: Option<int>, slotCount: nat): (h: string)
    ensures h != "" && Strip(h) == h
  {
    var h := digest(HashInput(
      HashedRows(Renormalize(slots, slotCount, false)),
      Strip(OrDefaultName(deviceName)), port,
      NormalizePowerId(powerOn), NormalizePowerId(powerOff)));
    PlainIsFixed(h);
    h
  }

  /** Two slots the deploy cannot tell apart: same hub-side fields, whatever their
      actions and, without a hard button, whatever their long-press flag. */
  predicate SameOnHub(a: Slot, b: Slot) {
    && a.name == b.name && a.favorite == b.favorite && a.hardButton == b.hardButton
    && a.inputActivity == b.inputActivity && a.activities == b.activities
    && (Strip(a.hardButton) != "" ==> a.longPress == b.longPress)
  }

  /** The hash ignores actions and standalone long-press flags. */
  lemma HashIgnoresHomeAssistantSide(
      digest: Digest, a: seq<Slot>, b: seq<Slot>, deviceName: string, port: int,
      powerOn: Option<int>, powerOff: Option<int>, slotCount: nat)
    requires |a| == |b|
    requires forall i :: 0 <= i < |a| ==> SameOnHub(a[i], b[i])
    ensures CommandsHash(digest, a, deviceName, port, powerOn, powerOff, slotCount)
         == CommandsHash(digest, b, deviceName, port, powerOn, powerOff, slotCount)
  {
    var ra, rb := Renormalize(a, slotCount, false), Renormalize(b, slotCount, false);
    forall i | 0 <= i < slotCount ensures RowOf(ra[i]) == RowOf(rb[i]) {
      if i < |a| { assert SameOnHub(a[i], b[i]); }
    }
    assert RowsOf(ra) == RowsOf(rb);
  }
}
