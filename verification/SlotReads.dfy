/** What a stored or submitted slot, and a stored record, read as, field by field. */
module SlotReads {
  import opened Text
  import opened Slots
  import opened Records
  import Sorting
  import TextLaws

  /** A slot nobody configured: a favorite under its placeholder name. */
  predicate IsFreshSlot(s: Slot, i: nat) {
    && s.name == "Command " + Decimal(i + 1) && s.favorite && s.hardButton == "" && !s.longPress
    && s.inputActivity == "" && s.activities == []
    && s.action == map["action" := "perform-action"] && s.longAction == map["action" := "perform-action"]
  }

  /** An action given as fields keeps them, and performs nothing unless it says what. */
  predicate IsFilledIn(a: Action, fields: Action) {
    if "action" in fields && fields["action"] != "" then a == fields
    else a == fields["action" := "perform-action"]
  }

  predicate FirstItem(items: seq<Option<Action>>, j: nat) {
    j < |items| && items[j].Some? && forall l :: 0 <= l < j ==> items[l].None?
  }

  /** A list of actions counts as its first one, anything else as none. */
  ghost predicate IsAction(a: Action, raw: RawAction) {
    match raw
    case NotAnAction => IsFilledIn(a, map[])
    case ActionDict(fields) => IsFilledIn(a, fields)
    case ActionList(items) =>
      && (forall j: nat :: FirstItem(items, j) ==> IsFilledIn(a, items[j].value))
      && ((forall j :: 0 <= j < |items| ==> items[j].None?) ==> IsFilledIn(a, map[]))
  }

  function WithoutBlank(texts: seq<string>): seq<string> {
    if texts == [] then []
    else WithoutBlank(texts[..|texts| - 1]) + if texts[|texts| - 1] == "" then [] else [texts[|texts| - 1]]
  }

  /** Slot i as read from `raw`: a long press needs a button unless it stands alone, activities
      need a favorite or a button. */
  ghost predicate Reads(s: Slot, raw: RawSlot, i: nat, standalone: bool) {
    match raw
    case NotASlot => IsFreshSlot(s, i)
    case RawSlot(name, favorite, button, longPress, input, acts, action, longAction) =>
      && s.name == (if name.Some? then name.value else "Command " + Decimal(i + 1))
      && s.favorite == favorite && s.hardButton == button && s.inputActivity == input
      && s.longPress == (longPress && (standalone || Strip(button) != ""))
      && s.activities == (if acts.Some? && (favorite || Strip(button) != "") then WithoutBlank(acts.value) else [])
      && IsAction(s.action, action) && IsAction(s.longAction, longAction)
  }

  lemma {:induction false} FirstDictIs(items: seq<Option<Action>>)
    ensures forall j: nat :: FirstItem(items, j) ==> FirstDict(items) == items[j].value
    ensures (forall j :: 0 <= j < |items| ==> items[j].None?) ==> FirstDict(items) == DEFAULT_ACTION
  {
    if items != [] {
      FirstDictIs(items[1..]);
      forall j: nat | FirstItem(items, j) && j > 0 ensures FirstDict(items) == items[j].value {
        assert FirstItem(items[1..], j - 1);
      }
    }
  }

  lemma FilledIn(fields: Action)
    ensures IsFilledIn(WithAction(fields), fields)
  {
    assert fields + DEFAULT_ACTION == fields["action" := "perform-action"];
  }

  lemma DefaultIsFilledIn()
    ensures IsFilledIn(DEFAULT_ACTION, map[])
  {
  }

  lemma ActionReads(raw: RawAction)
    ensures IsAction(NormalizeAction(raw), raw)
  {
    DefaultIsFilledIn();
    match raw
    case NotAnAction =>
    case ActionDict(fields) => FilledIn(fields);
    case ActionList(items) =>
      FirstDictIs(items);
      FilledIn(FirstDict(items));
  }

  lemma WithoutBlankPrepend(text: string, texts: seq<string>)
    ensures WithoutBlank([text] + texts) == (if text == "" then [] else [text]) + WithoutBlank(texts)
  {
    if texts == [] {
      assert [text] + texts == [text] && [text][..0] == [];
    } else {
      var n := |texts| - 1;
      assert ([text] + texts)[..n + 1] == [text] + texts[..n];
      WithoutBlankPrepend(text, texts[..n]);
    }
  }

  lemma {:induction false} NonEmptyIs(texts: seq<string>)
    ensures NonEmpty(texts) == WithoutBlank(texts)
  {
    if texts != [] {
      NonEmptyIs(texts[1..]);
      assert texts == [texts[0]] + texts[1..];
      WithoutBlankPrepend(texts[0], texts[1..]);
    }
  }

  /** Normalization reads every slot so. */
  lemma SlotsRead(raw: RawSlot, i: nat, standalone: bool)
    ensures Reads(NormalizeSlot(raw, i, standalone), raw, i, standalone)
  {
    match raw
    case NotASlot =>
    case RawSlot(_, _, _, _, _, acts, action, longAction) =>
      ActionReads(action);
      ActionReads(longAction);
      if acts.Some? { NonEmptyIs(acts.value); }
  }

  /** A submitted table: as many slots as the record has, each from the item at its place. */
  ghost predicate TableReads(slots: seq<Slot>, raw: RawCommands, n: nat, standalone: bool) {
    && |slots| == n
    && forall i :: 0 <= i < n ==>
         if raw.CommandList? && i < |raw.items| then Reads(slots[i], raw.items[i], i, standalone)
         else IsFreshSlot(slots[i], i)
  }

  lemma TablesRead(raw: RawCommands, n: nat, standalone: bool)
    ensures TableReads(NormalizeCommands(raw, n, standalone), raw, n, standalone)
  {
    var slots := NormalizeCommands(raw, n, standalone);
    forall i | 0 <= i < n
      ensures if raw.CommandList? && i < |raw.items| then Reads(slots[i], raw.items[i], i, standalone)
              else IsFreshSlot(slots[i], i)
    {
      if raw.CommandList? && i < |raw.items| { SlotsRead(raw.items[i], i, standalone); }
    }
  }

  // --------------------------------------------------------------- records

  /** A key as read: letters and digits in lower case, the first 24 of them. */
  predicate IsKeyOf(key: string, text: string) {
    var kept := Sorting.WithKey(Lower(Strip(text)), TextLaws.Alnum, true);
    key == if |kept| > 24 then kept[..24] else kept
  }

  lemma KeyReads(text: string)
    ensures IsKeyOf(NormalizeKey(text), text)
  {
    TextLaws.KeepAlnumIs(Lower(Strip(text)));
  }

  /** What a user named, without outer blanks; nothing left is the default name. */
  predicate IsTidied(name: string, given: string) {
    var text := Strip(if given == "" then "Home Assistant" else given);
    name == if text == "" then "Home Assistant" else text
  }

  predicate IsPower(id: Option<int>, given: Option<int>) {
    id == if given.Some? && 1 <= given.value <= 10 then given else None
  }

  predicate IsSlotCount(n: nat, given: Option<int>, key: string) {
    n == if given.Some? && 1 <= given.value <= 100 then given.value else if key == "haevents" then 25 else 10
  }

  /** A record made without anything stored: default slots, nothing deployed, no power ids. */
  predicate IsFresh(r: DeviceRecord, key: string, name: string, n: nat) {
    && r.key == key && r.name == name && r.slotCount == n && |r.commands| == n
    && (forall i :: 0 <= i < n ==> IsFreshSlot(r.commands[i], i))
    && r.powerOn.None? && r.powerOff.None? && r.deployed == [] && r.deviceId.None? && r.hash == "" && r.port.None?
  }

  /** The record as read from what is stored under a key that is not blank. */
  ghost predicate RecordReads(r: DeviceRecord, key: string, name: string, count: Option<int>, commands: RawCommands,
      on: Option<int>, off: Option<int>, deployed: seq<Slot>, id: Option<int>, hash: string, port: Option<int>)
  {
    && IsKeyOf(r.key, key) && IsTidied(r.name, name) && IsSlotCount(r.slotCount, count, r.key)
    && TableReads(r.commands, commands, r.slotCount, r.key == "haevents")
    && IsPower(r.powerOn, on) && IsPower(r.powerOff, off)
    && r.deployed == deployed && r.deviceId == id && r.hash == Strip(hash) && r.port == port
  }

  lemma FreshSlots(n: nat)
    ensures forall i :: 0 <= i < n ==> IsFreshSlot(NormalizeCommands(NotAList, n, false)[i], i)
  {
  }

  /** The record made for a legal key and a tidy name. */
  lemma MadeIsFresh(key: string, name: string, r: DeviceRecord)
    requires IsKey(key) && TidyName(name) == name && r == DefaultRecord(key, name, None)
    ensures IsFresh(r, key, name, if key == "haevents" then 25 else 10) && WellFormed(r)
  {
    KeysAreFixed(key);
    FreshSlots(r.slotCount);
    DefaultRecordWellFormed(key, name, None);
  }

  lemma CountReads(key: string, count: Option<int>)
    requires IsKey(key)
    ensures IsSlotCount(RecordSlotCount(key, count), count, key)
  {
    KeysAreFixed(key);
  }

  /** The record a stored one is read into, before its stored fields. */
  lemma BaseReads(key: string, name: string, count: Option<int>)
    requires IsKey(key)
    ensures var base := DefaultRecord(key, TidyName(name), count);
      base.key == key && IsTidied(base.name, name) && IsSlotCount(base.slotCount, count, key)
  {
    KeysAreFixed(key);
    TidyNameIdempotent(name);
    CountReads(key, count);
  }

  /** A stored record with a key is read so, whatever its place in the list. */
  lemma RecordsRead(key: string, name: string, count: Option<int>, commands: RawCommands,
      on: Option<int>, off: Option<int>, deployed: seq<Slot>, id: Option<int>, hash: string, port: Option<int>,
      fallbackKey: string)
    requires NormalizeKey(key) != ""
    ensures var raw := RawRecord(key, name, count, commands, on, off, deployed, id, hash, port);
      RecordReads(NormalizeRecord(raw, fallbackKey), key, name, count, commands, on, off, deployed, id, hash, port)
  {
    var k := NormalizeKey(key);
    KeyReads(key);
    BaseReads(k, name, count);
    KeysAreFixed(k);
    TablesRead(commands, RecordSlotCount(k, count), k == "haevents");
  }

  lemma PlaceIsPlain(i: nat)
    ensures IsPlain("device" + Decimal(i + 1))
  {
    assert IsPlain("device");
  }

  /** One without a key is read under its place in the list. */
  lemma UnnamedRecordsRead(raw: RawRecord, i: nat)
    requires raw.NotARecord? || NormalizeKey(raw.key) == ""
    ensures IsKeyOf(NormalizeRecord(raw, FallbackKey(i)).key, "device" + Decimal(i + 1))
  {
    PlaceIsPlain(i);
    PlainIsFixed("device" + Decimal(i + 1));
    KeyReads("device" + Decimal(i + 1));
    KeysAreFixed(NormalizeKey(FallbackKey(i)));
  }

  // ------------------------------------------------------------------ the cap

  /** The cap keeps every reserved record and the first users up to the bound, in order. */
  lemma {:induction false} CapKeepsFirst<T>(rs: seq<T>, isUser: T -> bool, cap: nat)
    ensures var kept, users := Capped(rs, isUser, cap), Sorting.WithKey(rs, isUser, true);
      && Sorting.WithKey(kept, isUser, false) == Sorting.WithKey(rs, isUser, false)
      && Sorting.WithKey(kept, isUser, true) == (if |users| <= cap then users else users[..cap])
      && UserCount(kept, isUser) == |Sorting.WithKey(kept, isUser, true)|
  {
    if rs != [] {
      var n := |rs| - 1;
      var front := Capped(rs[..n], isUser, cap);
      CapKeepsFirst(rs[..n], isUser, cap);
      Sorting.WithKeyAppend(front, rs[n], isUser, true);
      Sorting.WithKeyAppend(front, rs[n], isUser, false);
      UserCountAppend(front, rs[n], isUser);
    }
  }
}
