/** Where the store's methods write and what, record by record: the laws of every method stated
    by key and by field. */
module StoreByKey {
  import opened Text
  import opened Slots
  import opened Records
  import opened SlotReads
  import opened Store
  import RenameLoop
  import Sorting
  import opened WifiEvents
  import Ownership

  // ------------------------------------------------------------ addresses

  /** A record of the user's, as opposed to the reserved one. */
  predicate OfUser(r: DeviceRecord) { r.key != "haevents" }

  predicate FirstUser(rs: seq<DeviceRecord>, i: nat) {
    i < |rs| && OfUser(rs[i]) && forall j :: 0 <= j < i ==> !OfUser(rs[j])
  }

  predicate NoUser(rs: seq<DeviceRecord>) { forall i :: 0 <= i < |rs| ==> !OfUser(rs[i]) }

  predicate NoKey(rs: seq<DeviceRecord>, key: string) { forall i :: 0 <= i < |rs| ==> rs[i].key != key }

  /** Nothing but record i differs. */
  predicate OnlyAt(rs: seq<DeviceRecord>, after: seq<DeviceRecord>, i: nat) {
    |after| == |rs| && forall j :: 0 <= j < |rs| && j != i ==> after[j] == rs[j]
  }

  lemma UsersAre(rs: seq<DeviceRecord>)
    requires ListValid(rs)
    ensures forall i :: 0 <= i < |rs| ==> (IsUser(rs[i]) <==> OfUser(rs[i]))
  {
    forall i | 0 <= i < |rs| ensures IsUser(rs[i]) <==> OfUser(rs[i]) {
      assert WellFormed(rs[i]);
      KeysAreFixed(rs[i].key);
    }
  }

  // ------------------------------------------------------ writes by key

  /** The methods that write under a key, or without one to the first user device. */
  predicate WritesByKey(op: StoreOp) { op.SaveDeployed? || op.SetDeployedId? || op.SetCommands? }

  function KeyIn(op: StoreOp): string
    requires WritesByKey(op)
  {
    match op
    case SaveDeployed(key, _, _, _, _) => NormalizeKey(key)
    case SetDeployedId(key, _) => NormalizeKey(key)
    case SetCommands(target, _, _, _) => if target.Some? then NormalizeKey(target.value) else ""
  }

  /** What the method makes of the record it writes: the fields it is given and no others. */
  ghost predicate Wrote(b: DeviceRecord, a: DeviceRecord, op: StoreOp)
    requires WritesByKey(op)
  {
    match op
    case SaveDeployed(_, deployed, id, hash, port) =>
      a == b.(deployed := deployed, deviceId := id, hash := Strip(hash), port := port)
    case SetDeployedId(_, id) => a == b.(deviceId := id)
    case SetCommands(_, commands, on, off) =>
      && a == b.(commands := a.commands, powerOn := a.powerOn, powerOff := a.powerOff)
      && TableReads(a.commands, commands, b.slotCount, b.key == "haevents")
      && IsPower(a.powerOn, on) && IsPower(a.powerOff, off)
  }

  lemma EditWrites(digest: Digest, b: DeviceRecord, op: StoreOp)
    requires WritesByKey(op) && WellFormed(b)
    ensures Wrote(b, EditOf(digest, op)(b), op)
  {
    match op
    case SaveDeployed(_, deployed, id, hash, port) =>
    case SetDeployedId(_, id) =>
    case SetCommands(_, commands, on, off) =>
      KeysAreFixed(b.key);
      TablesRead(commands, b.slotCount, b.key == "haevents");
  }

  /** The setup's user devices are the user's. */
  predicate UsersFit(u: Setup, rs: seq<DeviceRecord>) {
    forall i :: 0 <= i < |rs| ==> (u.isUser(rs[i]) <==> OfUser(rs[i]))
  }

  lemma FoundUnderKey(rs: seq<DeviceRecord>, key: string, i: nat)
    requires i < |rs| && rs[i].key == key && Distinct(KeysOf(rs))
    ensures RenameLoop.FindKey(rs, key, 0) == Some(i)
  {
    assert forall j :: 0 <= j < |rs| ==> KeysOf(rs)[j] == rs[j].key;
  }

  lemma LocateKnown(u: Setup, rs: seq<DeviceRecord>, key: string, i: nat)
    requires i < |rs| && rs[i].key == key != "" && Distinct(KeysOf(rs))
    ensures LocateKey(u, rs, key) == (rs, Some(i))
  {
    FoundUnderKey(rs, key, i);
  }

  lemma LocateUnknown(u: Setup, rs: seq<DeviceRecord>, key: string)
    requires UsersFit(u, rs) && key != "" && NoKey(rs, key)
    ensures LocateKey(u, rs, key)
         == if key == "default" && NoUser(rs) then (rs + [u.device], Some(|rs|)) else (rs, None)
  {
  }

  lemma LocateUnnamed(u: Setup, rs: seq<DeviceRecord>)
    requires UsersFit(u, rs)
    ensures forall i: nat :: FirstUser(rs, i) ==> LocateKey(u, rs, "") == (rs, Some(i))
    ensures NoUser(rs) ==> LocateKey(u, rs, "") == (rs + [u.device], Some(|rs|))
  {
    forall i: nat | FirstUser(rs, i) ensures LocateKey(u, rs, "") == (rs, Some(i)) {
      var at := FirstOf(rs, u.isUser, true, 0);
      FirstOfIs(rs, u.isUser, true, 0, i);
    }
  }

  lemma {:induction false} FirstOfIs<T>(rs: seq<T>, isUser: T -> bool, wanted: bool, from: nat, i: nat)
    requires from <= i < |rs| && isUser(rs[i]) == wanted && forall j :: from <= j < i ==> isUser(rs[j]) != wanted
    ensures FirstOf(rs, isUser, wanted, from) == Some(i)
    decreases |rs| - from
  {
    if from < i { FirstOfIs(rs, isUser, wanted, from + 1, i); }
  }

  lemma EditedAt(rs: seq<DeviceRecord>, i: nat, edit: DeviceRecord -> DeviceRecord)
    requires i < |rs|
    ensures OnlyAt(rs, EditAt((rs, Some(i)), edit), i) && EditAt((rs, Some(i)), edit)[i] == edit(rs[i])
  {
  }

  lemma EditedNew(rs: seq<DeviceRecord>, b: DeviceRecord, edit: DeviceRecord -> DeviceRecord)
    ensures EditAt((rs + [b], Some(|rs|)), edit) == rs + [edit(b)]
  {
  }

  lemma StepIsEdit(u: Setup, rs: seq<DeviceRecord>, op: StoreOp)
    requires WritesByKey(op)
    ensures StoreStep(u, rs, op) == EditAt(LocateKey(u, rs, KeyIn(op)), EditOf(u.digest, op))
  {
  }

  lemma SetupUsers(digest: Digest, rs: seq<DeviceRecord>)
    requires ListValid(rs)
    ensures UsersFit(SetupOf(digest), rs)
  {
    UsersAre(rs);
  }

  /** Under a key the store knows: that record, and only it, takes what the method writes. */
  lemma KnownKeyIsWritten(digest: Digest, rs: seq<DeviceRecord>, op: StoreOp, i: nat)
    requires ListValid(rs) && WritesByKey(op) && i < |rs| && rs[i].key == KeyIn(op)
    ensures var after := StoreStep(SetupOf(digest), rs, op); OnlyAt(rs, after, i) && Wrote(rs[i], after[i], op)
  {
    var u := SetupOf(digest);
    StepIsEdit(u, rs, op);
    LocateKnown(u, rs, KeyIn(op), i);
    EditedAt(rs, i, EditOf(digest, op));
    EditWrites(digest, rs[i], op);
  }

  /** Under a key it does not know: nothing, unless it is the default one and the user has no
      device, which then gets a record. */
  lemma UnknownKeyIsRefused(digest: Digest, rs: seq<DeviceRecord>, op: StoreOp)
    requires ListValid(rs) && WritesByKey(op) && KeyIn(op) != "" && NoKey(rs, KeyIn(op))
    ensures var after := StoreStep(SetupOf(digest), rs, op);
      if KeyIn(op) == "default" && NoUser(rs) then AddsDefault(rs, after, op) else after == rs
  {
    var u := SetupOf(digest);
    SetupUsers(digest, rs);
    StepIsEdit(u, rs, op);
    LocateUnknown(u, rs, KeyIn(op));
    SetupDevice(digest);
    NewDefaultIsWritten(u, rs, op);
  }

  /** Without a key: the first user device, or a new default record. */
  lemma NoKeyIsFirstUser(digest: Digest, rs: seq<DeviceRecord>, op: StoreOp)
    requires ListValid(rs) && WritesByKey(op) && KeyIn(op) == ""
    ensures var after := StoreStep(SetupOf(digest), rs, op);
      && (forall i: nat :: FirstUser(rs, i) ==> OnlyAt(rs, after, i) && Wrote(rs[i], after[i], op))
      && (NoUser(rs) ==> AddsDefault(rs, after, op))
  {
    var u := SetupOf(digest);
    SetupUsers(digest, rs);
    StepIsEdit(u, rs, op);
    LocateUnnamed(u, rs);
    SetupDevice(digest);
    NewDefaultIsWritten(u, rs, op);
    forall i: nat | FirstUser(rs, i)
      ensures OnlyAt(rs, StoreStep(u, rs, op), i) && Wrote(rs[i], StoreStep(u, rs, op)[i], op)
    {
      EditedAt(rs, i, EditOf(digest, op));
      EditWrites(digest, rs[i], op);
    }
  }

  /** A new default record is appended and written. */
  ghost predicate AddsDefault(rs: seq<DeviceRecord>, after: seq<DeviceRecord>, op: StoreOp)
    requires WritesByKey(op)
  {
    && |after| == |rs| + 1 && after[..|rs|] == rs
    && exists b :: IsFresh(b, "default", "Home Assistant", 10) && Wrote(b, after[|rs|], op)
  }

  lemma NewDefaultIsWritten(u: Setup, rs: seq<DeviceRecord>, op: StoreOp)
    requires WritesByKey(op) && IsFresh(u.device, "default", "Home Assistant", 10) && WellFormed(u.device)
    ensures AddsDefault(rs, EditAt((rs + [u.device], Some(|rs|)), EditOf(u.digest, op)), op)
  {
    EditedNew(rs, u.device, EditOf(u.digest, op));
    EditWrites(u.digest, u.device, op);
  }

  lemma SetupDevice(digest: Digest)
    ensures var d := SetupOf(digest).device; IsFresh(d, "default", "Home Assistant", 10) && WellFormed(d)
  {
    DefaultKeyIsPlain();
    MadeIsFresh(DEFAULT_WIFI_DEVICE_KEY, DEFAULT_WIFI_DEVICE_NAME, SetupOf(digest).device);
  }

  // ------------------------------------------------------- other methods

  predicate WroteName(b: DeviceRecord, a: DeviceRecord, name: string, hash: Option<string>) {
    a == if Strip(name) == "" then b
         else b.(name := Strip(name), hash := if hash.Some? then Strip(hash.value) else b.hash)
  }

  lemma RenameStep(u: Setup, rs: seq<DeviceRecord>, key: string, name: string, hash: Option<string>)
    ensures StoreStep(u, rs, RenameDevice(key, name, hash))
         == EditAt((rs, RenameLoop.FindKey(rs, NormalizeKey(key), 0)), RenameEdit(key, name, hash))
  {
  }

  /** A rename: of the record under the key, if there is one and the name is not blank. */
  lemma RenamedByKey(u: Setup, rs: seq<DeviceRecord>, key: string, name: string, hash: Option<string>, i: nat)
    requires Distinct(KeysOf(rs))
    ensures var after := StoreStep(u, rs, RenameDevice(key, name, hash));
      && (i < |rs| && rs[i].key == NormalizeKey(key) ==> OnlyAt(rs, after, i) && WroteName(rs[i], after[i], name, hash))
      && (NoKey(rs, NormalizeKey(key)) ==> after == rs)
  {
    RenameStep(u, rs, key, name, hash);
    if i < |rs| && rs[i].key == NormalizeKey(key) {
      FoundUnderKey(rs, NormalizeKey(key), i);
      EditedAt(rs, i, RenameEdit(key, name, hash));
    }
  }

  /** A pending rename, applied through the store: the record under its key takes it. */
  lemma RenameIsApplied(u: Setup, rs: seq<DeviceRecord>, p: RenameLoop.PendingRename, i: nat)
    requires Distinct(KeysOf(rs)) && i < |rs| && rs[i].key == p.key && NormalizeKey(p.key) == p.key
    ensures StoreStep(u, rs, RenameDevice(p.key, p.name, p.hash)) == rs[i := RenameLoop.ApplyRename(rs[i], p)]
  {
    RenameStep(u, rs, p.key, p.name, p.hash);
    FoundUnderKey(rs, p.key, i);
  }

  function OtherThan(key: string): DeviceRecord -> bool { (r: DeviceRecord) => r.key != key }

  lemma {:induction false} WithoutIsFilter(rs: seq<DeviceRecord>, key: string, other: DeviceRecord -> bool)
    requires other == OtherThan(key)
    ensures Without(rs, key) == Sorting.WithKey(rs, other, true)
  {
    if rs != [] { WithoutIsFilter(rs[..|rs| - 1], key, other); }
  }

  /** Filtering out the one element that fails a test. */
  lemma CutOne<T>(front: seq<T>, x: T, back: seq<T>, keep: T -> bool)
    requires !keep(x) && (forall y :: y in front ==> keep(y)) && (forall y :: y in back ==> keep(y))
    ensures Sorting.WithKey(front + ([x] + back), keep, true) == front + back
  {
    Sorting.WithKeyConcat(front, [x] + back, keep, true);
    Sorting.WithKeyConcat([x], back, keep, true);
    Sorting.WithKeyOfAll(front, keep, true);
    Sorting.WithKeyOfAll(back, keep, true);
    Sorting.WithKeyAppend([], x, keep, true);
    assert [] + [x] == [x] && [] + back == back;
  }

  lemma KeysApart(rs: seq<DeviceRecord>, i: nat, j: nat)
    requires Distinct(KeysOf(rs)) && i < j < |rs|
    ensures rs[i].key != rs[j].key
  {
    assert KeysOf(rs)[i] != KeysOf(rs)[j];
  }

  lemma OthersDiffer(rs: seq<DeviceRecord>, i: nat)
    requires Distinct(KeysOf(rs)) && i < |rs|
    ensures forall r :: r in rs[..i] ==> r.key != rs[i].key
    ensures forall r :: r in rs[i + 1..] ==> r.key != rs[i].key
  {
    forall r | r in rs[..i] ensures r.key != rs[i].key {
      var j :| 0 <= j < i && rs[..i][j] == r;
      KeysApart(rs, j, i);
    }
    forall r | r in rs[i + 1..] ensures r.key != rs[i].key {
      var j :| 0 <= j < |rs| - i - 1 && rs[i + 1..][j] == r;
      KeysApart(rs, i, i + 1 + j);
    }
  }

  lemma Around<T>(xs: seq<T>, i: nat)
    requires i < |xs|
    ensures xs == xs[..i] + ([xs[i]] + xs[i + 1..])
  {
  }

  lemma WithoutOne(rs: seq<DeviceRecord>, key: string, i: nat)
    requires Distinct(KeysOf(rs)) && i < |rs| && rs[i].key == key
    ensures Without(rs, key) == rs[..i] + rs[i + 1..]
  {
    var other, front, back := OtherThan(key), rs[..i], rs[i + 1..];
    WithoutIsFilter(rs, key, other);
    OthersDiffer(rs, i);
    Around(rs, i);
    CutOne(front, rs[i], back, other);
  }

  lemma WithoutNone(rs: seq<DeviceRecord>, key: string)
    requires NoKey(rs, key)
    ensures Without(rs, key) == rs
  {
    WithoutIsFilter(rs, key, OtherThan(key));
    Sorting.WithKeyOfAll(rs, OtherThan(key), true);
  }

  /** A deletion takes out the record under the key and closes the gap. */
  lemma DeletedByKey(u: Setup, rs: seq<DeviceRecord>, key: string, i: nat)
    requires Distinct(KeysOf(rs))
    ensures NoKey(rs, NormalizeKey(key)) ==> StoreStep(u, rs, DeleteDevice(key)) == rs
    ensures i < |rs| && rs[i].key == NormalizeKey(key) ==>
      StoreStep(u, rs, DeleteDevice(key)) == rs[..i] + rs[i + 1..]
  {
    var k := NormalizeKey(key);
    if NoKey(rs, k) { WithoutNone(rs, k); }
    if i < |rs| && rs[i].key == k { WithoutOne(rs, k, i); }
  }

  /** How many devices are the user's. */
  function UserDevices(rs: seq<DeviceRecord>): nat {
    if rs == [] then 0 else UserDevices(rs[..|rs| - 1]) + if OfUser(rs[|rs| - 1]) then 1 else 0
  }

  lemma {:induction false} UsersAreCounted(u: Setup, rs: seq<DeviceRecord>)
    requires UsersFit(u, rs)
    ensures UserCount(rs, u.isUser) == UserDevices(rs)
  {
    if rs != [] {
      assert UsersFit(u, rs[..|rs| - 1]);
      UsersAreCounted(u, rs[..|rs| - 1]);
    }
  }

  /** The first drawn token no record has as its key. */
  predicate FirstUnused(rs: seq<DeviceRecord>, tokens: seq<Token>, j: nat) {
    j < |tokens| && NoKey(rs, tokens[j]) && forall l :: 0 <= l < j ==> !NoKey(rs, tokens[l])
  }

  lemma TokenIsKey(token: Token)
    ensures IsKey(token) && NormalizeKey(token) == token && token != "haevents" && !IsEventsKey(token)
  {
    KeysAreFixed(token);
    assert "haevents"[0] == 'h';
  }

  lemma KeysHave(rs: seq<DeviceRecord>, key: string)
    ensures key in KeysOf(rs) <==> !NoKey(rs, key)
  {
    if i :| 0 <= i < |rs| && rs[i].key == key { assert KeysOf(rs)[i] == key; }
  }

  lemma {:induction false} FirstFreeIs(rs: seq<DeviceRecord>, tokens: seq<Token>)
    ensures forall j: nat :: FirstUnused(rs, tokens, j) ==> FirstFree(rs, tokens) == Some(tokens[j])
    ensures (forall j :: 0 <= j < |tokens| ==> !NoKey(rs, tokens[j])) ==> FirstFree(rs, tokens).None?
    decreases tokens
  {
    if tokens != [] {
      TokenIsKey(tokens[0]);
      KeysHave(rs, tokens[0]);
      FirstFreeIs(rs, tokens[1..]);
      forall j: nat | FirstUnused(rs, tokens, j) && j > 0 ensures FirstUnused(rs, tokens[1..], j - 1) {}
    }
  }

  lemma CreatedIs(u: Setup, rs: seq<DeviceRecord>, name: string, tokens: seq<Token>, j: nat)
    requires UsersFit(u, rs) && u.cap == 5 && UserDevices(rs) < 5 && FirstUnused(rs, tokens, j)
    ensures Created(u, rs, name, tokens) == rs + [u.make(name, tokens[j])]
  {
    UsersAreCounted(u, rs);
    FirstFreeIs(rs, tokens);
  }

  lemma MadeForUser(name: string, token: Token, r: DeviceRecord)
    requires r == DefaultRecord(NormalizeKey(token), TidyName(name), None)
    ensures IsFresh(r, token, TidyName(name), 10)
  {
    TokenIsKey(token);
    TidyNameIdempotent(name);
    MadeIsFresh(token, TidyName(name), r);
  }

  /** The new record stands at the end. */
  predicate Appends(rs: seq<DeviceRecord>, after: seq<DeviceRecord>) {
    |after| == |rs| + 1 && after[..|rs|] == rs
  }

  /** A creation appends a fresh record under the first unused token, below the cap of five. */
  lemma CreatedByToken(digest: Digest, rs: seq<DeviceRecord>, name: string, tokens: seq<Token>, j: nat)
    requires ListValid(rs)
    ensures var after := StoreStep(SetupOf(digest), rs, CreateDevice(name, tokens));
      && (UserDevices(rs) >= 5 ==> after == rs)
      && (UserDevices(rs) < 5 && FirstUnused(rs, tokens, j) ==>
            && Appends(rs, after)
            && IsFresh(after[|rs|], tokens[j], after[|rs|].name, 10) && IsTidied(after[|rs|].name, name))
  {
    var u := SetupOf(digest);
    SetupUsers(digest, rs);
    UsersAreCounted(u, rs);
    if UserDevices(rs) < 5 && FirstUnused(rs, tokens, j) {
      CreatedIs(u, rs, name, tokens, j);
      MadeForUser(name, tokens[j], u.make(name, tokens[j]));
    }
  }

  // ------------------------------------------------- the reserved record

  predicate Reserved(rs: seq<DeviceRecord>, i: nat) { i < |rs| && rs[i].key == "haevents" }

  lemma EventsKeyIsKey(key: string)
    requires key == WIFI_EVENTS_DEVICE_KEY
    ensures IsKey(key)
  {
    assert forall i :: 0 <= i < |key| ==> 'a' <= key[i] <= 'z';
  }

  lemma EventsNameIsTidy(name: string)
    requires name == WIFI_EVENTS_DEVICE_NAME
    ensures TidyName(name) == name
  {
    StripTrimmed(name);
  }

  lemma SetupEvents(digest: Digest)
    ensures IsFresh(SetupOf(digest).events, "haevents", "Wifi Events", 25)
  {
    EventsKeyIsKey(WIFI_EVENTS_DEVICE_KEY);
    EventsNameIsTidy(WIFI_EVENTS_DEVICE_NAME);
    MadeIsFresh(WIFI_EVENTS_DEVICE_KEY, WIFI_EVENTS_DEVICE_NAME, SetupOf(digest).events);
  }

  lemma ReservedIsFound(u: Setup, rs: seq<DeviceRecord>, i: nat)
    requires UsersFit(u, rs) && Distinct(KeysOf(rs))
    ensures Reserved(rs, i) ==> FirstOf(rs, u.isUser, false, 0) == Some(i) && WithEvents(u, rs) == (rs, Some(i))
    ensures NoKey(rs, "haevents") ==>
      FirstOf(rs, u.isUser, false, 0).None? && WithEvents(u, rs) == (rs + [u.events], Some(|rs|))
  {
    assert forall j :: 0 <= j < |rs| ==> KeysOf(rs)[j] == rs[j].key;
    if Reserved(rs, i) { FirstOfIs(rs, u.isUser, false, 0, i); }
  }

  lemma EndpointStep(u: Setup, rs: seq<DeviceRecord>, e: EndpointOp)
    ensures StoreStep(u, rs, Endpoint(e))
         == EditAt(if e.OpAllocate? && Strip(e.name) != "" then WithEvents(u, rs)
                   else (rs, FirstOf(rs, u.isUser, false, 0)), EndpointEdit(u.digest, e))
  {
  }

  /** The endpoints act on the reserved record alone; */
  lemma EndpointsActOnReserved(u: Setup, rs: seq<DeviceRecord>, e: EndpointOp, i: nat)
    requires UsersFit(u, rs) && Distinct(KeysOf(rs)) && Reserved(rs, i)
    ensures var after := StoreStep(u, rs, Endpoint(e));
      OnlyAt(rs, after, i) && after[i] == WifiEvents.Step(u.digest, rs[i], e)
  {
    ReservedIsFound(u, rs, i);
    EndpointStep(u, rs, e);
    EditedAt(rs, i, EndpointEdit(u.digest, e));
  }

  /** without one, only a named allocation acts, on a fresh one. */
  lemma AllocationMakesReserved(u: Setup, rs: seq<DeviceRecord>, e: EndpointOp)
    requires UsersFit(u, rs) && Distinct(KeysOf(rs)) && NoKey(rs, "haevents")
    ensures var after := StoreStep(u, rs, Endpoint(e));
      after == if e.OpAllocate? && Strip(e.name) != "" then rs + [WifiEvents.Step(u.digest, u.events, e)] else rs
  {
    ReservedIsFound(u, rs, 0);
    EndpointStep(u, rs, e);
    EditedNew(rs, u.events, EndpointEdit(u.digest, e));
  }

  /** Ensuring the reserved record makes it at most once. */
  lemma EnsuredOnce(u: Setup, rs: seq<DeviceRecord>, i: nat)
    requires UsersFit(u, rs) && Distinct(KeysOf(rs))
    ensures Reserved(rs, i) ==> StoreStep(u, rs, EnsureEvents) == rs
    ensures NoKey(rs, "haevents") ==> StoreStep(u, rs, EnsureEvents) == rs + [u.events]
  {
    ReservedIsFound(u, rs, i);
    if Reserved(rs, i) {
      EditedAt(rs, i, NoEdit());
    } else {
      EditedNew(rs, u.events, NoEdit());
    }
  }

  /** All of that for the store as it is set up. */
  lemma StoreIsSetUp(digest: Digest, rs: seq<DeviceRecord>)
    requires ListValid(rs)
    ensures UsersFit(SetupOf(digest), rs) && Distinct(KeysOf(rs)) && SetupOf(digest).digest == digest
    ensures IsFresh(SetupOf(digest).events, "haevents", "Wifi Events", 25)
  {
    SetupUsers(digest, rs);
    SetupEvents(digest);
  }

  // ------------------------------------------------ the ownership write

  /** The last assignment made under the key. */
  predicate LastUnder(assignments: seq<Ownership.Assignment>, key: string, k: nat) {
    && k < |assignments| && assignments[k].key == key
    && forall l :: k < l < |assignments| ==> assignments[l].key != key
  }

  lemma {:induction false} LookupIsLast(assignments: seq<Ownership.Assignment>, key: string, k: nat)
    requires LastUnder(assignments, key, k)
    ensures Ownership.Lookup(assignments, key) == Some(assignments[k])
  {
    var n := |assignments| - 1;
    if k < n {
      assert assignments[n].key != key;
      LookupIsLast(assignments[..n], key, k);
    }
  }

  lemma LookupIsNone(assignments: seq<Ownership.Assignment>, key: string)
    requires forall k :: 0 <= k < |assignments| ==> assignments[k].key != key
    ensures Ownership.Lookup(assignments, key).None?
  {
    Ownership.LookupFinds(assignments, key);
  }

  /** The ownership write gives every record assigned its device id and hash and nothing else, and
      clears id, hash and snapshot of the others. */
  lemma ReconciledByKey(u: Setup, rs: seq<DeviceRecord>, assignments: seq<Ownership.Assignment>, i: nat, k: nat)
    requires i < |rs|
    ensures var after := StoreStep(u, rs, Reconcile(assignments));
      && |after| == |rs|
      && (LastUnder(assignments, rs[i].key, k) ==>
            after[i] == rs[i].(deviceId := Some(assignments[k].id), hash := Strip(assignments[k].hash)))
      && ((forall l :: 0 <= l < |assignments| ==> assignments[l].key != rs[i].key) ==>
            after[i] == rs[i].(deviceId := None, hash := "", deployed := []))
  {
    if LastUnder(assignments, rs[i].key, k) {
      LookupIsLast(assignments, rs[i].key, k);
    } else if forall l :: 0 <= l < |assignments| ==> assignments[l].key != rs[i].key {
      LookupIsNone(assignments, rs[i].key);
    }
  }
}
