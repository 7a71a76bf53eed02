/** The command-config store of one hub: every mutating method as a step on the record
    list, the invariant of all runs, and what each half of a record is immune to. */
module Store {
  import opened Text
  import opened Slots
  import opened Records
  import opened WifiEvents
  import opened Ownership
  import opened RenameLoop

  // -------------------------------------------------------------- lookup

  /** What the steps take as given: the digest, which records are user devices and how many
      there may be, which records are sound, and the records the store makes on its own. */
  datatype Setup = Setup(
    digest: Digest, isUser: DeviceRecord -> bool, cap: nat, sound: DeviceRecord -> bool,
    make: (string, string) -> DeviceRecord, device: DeviceRecord, events: DeviceRecord)

  const IsSound: DeviceRecord -> bool := (r: DeviceRecord) => WellFormed(r)

  /** A new device named by the user, keyed by a drawn token. */
  const NewDevice: (string, string) -> DeviceRecord := (name: string, token: string) =>
    DefaultRecord(NormalizeKey(token), TidyName(name), None)

  function SetupOf(digest: Digest): Setup {
    Setup(digest, IsUser, MAX_WIFI_DEVICES, IsSound, NewDevice,
          DefaultRecord(DEFAULT_WIFI_DEVICE_KEY, DEFAULT_WIFI_DEVICE_NAME, None), EmptyEventsRecord)
  }

  /** First record from a position on that is a user device, or is not. */
  function FirstOf<T>(rs: seq<T>, isUser: T -> bool, wanted: bool, from: nat): (r: Option<nat>)
    requires from <= |rs|
    ensures r.Some? ==> from <= r.value < |rs| && isUser(rs[r.value]) == wanted
    ensures r.None? ==> forall i :: from <= i < |rs| ==> isUser(rs[i]) != wanted
    decreases |rs| - from
  {
    if from == |rs| then None
    else if isUser(rs[from]) == wanted then Some(from)
    else FirstOf(rs, isUser, wanted, from + 1)
  }

  /** `_find_hub_device_record`: the list it leaves, and the position found; None is the
      KeyError. */
  function Locate(u: Setup, rs: seq<DeviceRecord>, key: Option<string>): (r: (seq<DeviceRecord>, Option<nat>))
    ensures rs <= r.0 && (r.1.Some? ==> r.1.value < |r.0|)
  {
    LocateKey(u, rs, if key.Some? then NormalizeKey(key.value) else "")
  }

  function LocateKey(u: Setup, rs: seq<DeviceRecord>, wanted: string): (r: (seq<DeviceRecord>, Option<nat>))
    ensures rs <= r.0 && (r.1.Some? ==> r.1.value < |r.0|)
  {
    var user := FirstOf(rs, u.isUser, true, 0);
    if wanted == "" then
      if user.Some? then (rs, user) else (rs + [u.device], Some(|rs|))
    else
      var found := FindKey(rs, wanted, 0);
      if found.Some? then (rs, found)
      else if wanted == DEFAULT_WIFI_DEVICE_KEY && user.None? then (rs + [u.device], Some(|rs|))
      else (rs, None)
  }

  /** The reserved record, created on first use, and its position. */
  function WithEvents(u: Setup, rs: seq<DeviceRecord>): (r: (seq<DeviceRecord>, Option<nat>))
    ensures rs <= r.0 && r.1.Some? && r.1.value < |r.0|
  {
    var found := FirstOf(rs, u.isUser, false, 0);
    if found.Some? then (rs, found) else (rs + [u.events], Some(|rs|))
  }

  function Without(rs: seq<DeviceRecord>, key: string): (r: seq<DeviceRecord>)
    ensures |r| <= |rs|
    ensures forall x :: x in r <==> x in rs && x.key != key
  {
    if rs == [] then []
    else
      var n := |rs| - 1;
      assert rs == rs[..n] + [rs[n]];
      Without(rs[..n], key) + if rs[n].key == key then [] else [rs[n]]
  }

  // ---------------------------------------------------------------- steps

  predicate IsToken(s: string) {
    |s| == 8 && forall i :: 0 <= i < |s| ==> IsDigit(s[i]) || 'a' <= s[i] <= 'f'
  }

  /** A drawn token, as `secrets.token_hex(4)` prints it. */
  type Token = s: string | IsToken(s) witness "00000000"

  /** The first drawn token whose key is unused. */
  function FirstFree(rs: seq<DeviceRecord>, tokens: seq<Token>): (r: Option<string>)
    ensures r.Some? ==> r.value in tokens
    decreases tokens
  {
    if tokens == [] then None
    else if NormalizeKey(tokens[0]) in KeysOf(rs) || IsEventsKey(NormalizeKey(tokens[0]))
    then FirstFree(rs, tokens[1..])
    else Some(tokens[0])
  }

  /** Endpoints of the reserved record; its deploys and clearings come in as saves and
      reconciles. */
  type EndpointOp = op: EventOp | !op.OpSync? && !op.OpDisown? witness OpReset(0)

  datatype StoreOp =
    | CreateDevice(name: string, tokens: seq<Token>)
    | RenameDevice(key: string, name: string, hash: Option<string>)
    | DeleteDevice(key: string)
    | SetCommands(target: Option<string>, commands: RawCommands, powerOn: Option<int>, powerOff: Option<int>)
    | SaveDeployed(key: string, deployed: seq<Slot>, deviceId: Option<int>, commandsHash: string, port: Option<int>)
    | SetDeployedId(key: string, deviceId: Option<int>)
    | Reconcile(assignments: seq<Assignment>)
    | EnsureEvents
    | Endpoint(op: EndpointOp)

  function Staged(r: DeviceRecord, commands: RawCommands, on: Option<int>, off: Option<int>): DeviceRecord {
    r.(commands := NormalizeCommands(commands, RecordSlotCount(r.key, Some(r.slotCount)), IsEventsKey(r.key)),
       powerOn := NormalizePowerId(on), powerOff := NormalizePowerId(off))
  }

  function Saved(r: DeviceRecord, deployed: seq<Slot>, id: Option<int>, hash: string, port: Option<int>): DeviceRecord {
    r.(deployed := deployed, deviceId := id, hash := Strip(hash), port := port)
  }

  function WriteRecords(rs: seq<DeviceRecord>, assignments: seq<Assignment>): (r: seq<DeviceRecord>)
    ensures |r| == |rs|
    ensures forall i :: 0 <= i < |rs| ==> r[i] == WriteRecord(rs[i], assignments)
  {
    seq(|rs|, i requires 0 <= i < |rs| => WriteRecord(rs[i], assignments))
  }

  /** Where a step on one record writes: the list it starts from and the position, if any. */
  function Target(u: Setup, rs: seq<DeviceRecord>, op: StoreOp): (r: (seq<DeviceRecord>, Option<nat>))
    ensures rs <= r.0 && (r.1.Some? ==> r.1.value < |r.0|)
  {
    match op
    case RenameDevice(key, _, _) => (rs, FindKey(rs, NormalizeKey(key), 0))
    case SetCommands(key, _, _, _) => Locate(u, rs, key)
    case SaveDeployed(key, _, _, _, _) => Locate(u, rs, Some(key))
    case SetDeployedId(key, _) => Locate(u, rs, Some(key))
    case EnsureEvents => WithEvents(u, rs)
    case Endpoint(e) =>
      if e.OpAllocate? && Strip(e.name) != "" then WithEvents(u, rs)
      else (rs, FirstOf(rs, u.isUser, false, 0))
    case _ => (rs, None)
  }

  /** The edits of one record, as functions of the record. */
  function RenameEdit(key: string, name: string, hash: Option<string>): DeviceRecord -> DeviceRecord {
    (r: DeviceRecord) => ApplyRename(r, PendingRename(key, name, hash))
  }

  function StageEdit(commands: RawCommands, on: Option<int>, off: Option<int>): DeviceRecord -> DeviceRecord {
    (r: DeviceRecord) => Staged(r, commands, on, off)
  }

  function SaveEdit(deployed: seq<Slot>, id: Option<int>, hash: string,
      port: Option<int>): DeviceRecord -> DeviceRecord {
    (r: DeviceRecord) => Saved(r, deployed, id, hash, port)
  }

  function IdEdit(id: Option<int>): DeviceRecord -> DeviceRecord {
    (r: DeviceRecord) => r.(deviceId := id)
  }

  function EndpointEdit(digest: Digest, op: EndpointOp): DeviceRecord -> DeviceRecord {
    (r: DeviceRecord) => WifiEvents.Step(digest, r, op)
  }

  function NoEdit(): DeviceRecord -> DeviceRecord {
    (r: DeviceRecord) => r
  }

  function EditOf(digest: Digest, op: StoreOp): DeviceRecord -> DeviceRecord {
    match op
    case RenameDevice(key, name, hash) => RenameEdit(key, name, hash)
    case SetCommands(_, commands, on, off) => StageEdit(commands, on, off)
    case SaveDeployed(_, deployed, id, hash, port) => SaveEdit(deployed, id, hash, port)
    case SetDeployedId(_, id) => IdEdit(id)
    case Endpoint(e) => EndpointEdit(digest, e)
    case _ => NoEdit()
  }

  function EditAt<T>(target: (seq<T>, Option<nat>), edit: T -> T): (r: seq<T>)
    requires target.1.Some? ==> target.1.value < |target.0|
    ensures |r| == |target.0|
  {
    var (list, at) := target;
    if at.None? then list else list[at.value := edit(list[at.value])]
  }

  function Created(u: Setup, rs: seq<DeviceRecord>, name: string, tokens: seq<Token>): seq<DeviceRecord> {
    var token := FirstFree(rs, tokens);
    if UserCount(rs, u.isUser) >= u.cap || token.None? then rs else rs + [u.make(name, token.value)]
  }

  function EditStep(u: Setup, rs: seq<DeviceRecord>, op: StoreOp): seq<DeviceRecord> {
    EditAt(Target(u, rs, op), EditOf(u.digest, op))
  }

  function StoreStep(u: Setup, rs: seq<DeviceRecord>, op: StoreOp): seq<DeviceRecord> {
    match op
    case CreateDevice(name, tokens) => Created(u, rs, name, tokens)
    case DeleteDevice(key) => Without(rs, NormalizeKey(key))
    case Reconcile(assignments) => WriteRecords(rs, assignments)
    case _ => EditStep(u, rs, op)
  }

  // ------------------------------------------- the list invariant, by parts

  /** The list invariant, over the setup's notion of a sound record. */
  predicate AllSound(u: Setup, rs: seq<DeviceRecord>) {
    && (forall i :: 0 <= i < |rs| ==> u.sound(rs[i]))
    && Distinct(KeysOf(rs))
    && UserCount(rs, u.isUser) <= u.cap
  }

  lemma AllSoundIsValid(digest: Digest, rs: seq<DeviceRecord>)
    ensures AllSound(SetupOf(digest), rs) <==> ListValid(rs)
  {
  }

  lemma {:induction false} UserCountUpdate<T>(rs: seq<T>, i: nat, r: T, isUser: T -> bool)
    requires i < |rs| && isUser(r) == isUser(rs[i])
    ensures UserCount(rs[i := r], isUser) == UserCount(rs, isUser)
  {
    var n := |rs| - 1;
    if i < n {
      UserCountUpdate(rs[..n], i, r, isUser);
      assert rs[i := r][..n] == rs[..n][i := r];
    } else {
      assert rs[i := r][..n] == rs[..n];
    }
  }

  lemma {:induction false} NoUserCounted<T>(rs: seq<T>, isUser: T -> bool)
    requires forall r :: r in rs ==> !isUser(r)
    ensures UserCount(rs, isUser) == 0
  {
    if rs != [] {
      var n := |rs| - 1;
      assert forall r :: r in rs[..n] ==> r in rs;
      NoUserCounted(rs[..n], isUser);
    }
  }

  lemma PutKeeps(u: Setup, rs: seq<DeviceRecord>, i: nat, r: DeviceRecord)
    requires AllSound(u, rs) && i < |rs| && u.sound(r) && r.key == rs[i].key && u.isUser(r) == u.isUser(rs[i])
    ensures AllSound(u, rs[i := r])
  {
    UserCountUpdate(rs, i, r, u.isUser);
    assert KeysOf(rs[i := r]) == KeysOf(rs);
  }

  lemma AppendKeeps(u: Setup, rs: seq<DeviceRecord>, r: DeviceRecord)
    requires AllSound(u, rs) && u.sound(r) && r.key !in KeysOf(rs)
    requires u.isUser(r) ==> UserCount(rs, u.isUser) < u.cap
    ensures AllSound(u, rs + [r])
  {
    UserCountAppend(rs, r, u.isUser);
    assert KeysOf(rs + [r]) == KeysOf(rs) + [r.key];
  }

  lemma PrefixIsSound(u: Setup, rs: seq<DeviceRecord>, n: nat)
    requires AllSound(u, rs) && n + 1 == |rs|
    ensures AllSound(u, rs[..n]) && u.sound(rs[n]) && rs[n].key !in KeysOf(rs[..n])
    ensures UserCount(rs, u.isUser) == UserCount(rs[..n], u.isUser) + if u.isUser(rs[n]) then 1 else 0
  {
    assert KeysOf(rs[..n]) == KeysOf(rs)[..n];
    assert forall i :: 0 <= i < n ==> KeysOf(rs)[i] != KeysOf(rs)[n];
  }

  lemma {:induction false} WithoutKeeps(u: Setup, rs: seq<DeviceRecord>, key: string)
    requires AllSound(u, rs)
    ensures AllSound(u, Without(rs, key))
    ensures UserCount(Without(rs, key), u.isUser) <= UserCount(rs, u.isUser)
  {
    if rs != [] {
      var n := |rs| - 1;
      var front := Without(rs[..n], key);
      PrefixIsSound(u, rs, n);
      WithoutKeeps(u, rs[..n], key);
      if rs[n].key == key {
        assert front + [] == front;
      } else {
        KeysOfSubset(front, rs[..n]);
        UserCountAppend(front, rs[n], u.isUser);
        AppendKeeps(u, front, rs[n]);
      }
    }
  }

  lemma KeysOfSubset(a: seq<DeviceRecord>, b: seq<DeviceRecord>)
    requires forall r :: r in a ==> r in b
    ensures forall k :: k in KeysOf(a) ==> k in KeysOf(b)
  {
    forall k | k in KeysOf(a) ensures k in KeysOf(b) {
      var i :| 0 <= i < |a| && KeysOf(a)[i] == k;
      assert a[i] in b;
      var j :| 0 <= j < |b| && b[j] == a[i];
      assert KeysOf(b)[j] == k;
    }
  }

  /** The records the store makes on its own fit the invariant, and only the reserved key is
      no user device. */
  ghost predicate SetupFits(u: Setup) {
    && u.cap > 0
    && u.sound(u.device) && u.device.key == DEFAULT_WIFI_DEVICE_KEY && u.isUser(u.device)
    && u.sound(u.events) && !u.isUser(u.events)
    && (forall r :: u.sound(r) ==> (u.isUser(r) <==> r.key != u.events.key))
  }

  lemma DefaultKeyIsPlain()
    ensures NormalizeKey(DEFAULT_WIFI_DEVICE_KEY) == DEFAULT_WIFI_DEVICE_KEY
  {
    var k := DEFAULT_WIFI_DEVICE_KEY;
    assert forall i :: 0 <= i < |k| ==> 'a' <= k[i] <= 'z';
    KeysAreFixed(k);
  }

  lemma KeyIsNew(rs: seq<DeviceRecord>, key: string)
    requires forall i :: 0 <= i < |rs| ==> rs[i].key != key
    ensures key !in KeysOf(rs)
  {
  }

  lemma NewDefaultKeeps(u: Setup, rs: seq<DeviceRecord>)
    requires SetupFits(u) && AllSound(u, rs) && FirstOf(rs, u.isUser, true, 0).None?
    ensures AllSound(u, rs + [u.device])
  {
    forall i | 0 <= i < |rs| ensures !u.isUser(rs[i]) && rs[i].key != u.device.key {
    }
    NoUserCounted(rs, u.isUser);
    KeyIsNew(rs, u.device.key);
    AppendKeeps(u, rs, u.device);
  }

  lemma LocateKeeps(u: Setup, rs: seq<DeviceRecord>, key: Option<string>)
    requires SetupFits(u) && AllSound(u, rs)
    ensures AllSound(u, Locate(u, rs, key).0)
  {
    if FirstOf(rs, u.isUser, true, 0).None? { NewDefaultKeeps(u, rs); }
  }

  lemma WithEventsKeeps(u: Setup, rs: seq<DeviceRecord>)
    requires SetupFits(u) && AllSound(u, rs)
    ensures var (list, at) := WithEvents(u, rs);
      AllSound(u, list) && at.Some? && !u.isUser(list[at.value])
  {
    if FirstOf(rs, u.isUser, false, 0).None? {
      KeyIsNew(rs, u.events.key);
      AppendKeeps(u, rs, u.events);
    }
  }

  lemma {:induction false} FreeTokenIsFree(rs: seq<DeviceRecord>, tokens: seq<Token>)
    ensures var t := FirstFree(rs, tokens);
      t.Some? ==> IsToken(t.value) && NormalizeKey(t.value) !in KeysOf(rs)
    decreases tokens
  {
    if tokens != [] { FreeTokenIsFree(rs, tokens[1..]); }
  }

  /** A new device is sound and takes the key of its token. */
  ghost predicate MakeFits(u: Setup) {
    forall name, token :: IsToken(token) ==>
      u.sound(u.make(name, token)) && u.make(name, token).key == NormalizeKey(token)
  }

  lemma CreateKeeps(u: Setup, rs: seq<DeviceRecord>, name: string, tokens: seq<Token>)
    requires MakeFits(u) && AllSound(u, rs)
    ensures AllSound(u, Created(u, rs, name, tokens))
  {
    FreeTokenIsFree(rs, tokens);
    var t := FirstFree(rs, tokens);
    if t.Some? && UserCount(rs, u.isUser) < u.cap {
      AppendKeeps(u, rs, u.make(name, t.value));
    }
  }

  lemma {:induction false} SameKeysSameCount(u: Setup, a: seq<DeviceRecord>, b: seq<DeviceRecord>)
    requires |a| == |b| && forall i :: 0 <= i < |a| ==> u.isUser(a[i]) == u.isUser(b[i])
    ensures UserCount(a, u.isUser) == UserCount(b, u.isUser)
  {
    if a != [] {
      SameKeysSameCount(u, a[..|a| - 1], b[..|b| - 1]);
    }
  }

  lemma MapKeeps(u: Setup, rs: seq<DeviceRecord>, after: seq<DeviceRecord>)
    requires AllSound(u, rs) && |after| == |rs|
    requires forall i :: 0 <= i < |rs| ==>
      u.sound(after[i]) && after[i].key == rs[i].key && u.isUser(after[i]) == u.isUser(rs[i])
    ensures AllSound(u, after)
  {
    assert KeysOf(after) == KeysOf(rs);
    SameKeysSameCount(u, after, rs);
  }

  /** The ownership write keeps a record sound and its key. */
  ghost predicate WritesFit(u: Setup) {
    forall r, assignments: seq<Assignment> {:trigger WriteRecord(r, assignments)} :: u.sound(r) ==>
      var after := WriteRecord(r, assignments);
      u.sound(after) && after.key == r.key && u.isUser(after) == u.isUser(r)
  }

  lemma ReconcileKeeps(u: Setup, rs: seq<DeviceRecord>, assignments: seq<Assignment>)
    requires WritesFit(u) && AllSound(u, rs)
    ensures AllSound(u, WriteRecords(rs, assignments))
  {
    MapKeeps(u, rs, WriteRecords(rs, assignments));
  }

  // ------------------------------------------------- edits of one record

  lemma EditKeepsNormal(t: Tables, e: Edit)
    requires AllNormal(t.commands, true)
    ensures AllNormal(ApplyEdit(t, e).commands, true)
  {
    var after := ApplyEdit(t, e).commands;
    assert HasAction(DEFAULT_ACTION);
    forall i | 0 <= i < |after| ensures IsNormal(after[i], true) {
      assert IsNormal(t.commands[i], true);
    }
  }

  lemma {:induction false} EditsKeepNormal(t: Tables, es: seq<Edit>)
    requires AllNormal(t.commands, true)
    ensures AllNormal(ApplyEdits(t, es).commands, true)
    decreases es
  {
    if es != [] {
      EditKeepsNormal(t, es[0]);
      EditsKeepNormal(ApplyEdit(t, es[0]), es[1..]);
    }
  }

  lemma WriteKeepsNormal(slots: seq<Slot>, i: nat, s: Slot)
    requires AllNormal(slots, true) && i < |slots| && IsNormal(s, true)
    ensures AllNormal(slots[i := s], true)
  {
  }

  lemma SlotEditKeepsNormal(slots: seq<Slot>, i: int, s: Slot)
    requires AllNormal(slots, true) && Configured(slots, i)
    requires HasAction(s.action) && HasAction(s.longAction)
    requires s == slots[i].(longPress := s.longPress, action := s.action, longAction := s.longAction)
    ensures AllNormal(slots[i := s], true)
  {
    assert IsNormal(slots[i], true);
    WriteKeepsNormal(slots, i, s);
  }

  lemma EndpointKeepsWellFormed(digest: Digest, r: DeviceRecord, op: EndpointOp)
    requires WellFormed(r) && IsEventsKey(r.key)
    ensures WellFormed(WifiEvents.Step(digest, r, op)) && WifiEvents.Step(digest, r, op).key == r.key
  {
    assert HasAction(DEFAULT_ACTION);
    match op
    case OpAllocate(name) =>
      var answer := AllocateAt(r.commands, r.deployed, name);
      if answer.Allocated? { WriteKeepsNormal(r.commands, answer.index, NewEventSlot(Strip(name))); }
    case OpReset(i) =>
      if Configured(r.commands, i) { WriteKeepsNormal(r.commands, i, DefaultSlot(i)); }
    case OpSetAction(i, long, action) =>
      if Configured(r.commands, i) {
        assert IsNormal(r.commands[i], true);
        SlotEditKeepsNormal(r.commands, i, PutAction(r.commands[i], long, action));
      }
    case OpSetLongPress(i, enabled) =>
      if Configured(r.commands, i) {
        assert IsNormal(r.commands[i], true);
        SlotEditKeepsNormal(r.commands, i, r.commands[i].(longPress := enabled));
      }
    case OpFollow(es, port) =>
      EditsKeepNormal(Tables(r.commands, r.deployed), es);
  }

  /** What an edit makes of one record is sound, under the same key; endpoints are only
      asked of the reserved record. */
  ghost predicate EditIsSound(u: Setup, edit: DeviceRecord -> DeviceRecord, endpoint: bool) {
    forall r :: u.sound(r) && (endpoint ==> !u.isUser(r)) ==>
      u.sound(edit(r)) && edit(r).key == r.key && u.isUser(edit(r)) == u.isUser(r)
  }

  /** The same, over the records as they are. */
  ghost predicate EditIsWellFormed(edit: DeviceRecord -> DeviceRecord, endpoint: bool) {
    forall r :: WellFormed(r) && (endpoint ==> IsEventsKey(r.key)) ==> WellFormed(edit(r)) && edit(r).key == r.key
  }

  lemma RenameEditIsSound(key: string, name: string, hash: Option<string>)
    ensures EditIsWellFormed(RenameEdit(key, name, hash), false)
  {
    forall r: DeviceRecord | WellFormed(r)
      ensures WellFormed(RenameEdit(key, name, hash)(r)) && RenameEdit(key, name, hash)(r).key == r.key
    {
      var n, h := Strip(name), if hash.Some? then Strip(hash.value) else r.hash;
      StripIdempotent(name);
      if hash.Some? { StripIdempotent(hash.value); }
      if n != "" { RenamedIsWellFormed(r, n, h); }
    }
  }

  lemma StageEditIsSound(commands: RawCommands, on: Option<int>, off: Option<int>)
    ensures EditIsWellFormed(StageEdit(commands, on, off), false)
  {
    forall r: DeviceRecord | WellFormed(r)
      ensures WellFormed(StageEdit(commands, on, off)(r)) && StageEdit(commands, on, off)(r).key == r.key
    {
      NormalizeCommandsIsNormal(commands, r.slotCount, IsEventsKey(r.key));
    }
  }

  lemma SaveEditIsSound(deployed: seq<Slot>, id: Option<int>, hash: string, port: Option<int>)
    ensures EditIsWellFormed(SaveEdit(deployed, id, hash, port), false)
  {
    StripIdempotent(hash);
  }

  lemma IdEditIsSound(id: Option<int>)
    ensures EditIsWellFormed(IdEdit(id), false)
  {
  }

  lemma EndpointEditIsSound(digest: Digest, op: EndpointOp)
    ensures EditIsWellFormed(EndpointEdit(digest, op), true)
  {
    forall r: DeviceRecord | WellFormed(r) && IsEventsKey(r.key)
      ensures WellFormed(EndpointEdit(digest, op)(r)) && EndpointEdit(digest, op)(r).key == r.key
    {
      EndpointKeepsWellFormed(digest, r, op);
    }
  }

  lemma WellFormedIsSound(u: Setup, edit: DeviceRecord -> DeviceRecord, endpoint: bool)
    requires u.sound == IsSound && u.isUser == IsUser && EditIsWellFormed(edit, endpoint)
    ensures EditIsSound(u, edit, endpoint)
  {
  }

  ghost predicate EditsFit(u: Setup) {
    forall op {:trigger EditOf(u.digest, op)} :: EditIsSound(u, EditOf(u.digest, op), op.Endpoint?)
  }

  // ------------------------------------------------------------ one step

  lemma TargetKeeps(u: Setup, rs: seq<DeviceRecord>, op: StoreOp)
    requires SetupFits(u) && AllSound(u, rs)
    ensures var (list, at) := Target(u, rs, op);
      AllSound(u, list) && (op.Endpoint? && at.Some? ==> !u.isUser(list[at.value]))
  {
    match op
    case SetCommands(key, _, _, _) => LocateKeeps(u, rs, key);
    case SaveDeployed(key, _, _, _, _) => LocateKeeps(u, rs, Some(key));
    case SetDeployedId(key, _) => LocateKeeps(u, rs, Some(key));
    case EnsureEvents => WithEventsKeeps(u, rs);
    case Endpoint(e) => WithEventsKeeps(u, rs);
    case _ =>
  }

  lemma EditAtKeeps(u: Setup, target: (seq<DeviceRecord>, Option<nat>), edit: DeviceRecord -> DeviceRecord,
      endpoint: bool)
    requires AllSound(u, target.0) && EditIsSound(u, edit, endpoint)
    requires target.1.Some? ==>
      target.1.value < |target.0| && (endpoint ==> !u.isUser(target.0[target.1.value]))
    ensures AllSound(u, EditAt(target, edit))
  {
    var (list, at) := target;
    if at.Some? {
      PutKeeps(u, list, at.value, edit(list[at.value]));
    }
  }

  lemma EditStepKeeps(u: Setup, rs: seq<DeviceRecord>, op: StoreOp)
    requires SetupFits(u) && EditsFit(u) && AllSound(u, rs)
    ensures AllSound(u, EditStep(u, rs, op))
  {
    TargetKeeps(u, rs, op);
    EditAtKeeps(u, Target(u, rs, op), EditOf(u.digest, op), op.Endpoint?);
  }

  /** Everything the steps rely on. */
  ghost predicate Lawful(u: Setup) {
    SetupFits(u) && MakeFits(u) && WritesFit(u) && EditsFit(u)
  }

  lemma OtherStepKeeps(u: Setup, rs: seq<DeviceRecord>, op: StoreOp)
    requires MakeFits(u) && WritesFit(u) && AllSound(u, rs)
    requires op.CreateDevice? || op.DeleteDevice? || op.Reconcile?
    ensures AllSound(u, StoreStep(u, rs, op))
  {
    match op
    case CreateDevice(name, tokens) => CreateKeeps(u, rs, name, tokens);
    case DeleteDevice(key) => WithoutKeeps(u, rs, NormalizeKey(key));
    case Reconcile(assignments) => ReconcileKeeps(u, rs, assignments);
  }

  lemma StepKeepsSound(u: Setup, rs: seq<DeviceRecord>, op: StoreOp)
    requires Lawful(u) && AllSound(u, rs)
    ensures AllSound(u, StoreStep(u, rs, op))
  {
    if op.CreateDevice? || op.DeleteDevice? || op.Reconcile? {
      OtherStepKeeps(u, rs, op);
    } else {
      EditStepKeeps(u, rs, op);
    }
  }

  // --------------------------------------------------- the store's setup

  lemma StoreFits(digest: Digest)
    ensures SetupFits(SetupOf(digest))
  {
    DefaultRecordWellFormed(DEFAULT_WIFI_DEVICE_KEY, DEFAULT_WIFI_DEVICE_NAME, None);
    DefaultKeyIsPlain();
    EmptyRecordIsValid();
    ReservedKey();
    forall r | IsSound(r) ensures IsUser(r) <==> r.key != WIFI_EVENTS_DEVICE_KEY {
      KeysAreFixed(r.key);
    }
  }

  lemma StoreMakes(digest: Digest)
    ensures MakeFits(SetupOf(digest))
  {
    forall name, token | IsToken(token)
      ensures IsSound(NewDevice(name, token)) && NewDevice(name, token).key == NormalizeKey(token)
    {
      KeysAreFixed(token);
      DefaultRecordWellFormed(NormalizeKey(token), TidyName(name), None);
    }
  }

  lemma StoreWrites(digest: Digest)
    ensures WritesFit(SetupOf(digest))
  {
    forall r, assignments | IsSound(r)
      ensures IsSound(WriteRecord(r, assignments)) && WriteRecord(r, assignments).key == r.key
    {
      var a := Lookup(assignments, r.key);
      if a.Some? { StripIdempotent(a.value.hash); } else { StripTrimmed(""); }
    }
  }

  lemma StoreEdits(u: Setup, op: StoreOp)
    requires u.sound == IsSound && u.isUser == IsUser
    ensures EditIsSound(u, EditOf(u.digest, op), op.Endpoint?)
  {
    EditsAreWellFormed(u.digest, op);
    WellFormedIsSound(u, EditOf(u.digest, op), op.Endpoint?);
  }

  lemma NoEditIsSound()
    ensures EditIsWellFormed(NoEdit(), false)
  {
  }

  /** Carries the law over an equality of edits that are costly to unfold. */
  lemma EqualEdit(edit: DeviceRecord -> DeviceRecord, other: DeviceRecord -> DeviceRecord, endpoint: bool)
    requires edit == other && EditIsWellFormed(other, endpoint)
    ensures EditIsWellFormed(edit, endpoint)
  {
  }

  lemma EditsAreWellFormed(digest: Digest, op: StoreOp)
    ensures EditIsWellFormed(EditOf(digest, op), op.Endpoint?)
  {
    match op {
      case RenameDevice(key, name, hash) =>
        RenameEditIsSound(key, name, hash);
        EqualEdit(EditOf(digest, op), RenameEdit(key, name, hash), false);
      case SetCommands(_, commands, on, off) =>
        StageEditIsSound(commands, on, off);
        EqualEdit(EditOf(digest, op), StageEdit(commands, on, off), false);
      case SaveDeployed(_, deployed, id, hash, port) =>
        SaveEditIsSound(deployed, id, hash, port);
        EqualEdit(EditOf(digest, op), SaveEdit(deployed, id, hash, port), false);
      case SetDeployedId(_, id) =>
        IdEditIsSound(id);
        EqualEdit(EditOf(digest, op), IdEdit(id), false);
      case Endpoint(e) =>
        EndpointEditIsSound(digest, e);
        EqualEdit(EditOf(digest, op), EndpointEdit(digest, e), true);
      case _ =>
        NoEditIsSound();
        EqualEdit(EditOf(digest, op), NoEdit(), false);
    }
  }

  lemma SetupIsLawful(digest: Digest)
    ensures Lawful(SetupOf(digest))
  {
    var u := SetupOf(digest);
    StoreFits(digest);
    StoreMakes(digest);
    StoreWrites(digest);
    forall op ensures EditIsSound(u, EditOf(u.digest, op), op.Endpoint?) {
      StoreEdits(u, op);
    }
  }

  // -------------------------------------------------------- main theorems

  /** Every store method keeps keys distinct, the user devices within the cap, at most one
      reserved record, and every record well-formed with exactly slot_count slots. */
  lemma StepKeepsListValid(digest: Digest, rs: seq<DeviceRecord>, op: StoreOp)
    requires ListValid(rs)
    ensures ListValid(StoreStep(SetupOf(digest), rs, op))
  {
    AllSoundIsValid(digest, rs);
    SetupIsLawful(digest);
    StepKeepsSound(SetupOf(digest), rs, op);
    AllSoundIsValid(digest, StoreStep(SetupOf(digest), rs, op));
  }

  function Run(u: Setup, rs: seq<DeviceRecord>, ops: seq<StoreOp>): seq<DeviceRecord>
    decreases ops
  {
    if ops == [] then rs else Run(u, StoreStep(u, rs, ops[0]), ops[1..])
  }

  /** After any sequence of methods the list is valid and reading it back - normalizing,
      de-duplicating and capping again - changes nothing. */
  lemma {:induction false} EveryRunIsStable(digest: Digest, rs: seq<DeviceRecord>, ops: seq<StoreOp>)
    requires ListValid(rs)
    ensures ListValid(Run(SetupOf(digest), rs, ops))
    ensures ReadList(AsRawRecords(Run(SetupOf(digest), rs, ops))) == Run(SetupOf(digest), rs, ops)
    decreases ops
  {
    if ops == [] {
      ReadIsNoOp(rs);
    } else {
      StepKeepsListValid(digest, rs, ops[0]);
      EveryRunIsStable(digest, StoreStep(SetupOf(digest), rs, ops[0]), ops[1..]);
    }
  }

  lemma EmptyStoreIsValid()
    ensures ListValid([])
  {
  }

  /** So it is for every store that started empty. */
  lemma EveryStoreIsStable(digest: Digest, ops: seq<StoreOp>)
    ensures var rs := Run(SetupOf(digest), [], ops); ListValid(rs) && ReadList(AsRawRecords(rs)) == rs
  {
    EmptyStoreIsValid();
    EveryRunIsStable(digest, [], ops);
  }

  lemma SameKeySamePlace(rs: seq<DeviceRecord>, i: nat, r: DeviceRecord)
    requires Distinct(KeysOf(rs)) && i < |rs| && r in rs && r.key == rs[i].key
    ensures r == rs[i]
  {
    var j :| 0 <= j < |rs| && rs[j] == r;
    assert KeysOf(rs)[i] == KeysOf(rs)[j];
  }

  /** Slot counts never change: a record found again under its key has the count it had. */
  lemma SlotCountIsFrozen(digest: Digest, rs: seq<DeviceRecord>, op: StoreOp, i: nat, b: DeviceRecord)
    requires ListValid(rs) && i < |rs| && b in StoreStep(SetupOf(digest), rs, op) && b.key == rs[i].key
    ensures b.slotCount == rs[i].slotCount
  {
    var u := SetupOf(digest);
    StepKeepsListValid(digest, rs, op);
    if op.DeleteDevice? {
      SameKeySamePlace(rs, i, b);
    } else {
      PositionsAreStable(u, rs, op, i);
      SameKeySamePlace(StoreStep(u, rs, op), i, b);
    }
  }

  /** No step but a deletion moves a record, renames its key or changes its slot count. */
  lemma PositionsAreStable(u: Setup, rs: seq<DeviceRecord>, op: StoreOp, i: nat)
    requires i < |rs| && !op.DeleteDevice?
    ensures var after := StoreStep(u, rs, op);
      i < |after| && after[i].key == rs[i].key && after[i].slotCount == rs[i].slotCount
  {
  }

  predicate WritesSnapshot(op: StoreOp) {
    op.SaveDeployed? || op.Reconcile? || (op.Endpoint? && op.op.OpFollow?)
  }

  predicate WritesStaged(op: StoreOp) {
    op.SetCommands? || op.Endpoint?
  }

  /** Only a save or a reconcile touches a deployed snapshot, and only an edit of the slots
      touches the staged table. */
  lemma HalvesAreIndependent(u: Setup, rs: seq<DeviceRecord>, op: StoreOp, i: nat)
    requires i < |rs| && !op.DeleteDevice?
    ensures var after := StoreStep(u, rs, op);
      && i < |after|
      && (!WritesSnapshot(op) ==> after[i].deployed == rs[i].deployed)
      && (!WritesStaged(op) ==> after[i].commands == rs[i].commands)
  {
    PositionsAreStable(u, rs, op, i);
  }

  /** The saves of a finished deploy, and the clearing of an unmatched record, are the deploy
      and clearing steps of the event runs. */
  lemma SavesAreSyncs(digest: Digest, r: DeviceRecord, id: int, port: int, assignments: seq<Assignment>)
    ensures Sync(digest, r, id, port)
         == if CountTrue(ConfiguredFlags(r.commands)) == 0 then Saved(r, [], None, "", None)
            else Saved(r, r.commands, Some(id), PayloadHash(digest, r, port), Some(port))
    ensures Lookup(assignments, r.key).None? ==> WriteRecord(r, assignments) == Disown(r)
  {
    StripTrimmed("");
  }

  // ---------------------------------------------- ownership, on the store

  function Views(digest: Digest, rs: seq<DeviceRecord>, port: int): (r: seq<Stored>)
    ensures |r| == |rs|
    ensures forall i :: 0 <= i < |rs| ==> r[i] == StoredView(digest, rs[i], port)
  {
    seq(|rs|, i requires 0 <= i < |rs| => StoredView(digest, rs[i], port))
  }

  /** Reconciling the store writes what the matching assigned. */
  lemma ReconcileWritesViews(digest: Digest, rs: seq<DeviceRecord>, assignments: seq<Assignment>, port: int)
    ensures Views(digest, WriteRecords(rs, assignments), port) == WriteAll(Views(digest, rs, port), assignments)
  {
  }

  lemma WrittenIds(rs: seq<DeviceRecord>, views: seq<Stored>, assignments: seq<Assignment>, i: nat)
    requires i < |rs| == |views| && views[i].key == rs[i].key
    ensures WriteRecord(rs[i], assignments).deviceId == WriteAll(views, assignments)[i].deviceId
    ensures WriteRecord(rs[i], assignments).deviceId.None? ==>
      WriteRecord(rs[i], assignments).hash == "" && WriteRecord(rs[i], assignments).deployed == []
  {
  }

  /** Ownership needs nothing of the records but their keys. */
  lemma OwnedOnce(managed: seq<Managed>, rs: seq<DeviceRecord>, views: seq<Stored>, i: nat, j: nat)
    requires Distinct(KeysOf(rs)) && DistinctIds(managed) && i < j < |rs| == |views|
    requires forall k :: 0 <= k < |rs| ==> views[k].key == rs[k].key
    ensures var after := WriteRecords(rs, Assign(managed, views));
      && (after[i].deviceId.Some? ==> after[i].deviceId != after[j].deviceId)
      && (after[i].deviceId.None? ==> after[i].hash == "" && after[i].deployed == [])
  {
    forall a, b | 0 <= a < b < |views| ensures views[a].key != views[b].key {
      assert KeysOf(rs)[a] != KeysOf(rs)[b];
    }
    ReconcileOwnsEachDeviceOnce(managed, views, i, j);
    WrittenIds(rs, views, Assign(managed, views), i);
    WrittenIds(rs, views, Assign(managed, views), j);
  }

  /** After a reconcile every deployed device id in a valid store belongs to one record only. */
  lemma StoreOwnsEachDeviceOnce(digest: Digest, managed: seq<Managed>, rs: seq<DeviceRecord>, port: int, i: nat, j: nat)
    requires Distinct(KeysOf(rs)) && DistinctIds(managed) && i < j < |rs|
    ensures var after := WriteRecords(rs, Assign(managed, Views(digest, rs, port)));
      && (after[i].deviceId.Some? ==> after[i].deviceId != after[j].deviceId)
      && (after[i].deviceId.None? ==> after[i].hash == "" && after[i].deployed == [])
  {
    OwnedOnce(managed, rs, Views(digest, rs, port), i, j);
  }
}
