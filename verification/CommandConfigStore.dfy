/** The store object: a record list that every method reads back, normalized, before it
    searches and rewrites it in place.  On a valid list the read-back changes nothing, and
    each method makes the store step of the same name and leaves the list valid. */
module CommandConfigStore {
  import opened Text
  import opened Slots
  import opened Records
  import opened WifiEvents
  import opened Ownership
  import opened RenameLoop
  import opened Store

  /** The list a method works on. */
  function Reread(rs: seq<DeviceRecord>): seq<DeviceRecord> { ReadList(AsRawRecords(rs)) }

  lemma ValidRereads(rs: seq<DeviceRecord>)
    requires ListValid(rs)
    ensures Reread(rs) == rs
  {
    ReadIsNoOp(rs);
  }

  // -------------------------------------------------- methods as store steps

  /** Every method makes a store step on the list it reads back; from a valid list that is the
      step itself, and the list stays valid. */
  lemma MadeStep(digest: Digest, before: seq<DeviceRecord>, after: seq<DeviceRecord>, op: StoreOp)
    requires ListValid(before) && after == StoreStep(SetupOf(digest), Reread(before), op)
    ensures after == StoreStep(SetupOf(digest), before, op) && ListValid(after)
  {
    ValidRereads(before);
    StepKeepsListValid(digest, before, op);
  }

  /** A history of the object: each list came from the one before by a method call. */
  ghost predicate IsHistory(u: Setup, lists: seq<seq<DeviceRecord>>, ops: seq<StoreOp>) {
    && |lists| == |ops| + 1
    && forall i {:trigger ops[i]} :: 0 <= i < |ops| ==> lists[i + 1] == StoreStep(u, Reread(lists[i]), ops[i])
  }

  /** Every history from a valid list is the run of its steps, and ends on a valid list. */
  lemma {:induction false} HistoriesAreRuns(digest: Digest, lists: seq<seq<DeviceRecord>>, ops: seq<StoreOp>)
    requires IsHistory(SetupOf(digest), lists, ops) && ListValid(lists[0])
    ensures lists[|ops|] == Run(SetupOf(digest), lists[0], ops) && ListValid(lists[|ops|])
    decreases ops
  {
    if ops != [] {
      var u := SetupOf(digest);
      assert lists[1] == StoreStep(u, Reread(lists[0]), ops[0]);
      MadeStep(digest, lists[0], lists[1], ops[0]);
      RestIsHistory(u, lists, ops);
      HistoriesAreRuns(digest, lists[1..], ops[1..]);
    }
  }

  lemma RestIsHistory(u: Setup, lists: seq<seq<DeviceRecord>>, ops: seq<StoreOp>)
    requires IsHistory(u, lists, ops) && ops != []
    ensures IsHistory(u, lists[1..], ops[1..])
  {
    forall i | 0 <= i < |ops| - 1 ensures lists[1..][i + 1] == StoreStep(u, Reread(lists[1..][i]), ops[1..][i]) {
      assert ops[1..][i] == ops[i + 1];
    }
  }

  lemma EditIsStep(u: Setup, rs: seq<DeviceRecord>, target: (seq<DeviceRecord>, Option<nat>),
      edit: DeviceRecord -> DeviceRecord, op: StoreOp)
    requires !op.CreateDevice? && !op.DeleteDevice? && !op.Reconcile?
    requires target == Target(u, rs, op) && edit == EditOf(u.digest, op)
    ensures EditAt(target, edit) == StoreStep(u, rs, op)
  {
  }

  lemma CreateIsStep(u: Setup, rs: seq<DeviceRecord>, name: string, tokens: seq<Token>)
    ensures Created(u, rs, name, tokens) == StoreStep(u, rs, CreateDevice(name, tokens))
  {
  }

  lemma SaveIsStep(u: Setup, rs: seq<DeviceRecord>, key: string, deployed: seq<Slot>, id: Option<int>, hash: string,
      port: Option<int>)
    ensures EditAt(Locate(u, rs, Some(key)), SaveEdit(deployed, id, hash, port))
         == StoreStep(u, rs, SaveDeployed(key, deployed, id, hash, port))
  {
    EditIsStep(u, rs, Locate(u, rs, Some(key)), SaveEdit(deployed, id, hash, port),
               SaveDeployed(key, deployed, id, hash, port));
  }

  lemma SetIdIsStep(u: Setup, rs: seq<DeviceRecord>, key: string, id: Option<int>)
    ensures EditAt(Locate(u, rs, Some(key)), IdEdit(id)) == StoreStep(u, rs, SetDeployedId(key, id))
  {
    EditIsStep(u, rs, Locate(u, rs, Some(key)), IdEdit(id), SetDeployedId(key, id));
  }

  lemma SetCommandsIsStep(u: Setup, rs: seq<DeviceRecord>, key: Option<string>, commands: RawCommands,
      on: Option<int>, off: Option<int>)
    ensures EditAt(Locate(u, rs, key), StageEdit(commands, on, off))
         == StoreStep(u, rs, SetCommands(key, commands, on, off))
  {
    EditIsStep(u, rs, Locate(u, rs, key), StageEdit(commands, on, off), SetCommands(key, commands, on, off));
  }

  lemma RenameIsStep(u: Setup, rs: seq<DeviceRecord>, key: string, name: string, hash: Option<string>)
    ensures EditAt((rs, FindKey(rs, NormalizeKey(key), 0)), RenameEdit(key, name, hash))
         == StoreStep(u, rs, RenameDevice(key, name, hash))
  {
    EditIsStep(u, rs, (rs, FindKey(rs, NormalizeKey(key), 0)), RenameEdit(key, name, hash),
        RenameDevice(key, name, hash));
  }

  lemma ReconcileIsStep(u: Setup, rs: seq<DeviceRecord>, after: seq<DeviceRecord>, assignments: seq<Assignment>)
    requires |after| == |rs| && forall i :: 0 <= i < |rs| ==> after[i] == WriteEdit(assignments)(rs[i])
    ensures after == WriteRecords(rs, assignments) == StoreStep(u, rs, Reconcile(assignments))
  {
  }

  lemma EnsureIsStep(u: Setup, rs: seq<DeviceRecord>)
    ensures WithEvents(u, rs).0 == StoreStep(u, rs, EnsureEvents)
  {
    var (list, at) := WithEvents(u, rs);
    EditIsStep(u, rs, (list, at), NoEdit(), EnsureEvents);
    assert list[at.value := list[at.value]] == list;
  }

  lemma AllocateIsStep(u: Setup, rs: seq<DeviceRecord>, name: string)
    requires Strip(name) != ""
    ensures EditAt(WithEvents(u, rs), EndpointEdit(u.digest, OpAllocate(name)))
         == StoreStep(u, rs, Endpoint(OpAllocate(name)))
  {
    EditIsStep(u, rs, WithEvents(u, rs), EndpointEdit(u.digest, OpAllocate(name)), Endpoint(OpAllocate(name)));
  }

  /** A blank name is refused before anything is read back or created, and that is what the
      step does with it. */
  lemma BlankIsStep(u: Setup, rs: seq<DeviceRecord>, name: string)
    requires Strip(name) == ""
    ensures StoreStep(u, rs, Endpoint(OpAllocate(name))) == rs
  {
    var at := FirstOf(rs, u.isUser, false, 0);
    EditIsStep(u, rs, (rs, at), EndpointEdit(u.digest, OpAllocate(name)), Endpoint(OpAllocate(name)));
    if at.Some? {
      assert Allocate(rs[at.value], name) == rs[at.value];
      assert rs[at.value := rs[at.value]] == rs;
    }
  }

  // ---------------------------------------------------------- change flags

  /** The change flag of the reconcile. */
  predicate Rewrites(r: DeviceRecord, assignments: seq<Assignment>) {
    match Lookup(assignments, r.key)
    case Some(a) => r.deviceId != Some(a.id) || Strip(r.hash) != Strip(a.hash)
    case None => r.deviceId.Some? || Strip(r.hash) != "" || r.deployed != []
  }

  /** It says exactly whether a record changes, given a hash without outer blanks. */
  lemma RewritesIff(r: DeviceRecord, assignments: seq<Assignment>)
    requires Strip(r.hash) == r.hash
    ensures Rewrites(r, assignments) <==> WriteRecord(r, assignments) != r
  {
    var a := Lookup(assignments, r.key);
    if a.Some? && WriteRecord(r, assignments) == r {
      assert Strip(a.value.hash) == r.hash;
    }
  }

  predicate TidyHashes(rs: seq<DeviceRecord>) {
    forall i :: 0 <= i < |rs| ==> Strip(rs[i].hash) == rs[i].hash
  }

  lemma ReadHashIsTidy(raw: RawRecord, fallbackKey: string)
    ensures Strip(NormalizeRecord(raw, fallbackKey).hash) == NormalizeRecord(raw, fallbackKey).hash
  {
    NormalizeRecordWellFormed(raw, fallbackKey);
  }

  /** Reading back trims every hash, whatever the list. */
  lemma RereadIsTidy(rs: seq<DeviceRecord>)
    ensures TidyHashes(Reread(rs))
  {
    var raws := AsRawRecords(rs);
    var deduped := Deduped(ReadAll(raws));
    forall r | r in deduped ensures Strip(r.hash) == r.hash {
      var i :| 0 <= i < |deduped| && deduped[i] == r;
      ReadHashIsTidy(raws[i], FallbackKey(i));
    }
    CapSparesReserved(deduped, IsUser, MAX_WIFI_DEVICES);
  }

  function RewriteFlag(assignments: seq<Assignment>): DeviceRecord -> bool {
    (r: DeviceRecord) => Rewrites(r, assignments)
  }

  function WriteEdit(assignments: seq<Assignment>): DeviceRecord -> DeviceRecord {
    (r: DeviceRecord) => WriteRecord(r, assignments)
  }

  lemma FlagIsExact(rs: seq<DeviceRecord>, assignments: seq<Assignment>)
    requires TidyHashes(rs)
    ensures Exact(rs, RewriteFlag(assignments), WriteEdit(assignments))
  {
    forall i | 0 <= i < |rs| ensures Rewrites(rs[i], assignments) <==> WriteRecord(rs[i], assignments) != rs[i] {
      RewritesIff(rs[i], assignments);
    }
  }

  predicate Exact<T(==)>(rs: seq<T>, flag: T -> bool, edit: T -> T) {
    forall i :: 0 <= i < |rs| ==> (flag(rs[i]) <==> edit(rs[i]) != rs[i])
  }

  /** One pass over the records, rewriting those the flag picks out. */
  method RewriteWhere<T(==)>(rs: seq<T>, flag: T -> bool, edit: T -> T) returns (after: seq<T>, changed: bool)
    requires Exact(rs, flag, edit)
    ensures |after| == |rs| && forall i :: 0 <= i < |rs| ==> after[i] == edit(rs[i])
    ensures changed <==> after != rs
  {
    after, changed := rs, false;
    for i := 0 to |rs|
      invariant |after| == |rs|
      invariant forall k :: 0 <= k < i ==> after[k] == edit(rs[k])
      invariant forall k :: i <= k < |rs| ==> after[k] == rs[k]
      invariant changed <==> after != rs
    {
      if flag(rs[i]) {
        after := after[i := edit(after[i])];
        changed := true;
        assert after[i] != rs[i];
      }
    }
  }

  lemma {:induction false} WithoutIsShorterIff(rs: seq<DeviceRecord>, key: string)
    ensures |Without(rs, key)| == |rs| <==> Without(rs, key) == rs
  {
    if rs != [] {
      WithoutIsShorterIff(rs[..|rs| - 1], key);
      assert rs == rs[..|rs| - 1] + [rs[|rs| - 1]];
    }
  }

  lemma {:induction false} FindKeyIsFirst(rs: seq<DeviceRecord>, key: string, from: nat, i: nat)
    requires from <= i < |rs| && rs[i].key == key && forall k :: from <= k < i ==> rs[k].key != key
    ensures FindKey(rs, key, from) == Some(i)
    decreases i - from
  {
    if from < i { FindKeyIsFirst(rs, key, from + 1, i); }
  }

  lemma {:induction false} FirstOfIsFirst<T>(rs: seq<T>, isUser: T -> bool, wanted: bool, from: nat, i: nat)
    requires from <= i < |rs| && isUser(rs[i]) == wanted && forall k :: from <= k < i ==> isUser(rs[k]) != wanted
    ensures FirstOf(rs, isUser, wanted, from) == Some(i)
    decreases i - from
  {
    if from < i { FirstOfIsFirst(rs, isUser, wanted, from + 1, i); }
  }

  class CommandConfigStore {
    const setup: Setup
    var devices: seq<DeviceRecord>

    constructor (digest: Digest)
      ensures devices == [] && setup == SetupOf(digest)
    {
      setup := SetupOf(digest);
      devices := [];
    }

    /** `_hub_device_records`: every access normalizes the whole list again. */
    method ReadDevices()
      modifies this`devices
      ensures devices == Reread(old(devices))
    {
      devices := ReadRecords(AsRawRecords(devices));
    }

    method FirstRecord(wanted: bool) returns (at: Option<nat>)
      ensures at == FirstOf(devices, setup.isUser, wanted, 0)
    {
      for i := 0 to |devices|
        invariant forall k :: 0 <= k < i ==> setup.isUser(devices[k]) != wanted
      {
        if setup.isUser(devices[i]) == wanted {
          FirstOfIsFirst(devices, setup.isUser, wanted, 0, i);
          return Some(i);
        }
      }
      at := None;
    }

    method RecordByKey(key: string) returns (at: Option<nat>)
      ensures at == FindKey(devices, key, 0)
    {
      for i := 0 to |devices|
        invariant forall k :: 0 <= k < i ==> devices[k].key != key
      {
        if devices[i].key == key {
          FindKeyIsFirst(devices, key, 0, i);
          return Some(i);
        }
      }
      at := None;
    }

    method CountUsers() returns (n: nat)
      ensures n == UserCount(devices, setup.isUser)
    {
      n := 0;
      for i := 0 to |devices|
        invariant n == UserCount(devices[..i], setup.isUser)
      {
        UserCountAppend(devices[..i], devices[i], setup.isUser);
        assert devices[..i + 1] == devices[..i] + [devices[i]];
        if setup.isUser(devices[i]) { n := n + 1; }
      }
      assert devices[..|devices|] == devices;
    }

    method FindKeyed(wanted: string) returns (at: Option<nat>)
      modifies this`devices
      ensures (devices, at) == LocateKey(setup, old(devices), wanted)
    {
      if wanted != "" {
        at := RecordByKey(wanted);
        if at.Some? { return; }
        var user := FirstRecord(true);
        if wanted != DEFAULT_WIFI_DEVICE_KEY || user.Some? { return None; }
      } else {
        at := FirstRecord(true);
        if at.Some? { return; }
      }
      devices := devices + [setup.device];
      at := Some(|devices| - 1);
    }

    /** `_find_hub_device_record`; None is the KeyError. */
    method FindDevice(key: Option<string>) returns (at: Option<nat>)
      modifies this`devices
      ensures (devices, at) == Locate(setup, Reread(old(devices)), key)
    {
      ReadDevices();
      at := FindKeyed(if key.Some? then NormalizeKey(key.value) else "");
    }

    /** The first drawn token whose key is unused. */
    method DrawToken(tokens: seq<Token>) returns (token: Option<string>)
      ensures token == FirstFree(devices, tokens)
    {
      for k := 0 to |tokens|
        invariant FirstFree(devices, tokens[k..]) == FirstFree(devices, tokens)
      {
        assert tokens[k..][1..] == tokens[k + 1..];
        if NormalizeKey(tokens[k]) !in KeysOf(devices) && !IsEventsKey(NormalizeKey(tokens[k])) {
          return Some(tokens[k]);
        }
      }
      token := None;
    }

    /** None: the cap is reached, or no drawn token is free yet. */
    method CreateHubDevice(name: string, tokens: seq<Token>) returns (created: Option<DeviceRecord>)
      modifies this`devices
      ensures devices == StoreStep(setup, Reread(old(devices)), CreateDevice(name, tokens))
      ensures created.Some? <==>
        (UserCount(Reread(old(devices)), setup.isUser) < setup.cap && FirstFree(Reread(old(devices)), tokens).Some?)
      ensures created.Some? ==> devices == Reread(old(devices)) + [created.value]
    {
      ReadDevices();
      CreateIsStep(setup, devices, name, tokens);
      var users := CountUsers();
      if users >= setup.cap { return None; }
      var token := DrawToken(tokens);
      if token.None? { return None; }
      created := Some(setup.make(name, token.value));
      devices := devices + [created.value];
    }

    method DeleteHubDevice(key: string) returns (deleted: bool)
      modifies this`devices
      ensures devices == Without(Reread(old(devices)), NormalizeKey(key))
      ensures deleted <==> devices != Reread(old(devices))
      ensures devices == StoreStep(setup, Reread(old(devices)), DeleteDevice(key))
    {
      ReadDevices();
      ghost var before := devices;
      var wanted := NormalizeKey(key);
      var next: seq<DeviceRecord> := [];
      for i := 0 to |devices|
        invariant next == Without(devices[..i], wanted) && devices == before
      {
        assert devices[..i + 1][..i] == devices[..i];
        if devices[i].key != wanted { next := next + [devices[i]]; }
      }
      assert devices[..|devices|] == devices;
      WithoutIsShorterIff(devices, wanted);
      if |next| == |devices| { return false; }
      devices := next;
      deleted := true;
    }

    method SaveDeployedCommands(key: string, deployed: seq<Slot>, id: Option<int>, hash: string, port: Option<int>)
        returns (found: bool)
      modifies this`devices
      ensures devices == EditAt(Locate(setup, Reread(old(devices)), Some(key)), SaveEdit(deployed, id, hash, port))
      ensures found <==> Locate(setup, Reread(old(devices)), Some(key)).1.Some?
      ensures devices == StoreStep(setup, Reread(old(devices)), SaveDeployed(key, deployed, id, hash, port))
    {
      SaveIsStep(setup, Reread(devices), key, deployed, id, hash, port);
      var at := FindDevice(Some(key));
      if at.None? { return false; }
      devices := devices[at.value :=
        devices[at.value].(deployed := deployed, deviceId := id, hash := Strip(hash), port := port)];
      found := true;
    }

    /** `async_set_deployed_device_id`; an unknown key changes nothing. */
    method SetDeployedDeviceId(key: string, id: Option<int>) returns (changed: bool)
      modifies this`devices
      ensures devices == EditAt(Locate(setup, Reread(old(devices)), Some(key)), IdEdit(id))
      ensures changed <==> devices != Locate(setup, Reread(old(devices)), Some(key)).0
      ensures devices == StoreStep(setup, Reread(old(devices)), SetDeployedId(key, id))
    {
      SetIdIsStep(setup, Reread(devices), key, id);
      var at := FindDevice(Some(key));
      if at.None? { return false; }
      if devices[at.value].deviceId == id {
        assert devices[at.value := devices[at.value]] == devices;
        return false;
      }
      devices := devices[at.value := devices[at.value].(deviceId := id)];
      changed := true;
    }

    method SetHubCommands(key: Option<string>, commands: RawCommands, on: Option<int>, off: Option<int>)
        returns (found: bool)
      modifies this`devices
      ensures devices == EditAt(Locate(setup, Reread(old(devices)), key), StageEdit(commands, on, off))
      ensures found <==> Locate(setup, Reread(old(devices)), key).1.Some?
      ensures devices == StoreStep(setup, Reread(old(devices)), SetCommands(key, commands, on, off))
    {
      SetCommandsIsStep(setup, Reread(devices), key, commands, on, off);
      var at := FindDevice(key);
      if at.None? { return false; }
      var r := devices[at.value];
      var slots := NormalizeCommandList(commands, RecordSlotCount(r.key, Some(r.slotCount)), IsEventsKey(r.key));
      devices := devices[at.value :=
        r.(commands := slots, powerOn := NormalizePowerId(on), powerOff := NormalizePowerId(off))];
      found := true;
    }

    method RenameHubDevice(key: string, name: string, hash: Option<string>) returns (changed: bool)
      modifies this`devices
      ensures var before := Reread(old(devices));
        && devices == EditAt((before, FindKey(before, NormalizeKey(key), 0)), RenameEdit(key, name, hash))
        && (changed <==> devices != before)
      ensures devices == StoreStep(setup, Reread(old(devices)), RenameDevice(key, name, hash))
    {
      RenameIsStep(setup, Reread(devices), key, name, hash);
      ReadDevices();
      RereadIsTidy(old(devices));
      var at := RecordByKey(NormalizeKey(key));
      if at.None? { return false; }
      var r := devices[at.value];
      ghost var before := devices;
      assert before[at.value := before[at.value]] == before;
      if Strip(name) == "" { return false; }
      changed := false;
      if r.name != Strip(name) {
        r := r.(name := Strip(name));
        changed := true;
      }
      if hash.Some? && Strip(r.hash) != Strip(hash.value) {
        r := r.(hash := Strip(hash.value));
        changed := true;
      }
      assert r == ApplyRename(before[at.value], PendingRename(key, name, hash));
      devices := devices[at.value := r];
      assert changed <==> devices[at.value] != before[at.value];
    }

    method ReconcileDeployedDevices(assignments: seq<Assignment>) returns (changed: bool)
      modifies this`devices
      ensures devices == WriteRecords(Reread(old(devices)), assignments)
      ensures changed <==> devices != Reread(old(devices))
      ensures devices == StoreStep(setup, Reread(old(devices)), Reconcile(assignments))
    {
      ReadDevices();
      RereadIsTidy(old(devices));
      FlagIsExact(devices, assignments);
      ghost var before := devices;
      devices, changed := RewriteWhere(devices, RewriteFlag(assignments), WriteEdit(assignments));
      ReconcileIsStep(setup, before, devices, assignments);
    }

    method FindEvents() returns (at: nat)
      modifies this`devices
      ensures (devices, Some(at)) == WithEvents(setup, old(devices))
    {
      var found := FirstRecord(false);
      if found.Some? { return found.value; }
      devices := devices + [setup.events];
      at := |devices| - 1;
    }

    /** The reserved record's position, after creating the record on first use. */
    method EnsureWifiEvents() returns (at: nat)
      modifies this`devices
      ensures (devices, Some(at)) == WithEvents(setup, Reread(old(devices)))
      ensures devices == StoreStep(setup, Reread(old(devices)), EnsureEvents)
    {
      ReadDevices();
      EnsureIsStep(setup, devices);
      at := FindEvents();
    }

    /** `async_allocate_wifi_event`: a blank name is refused before the record is created. */
    method AllocateWifiEvent(name: string) returns (answer: AllocResult)
      modifies this`devices
      ensures Strip(name) == "" ==> devices == old(devices) && answer == Refused(EmptyName)
      ensures Strip(name) != "" ==>
        devices == EditAt(WithEvents(setup, Reread(old(devices))), EndpointEdit(setup.digest, OpAllocate(name)))
      ensures Strip(name) != "" ==> devices == StoreStep(setup, Reread(old(devices)), Endpoint(OpAllocate(name)))
      ensures Strip(name) != "" ==>
        (var (list, at) := WithEvents(setup, Reread(old(devices)));
         answer == AllocateAt(list[at.value].commands, list[at.value].deployed, name))
    {
      if Strip(name) == "" { return Refused(EmptyName); }
      AllocateIsStep(setup, Reread(devices), name);
      var at := EnsureWifiEvents();
      var r := devices[at];
      answer := ScanForSlot(r.commands, r.deployed, name);
      RightAnswerIsUnique(r.commands, r.deployed, name, answer, AllocateAt(r.commands, r.deployed, name));
      if answer.Allocated? {
        r := r.(commands := r.commands[answer.index := NewEventSlot(Strip(name))]);
      }
      devices := devices[at := r];
    }
  }
}
