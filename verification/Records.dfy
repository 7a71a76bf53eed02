/** Wifi Device records: normalization of one record, and the re-normalizing read
    of a hub's whole record list (key de-duplication, then the user-device cap). */
module Records {
  import opened Text
  import opened Slots

  const MAX_WIFI_DEVICES: nat := 5
  const DEFAULT_WIFI_DEVICE_KEY := "default"
  const WIFI_EVENTS_DEVICE_KEY := "haevents"
  const WIFI_EVENTS_DEVICE_NAME := "Wifi Events"
  const KEY_LENGTH: nat := 24

  // --------------------------------------------------------------- keys

  function NormalizeKey(s: string): (r: string)
    ensures |r| <= KEY_LENGTH && IsPlain(r)
  {
    KeepAlnumOfLower(Lower(Strip(s)));
    var t := KeepAlnum(Lower(Strip(s)));
    if |t| > KEY_LENGTH then t[..KEY_LENGTH] else t
  }

  predicate IsKey(s: string) { s != "" && |s| <= KEY_LENGTH && IsPlain(s) }

  lemma KeysAreFixed(s: string)
    requires IsPlain(s) && |s| <= KEY_LENGTH
    ensures NormalizeKey(s) == s
  {
    PlainIsFixed(s);
  }

  predicate IsEventsKey(s: string) { NormalizeKey(s) == WIFI_EVENTS_DEVICE_KEY }

  function RecordSlotCount(key: string, raw: Option<int>): (n: nat)
    ensures 1 <= n <= MAX_RECORD_SLOT_COUNT
  {
    if raw.Some? && 1 <= raw.value <= MAX_RECORD_SLOT_COUNT then raw.value
    else if IsEventsKey(key) then WIFI_EVENTS_SLOT_COUNT else COMMAND_SLOT_COUNT
  }

  // ------------------------------------------------------------ records

  datatype DeviceRecord = DeviceRecord(
    key: string, name: string, slotCount: nat, commands: seq<Slot>,
    powerOn: Option<int>, powerOff: Option<int>,
    deployed: seq<Slot>, deviceId: Option<int>, hash: string, port: Option<int>)

  datatype RawRecord =
    | NotARecord
    | RawRecord(
        key: string, name: string, slotCount: Option<int>, commands: RawCommands,
        powerOn: Option<int>, powerOff: Option<int>,
        deployed: seq<Slot>, deviceId: Option<int>, hash: string, port: Option<int>)

  /** `str(name or DEFAULT).strip() or DEFAULT` */
  function TidyName(name: string): (r: string)
    ensures r != "" && Strip(r) == r
  {
    StripIdempotent(OrDefaultName(name));
    var t := Strip(OrDefaultName(name));
    if t == "" then DEFAULT_WIFI_DEVICE_NAME else t
  }

  function DefaultRecord(key: string, name: string, slotCount: Option<int>): DeviceRecord {
    var k := if NormalizeKey(key) == "" then DEFAULT_WIFI_DEVICE_KEY else NormalizeKey(key);
    var n := RecordSlotCount(k, slotCount);
    DeviceRecord(k, TidyName(name), n, NormalizeCommands(NotAList, n, false),
                 None, None, [], None, "", None)
  }

  function NormalizeRecord(raw: RawRecord, fallbackKey: string): DeviceRecord {
    match raw
    case NotARecord => DefaultRecord(fallbackKey, DEFAULT_WIFI_DEVICE_NAME, None)
    case RawRecord(key, name, count, commands, on, off, deployed, id, hash, port) =>
      var base := DefaultRecord(
        if NormalizeKey(key) == "" then fallbackKey else NormalizeKey(key), TidyName(name), count);
      base.(commands := NormalizeCommands(commands, base.slotCount, IsEventsKey(base.key)),
            powerOn := NormalizePowerId(on), powerOff := NormalizePowerId(off),
            deployed := deployed, deviceId := id, hash := Strip(hash), port := port)
  }

  function AsRawRecord(r: DeviceRecord): RawRecord {
    RawRecord(r.key, r.name, Some(r.slotCount), AsRawList(r.commands),
              r.powerOn, r.powerOff, r.deployed, r.deviceId, r.hash, r.port)
  }

  predicate WellFormed(r: DeviceRecord) {
    && IsKey(r.key)
    && TidyName(r.name) == r.name
    && 1 <= r.slotCount <= MAX_RECORD_SLOT_COUNT
    && |r.commands| == r.slotCount
    && AllNormal(r.commands, IsEventsKey(r.key))
    && NormalizePowerId(r.powerOn) == r.powerOn
    && NormalizePowerId(r.powerOff) == r.powerOff
    && Strip(r.hash) == r.hash
  }

  lemma TidyNameIdempotent(name: string)
    ensures TidyName(TidyName(name)) == TidyName(name)
  {
  }

  lemma DefaultKeyIsKey(key: string)
    ensures IsKey(if NormalizeKey(key) == "" then DEFAULT_WIFI_DEVICE_KEY else NormalizeKey(key))
  {
    var k := DEFAULT_WIFI_DEVICE_KEY;
    assert forall i :: 0 <= i < |k| ==> 'a' <= k[i] <= 'z';
  }

  lemma DefaultTableIsNormal(n: nat, standalone: bool)
    ensures AllNormal(NormalizeCommands(NotAList, n, false), standalone)
  {
    assert HasAction(DEFAULT_ACTION);
  }

  lemma DefaultRecordWellFormed(key: string, name: string, slotCount: Option<int>)
    ensures WellFormed(DefaultRecord(key, name, slotCount))
  {
    var k := if NormalizeKey(key) == "" then DEFAULT_WIFI_DEVICE_KEY else NormalizeKey(key);
    DefaultKeyIsKey(key);
    TidyNameIdempotent(name);
    DefaultTableIsNormal(RecordSlotCount(k, slotCount), IsEventsKey(k));
    StripTrimmed("");
  }

  lemma NormalizeRecordWellFormed(raw: RawRecord, fallbackKey: string)
    ensures WellFormed(NormalizeRecord(raw, fallbackKey))
  {
    match raw
    case NotARecord => DefaultRecordWellFormed(fallbackKey, DEFAULT_WIFI_DEVICE_NAME, None);
    case RawRecord(key, name, count, commands, on, off, deployed, id, hash, port) =>
      var k := if NormalizeKey(key) == "" then fallbackKey else NormalizeKey(key);
      DefaultRecordWellFormed(k, TidyName(name), count);
      var base := DefaultRecord(k, TidyName(name), count);
      NormalizeCommandsIsNormal(commands, base.slotCount, IsEventsKey(base.key));
      StripIdempotent(hash);
  }

  /** Re-reading leaves exactly the well-formed records alone, whatever fallback key
      their position suggests. */
  lemma WellFormedRecordsAreTheFixedPoints(r: DeviceRecord, fallbackKey: string)
    ensures NormalizeRecord(AsRawRecord(r), fallbackKey) == r <==> WellFormed(r)
  {
    NormalizeRecordWellFormed(AsRawRecord(r), fallbackKey);
    if WellFormed(r) {
      KeysAreFixed(r.key);
      NormalTablesAreTheFixedPoints(r.commands, IsEventsKey(r.key));
      var n := NormalizeRecord(AsRawRecord(r), fallbackKey);
      assert n.key == r.key && n.name == r.name && n.slotCount == r.slotCount;
      assert n.commands == Renormalize(r.commands, r.slotCount, IsEventsKey(r.key));
    }
  }

  // --------------------------------------------------------- record list

  function KeysOf(rs: seq<DeviceRecord>): (keys: seq<string>)
    ensures |keys| == |rs|
    ensures forall i :: 0 <= i < |rs| ==> keys[i] == rs[i].key
  {
    seq(|rs|, i requires 0 <= i < |rs| => rs[i].key)
  }

  predicate Distinct(keys: seq<string>) {
    forall i, j :: 0 <= i < j < |keys| ==> keys[i] != keys[j]
  }

  function FallbackKey(i: nat): string { "device" + Decimal(i + 1) }

  /** The payloads of a raw list, before keys are checked against each other. */
  function ReadAll(raws: seq<RawRecord>): (r: seq<DeviceRecord>)
    ensures |r| == |raws|
    ensures forall i :: 0 <= i < |raws| ==> r[i] == NormalizeRecord(raws[i], FallbackKey(i))
  {
    seq(|raws|, i requires 0 <= i < |raws| => NormalizeRecord(raws[i], FallbackKey(i)))
  }

  /** A key seen before gets its one-based position appended. */
  function FreshKeys(keys: seq<string>): (r: seq<string>)
    ensures |r| == |keys|
  {
    if keys == [] then []
    else
      var n := |keys| - 1;
      var front := FreshKeys(keys[..n]);
      front + [if keys[n] in front then keys[n] + Decimal(n + 1) else keys[n]]
  }

  function WithKeys(rs: seq<DeviceRecord>, keys: seq<string>): (r: seq<DeviceRecord>)
    requires |rs| == |keys|
    ensures |r| == |rs|
    ensures forall i :: 0 <= i < |rs| ==> r[i] == rs[i].(key := keys[i])
  {
    seq(|rs|, i requires 0 <= i < |rs| => rs[i].(key := keys[i]))
  }

  function Deduped(rs: seq<DeviceRecord>): (r: seq<DeviceRecord>)
    ensures |r| == |rs|
  {
    WithKeys(rs, FreshKeys(KeysOf(rs)))
  }

  function UserCount<T>(rs: seq<T>, isUser: T -> bool): (n: nat)
    ensures n <= |rs|
  {
    if rs == [] then 0
    else UserCount(rs[..|rs| - 1], isUser) + if isUser(rs[|rs| - 1]) then 1 else 0
  }

  /** The cap trims user devices only; the reserved record always stays. */
  function Capped<T>(rs: seq<T>, isUser: T -> bool, cap: nat): seq<T> {
    if rs == [] then []
    else
      var last := rs[|rs| - 1];
      var front := Capped(rs[..|rs| - 1], isUser, cap);
      if !isUser(last) || UserCount(front, isUser) < cap then front + [last] else front
  }

  lemma UserCountAppend<T>(rs: seq<T>, r: T, isUser: T -> bool)
    ensures UserCount(rs + [r], isUser) == UserCount(rs, isUser) + if isUser(r) then 1 else 0
  {
    assert (rs + [r])[..|rs|] == rs;
  }

  /** The cap holds afterwards, nothing is invented and no reserved record is dropped. */
  lemma {:induction false} CapSparesReserved<T>(rs: seq<T>, isUser: T -> bool, cap: nat)
    ensures UserCount(Capped(rs, isUser, cap), isUser) <= cap
    ensures forall r :: r in rs && !isUser(r) ==> r in Capped(rs, isUser, cap)
    ensures forall r :: r in Capped(rs, isUser, cap) ==> r in rs
  {
    if rs != [] {
      var n := |rs| - 1;
      CapSparesReserved(rs[..n], isUser, cap);
      UserCountAppend(Capped(rs[..n], isUser, cap), rs[n], isUser);
      assert rs == rs[..n] + [rs[n]];
    }
  }

  lemma {:induction false} CapKeepsAll<T>(rs: seq<T>, isUser: T -> bool, cap: nat)
    requires UserCount(rs, isUser) <= cap
    ensures Capped(rs, isUser, cap) == rs
  {
    if rs != [] {
      CapKeepsAll(rs[..|rs| - 1], isUser, cap);
      assert rs[..|rs| - 1] + [rs[|rs| - 1]] == rs;
    }
  }

  const IsUser: DeviceRecord -> bool := (r: DeviceRecord) => !IsEventsKey(r.key)

  method ReadPayloads(raws: seq<RawRecord>) returns (payloads: seq<DeviceRecord>)
    ensures payloads == ReadAll(raws)
  {
    ghost var all := ReadAll(raws);
    payloads := [];
    for idx := 0 to |raws|
      invariant payloads == all[..idx]
    {
      TakeOne(all, idx);
      payloads := payloads + [NormalizeRecord(raws[idx], FallbackKey(idx))];
    }
  }

  method DedupRecords(payloads: seq<DeviceRecord>) returns (normalized: seq<DeviceRecord>)
    ensures normalized == Deduped(payloads)
  {
    ghost var unique := FreshKeys(KeysOf(payloads));
    normalized := [];
    var seen: set<string> := {};
    for idx := 0 to |payloads|
      invariant |normalized| == idx
      invariant forall k :: 0 <= k < idx ==> normalized[k] == payloads[k].(key := unique[k])
      invariant forall key :: key in seen <==> key in unique[..idx]
    {
      FreshKeyAt(KeysOf(payloads), idx);
      var payload := payloads[idx];
      if payload.key in seen {
        payload := payload.(key := payload.key + Decimal(idx + 1));
      }
      seen := seen + {payload.key};
      assert unique[..idx + 1] == unique[..idx] + [unique[idx]];
      normalized := normalized + [payload];
    }
  }

  method CapRecords<T>(normalized: seq<T>, isUser: T -> bool, cap: nat) returns (kept: seq<T>)
    ensures kept == Capped(normalized, isUser, cap)
  {
    kept := [];
    var userCount := 0;
    for idx := 0 to |normalized|
      invariant kept == Capped(normalized[..idx], isUser, cap)
      invariant userCount == UserCount(kept, isUser)
    {
      assert normalized[..idx + 1][..idx] == normalized[..idx];
      var payload := normalized[idx];
      UserCountAppend(kept, payload, isUser);
      if !isUser(payload) {
        kept := kept + [payload];
      } else if userCount < cap {
        kept := kept + [payload];
        userCount := userCount + 1;
      }
    }
    assert normalized[..|normalized|] == normalized;
  }

  /** What a re-normalizing read makes of a stored list. */
  function ReadList(raws: seq<RawRecord>): seq<DeviceRecord> {
    Capped(Deduped(ReadAll(raws)), IsUser, MAX_WIFI_DEVICES)
  }

  /** `_hub_device_records` on a list-shaped store. */
  method ReadRecords(raws: seq<RawRecord>) returns (kept: seq<DeviceRecord>)
    ensures kept == ReadList(raws)
  {
    var payloads := ReadPayloads(raws);
    var normalized := DedupRecords(payloads);
    kept := CapRecords(normalized, IsUser, MAX_WIFI_DEVICES);
  }

  /** Position i of the de-duplicated keys, in terms of the earlier ones. */
  lemma {:induction false} FreshKeyAt(keys: seq<string>, i: nat)
    requires i < |keys|
    ensures FreshKeys(keys[..i]) == FreshKeys(keys)[..i]
    ensures FreshKeys(keys)[i]
         == if keys[i] in FreshKeys(keys)[..i] then keys[i] + Decimal(i + 1) else keys[i]
  {
    var n := |keys| - 1;
    if i < n {
      FreshKeyAt(keys[..n], i);
      assert keys[..n][..i] == keys[..i];
      assert FreshKeys(keys)[..i] == FreshKeys(keys[..n])[..i];
    } else {
      assert FreshKeys(keys)[..n] == FreshKeys(keys[..n]);
    }
  }

  /** The guard under which position i keeps the keys distinct: its key is new, or
      its key with the position appended is. */
  predicate SuffixIsFree(keys: seq<string>, i: nat)
    requires i < |keys|
  {
    var taken := FreshKeys(keys)[..i];
    keys[i] in taken ==> keys[i] + Decimal(i + 1) !in taken
  }

  /** De-duplication yields distinct keys exactly when no suffixed key is already taken. */
  lemma DedupedDistinctIff(keys: seq<string>)
    ensures Distinct(FreshKeys(keys)) <==> forall i :: 0 <= i < |keys| ==> SuffixIsFree(keys, i)
  {
    var unique := FreshKeys(keys);
    forall i | 0 <= i < |keys|
      ensures SuffixIsFree(keys, i) <==> unique[i] !in unique[..i]
    {
      FreshKeyAt(keys, i);
    }
    if Distinct(unique) {
      forall i | 0 <= i < |keys| ensures unique[i] !in unique[..i] {
        assert forall j :: 0 <= j < i ==> unique[..i][j] == unique[j] != unique[i];
      }
    }
    if forall i :: 0 <= i < |keys| ==> SuffixIsFree(keys, i) {
      forall i, j | 0 <= i < j < |keys| ensures unique[i] != unique[j] {
        assert SuffixIsFree(keys, j);
        assert unique[..j][i] == unique[i];
      }
    }
  }

  /** Stored keys "x", "x3", "x": the third becomes "x3" as well, so one read can
      still leave two records with the same key. */
  lemma SuffixCanCollide()
    ensures FreshKeys(["x", "x3", "x"]) == ["x", "x3", "x3"]
    ensures !SuffixIsFree(["x", "x3", "x"], 2)
  {
    var keys := ["x", "x3", "x"];
    assert Decimal(3) == "3";
    FreshKeyAt(keys, 0);
    FreshKeyAt(keys, 1);
    FreshKeyAt(keys, 2);
    var unique := FreshKeys(keys);
    assert unique[0] == "x" && unique[..1] == ["x"];
    assert unique[1] == "x3" && unique[..2] == ["x", "x3"];
    assert unique[2] == "x3";
    assert unique == ["x", "x3", "x3"];
  }

  // ----------------------------------------------------- list invariant

  predicate ListValid(rs: seq<DeviceRecord>) {
    && (forall i :: 0 <= i < |rs| ==> WellFormed(rs[i]))
    && Distinct(KeysOf(rs))
    && UserCount(rs, IsUser) <= MAX_WIFI_DEVICES
  }

  function AsRawRecords(rs: seq<DeviceRecord>): (raws: seq<RawRecord>)
    ensures |raws| == |rs|
    ensures forall i :: 0 <= i < |rs| ==> raws[i] == AsRawRecord(rs[i])
  {
    seq(|rs|, i requires 0 <= i < |rs| => AsRawRecord(rs[i]))
  }

  lemma {:induction false} DistinctKeysStay(keys: seq<string>)
    requires Distinct(keys)
    ensures FreshKeys(keys) == keys
  {
    if keys != [] {
      var n := |keys| - 1;
      DistinctKeysStay(keys[..n]);
      assert keys == keys[..n] + [keys[n]];
    }
  }

  lemma ReadAllKeepsWellFormed(rs: seq<DeviceRecord>)
    requires forall i :: 0 <= i < |rs| ==> WellFormed(rs[i])
    ensures ReadAll(AsRawRecords(rs)) == rs
  {
    var raws := AsRawRecords(rs);
    var read := ReadAll(raws);
    forall i | 0 <= i < |rs| ensures read[i] == rs[i] {
      assert WellFormed(rs[i]);
      assert raws[i] == AsRawRecord(rs[i]);
      WellFormedRecordsAreTheFixedPoints(rs[i], FallbackKey(i));
    }
  }

  /** Re-reading a valid list changes nothing. */
  lemma ReadIsNoOp(rs: seq<DeviceRecord>)
    requires ListValid(rs)
    ensures ReadList(AsRawRecords(rs)) == rs
  {
    ReadAllKeepsWellFormed(rs);
    DistinctKeysStay(KeysOf(rs));
    assert Deduped(rs) == rs;
    CapKeepsAll(rs, IsUser, MAX_WIFI_DEVICES);
  }

  /** A valid list holds at most one reserved record. */
  lemma AtMostOneEventsRecord(rs: seq<DeviceRecord>, i: nat, j: nat)
    requires ListValid(rs) && i < |rs| && j < |rs|
    requires IsEventsKey(rs[i].key) && IsEventsKey(rs[j].key)
    ensures i == j
  {
    assert WellFormed(rs[i]) && WellFormed(rs[j]);
    KeysAreFixed(rs[i].key);
    KeysAreFixed(rs[j].key);
    assert KeysOf(rs)[i] == KeysOf(rs)[j];
  }

  // -------------------------------------------------------------- status

  /** `commands_hash` of a record's payload. */
  function PayloadHash(digest: Digest, r: DeviceRecord, port: int): (h: string)
    ensures h != "" && Strip(h) == h
  {
    var n := RecordSlotCount(r.key, Some(r.slotCount));
    CommandsHash(digest, Renormalize(r.commands, n, IsEventsKey(r.key)), TidyName(r.name), port,
                 NormalizePowerId(r.powerOn), NormalizePowerId(r.powerOff), n)
  }

  /** The record reads in sync: its live hash equals the deployed one. */
  predicate InSync(digest: Digest, r: DeviceRecord, port: int) {
    PayloadHash(digest, r, port) == Strip(r.hash)
  }

  /** On a well-formed record the payload hash is the hash of the record itself. */
  lemma PayloadHashOf(digest: Digest, r: DeviceRecord, port: int)
    requires WellFormed(r)
    ensures PayloadHash(digest, r, port)
         == CommandsHash(digest, r.commands, r.name, port, r.powerOn, r.powerOff, r.slotCount)
  {
    NormalTablesAreTheFixedPoints(r.commands, IsEventsKey(r.key));
  }
}
