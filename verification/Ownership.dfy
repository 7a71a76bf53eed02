/** Which stored record owns which managed device: brands, the five-stage matching loop
    and the store write that follows it. */
module Ownership {
  import opened Text
  import opened Slots
  import opened Records

  // -------------------------------------------------------------- brands

  const COMMAND_BRAND_PREFIX := "m3"
  const LEGACY_COMMAND_BRAND_PREFIX := "m3tac0de"

  function PrintBrand(key: string, hash: string): string {
    COMMAND_BRAND_PREFIX + "-" + key + "-" + hash
  }

  predicate StartsWith(s: string, prefix: string) { prefix <= s }

  /** `s.split("-", 1)`: the text before the first dash, if there is one. */
  function DashIndex(s: string): (k: nat)
    ensures k <= |s|
    ensures k < |s| ==> s[k] == '-'
    ensures forall i :: 0 <= i < k ==> s[i] != '-'
  {
    if s == "" || s[0] == '-' then 0 else 1 + DashIndex(s[1..])
  }

  function BrandSuffix(text: string): string {
    var current, legacy := COMMAND_BRAND_PREFIX + "-", LEGACY_COMMAND_BRAND_PREFIX + "-";
    if StartsWith(text, current) then Strip(text[|current|..])
    else if StartsWith(text, legacy) then Strip(text[|legacy|..])
    else ""
  }

  /** `_parse_managed_wifi_brand`: the device key and the hash a brand carries. */
  function ParseBrand(brand: string): (Option<string>, Option<string>) {
    var suffix := BrandSuffix(Strip(brand));
    if suffix == "" then (None, None)
    else
      var k := DashIndex(suffix);
      if k == |suffix| then (None, Some(suffix))
      else
        var key := KeepAlnum(Lower(suffix[..k]));
        (Some(if key == "" then DEFAULT_WIFI_DEVICE_KEY else key), Some(Strip(suffix[k + 1..])))
  }

  lemma DashIndexAt(s: string, k: nat)
    requires k < |s| && s[k] == '-' && forall i :: 0 <= i < k ==> s[i] != '-'
    ensures DashIndex(s) == k
  {
  }

  lemma EndsKeepTrim(front: string, back: string)
    requires front != "" && !IsSpace(front[0]) && back != "" && Strip(back) == back
    ensures Strip(front + back) == front + back
  {
    var t := Strip(back);
    assert !IsSpace(t[|t| - 1]);
    assert (front + back)[|front + back| - 1] == back[|back| - 1] && (front + back)[0] == front[0];
    StripTrimmed(front + back);
  }

  lemma SuffixOfPrinted(key: string, hash: string)
    requires IsKey(key) && hash != "" && Strip(hash) == hash
    ensures BrandSuffix(Strip(PrintBrand(key, hash))) == key + "-" + hash
  {
    var suffix := key + "-" + hash;
    assert key + "-" + hash == (key + "-") + hash && (key + "-")[0] == key[0];
    EndsKeepTrim(key + "-", hash);
    assert PrintBrand(key, hash) == "m3-" + suffix;
    EndsKeepTrim("m3-", suffix);
    assert ("m3-" + suffix)[3..] == suffix;
  }

  /** A brand printed for a record key and a hash reads back as exactly that pair. */
  lemma BrandRoundTrip(key: string, hash: string)
    requires IsKey(key) && hash != "" && Strip(hash) == hash
    ensures ParseBrand(PrintBrand(key, hash)) == (Some(key), Some(hash))
  {
    var suffix := key + "-" + hash;
    SuffixOfPrinted(key, hash);
    assert forall i :: 0 <= i < |key| ==> suffix[i] == key[i] != '-';
    DashIndexAt(suffix, |key|);
    assert suffix[..|key|] == key && suffix[|key| + 1..] == hash;
    PlainIsFixed(key);
  }

  /** A brand is one of ours by either prefix; nothing else is. */
  predicate IsOurs(text: string, rest: string) { text == "m3-" + rest || text == "m3tac0de-" + rest }

  lemma OurSuffix(text: string, rest: string)
    requires IsOurs(text, rest)
    ensures BrandSuffix(text) == Strip(rest)
  {
    var current, legacy := COMMAND_BRAND_PREFIX + "-", LEGACY_COMMAND_BRAND_PREFIX + "-";
    if text == current + rest {
      assert text[|current|..] == rest;
    } else {
      assert text == legacy + rest && text[|legacy|..] == rest && text[2] == 't';
    }
  }

  lemma SuffixIsOurs(text: string) returns (rest: string)
    requires BrandSuffix(text) != ""
    ensures IsOurs(text, rest)
  {
    var current, legacy := COMMAND_BRAND_PREFIX + "-", LEGACY_COMMAND_BRAND_PREFIX + "-";
    if StartsWith(text, current) {
      rest := text[|current|..];
      assert text == current + rest;
    } else {
      rest := text[|legacy|..];
      assert text == legacy + rest && legacy == "m3tac0de-";
    }
  }

  /** After the prefix comes a hash, or a key and a hash: the key up to the first dash, letters
      and digits in lower case, with the default one for none. */
  lemma ParsedBrand(brand: string, rest: string, key: string, hash: string)
    requires IsOurs(Strip(brand), rest)
    ensures Strip(rest) == "" ==> ParseBrand(brand) == (None, None)
    ensures Strip(rest) != "" && '-' !in Strip(rest) ==> ParseBrand(brand) == (None, Some(Strip(rest)))
    ensures Strip(rest) == key + "-" + hash && '-' !in key ==>
      var kept := KeepAlnum(Lower(key));
      ParseBrand(brand) == (Some(if kept == "" then "default" else kept), Some(Strip(hash)))
  {
    var suffix := Strip(rest);
    OurSuffix(Strip(brand), rest);
    if suffix != "" && '-' !in suffix {
      assert DashIndex(suffix) == |suffix|;
    }
    if suffix == key + "-" + hash && '-' !in key {
      assert suffix[|key|] == '-' && forall i :: 0 <= i < |key| ==> suffix[i] == key[i];
      DashIndexAt(suffix, |key|);
      assert suffix[..|key|] == key && suffix[|key| + 1..] == hash;
    }
  }

  /** A brand without either prefix is no brand of ours. */
  lemma ForeignBrand(brand: string)
    requires forall rest :: !IsOurs(Strip(brand), rest)
    ensures ParseBrand(brand) == (None, None)
  {
    if BrandSuffix(Strip(brand)) != "" { var rest := SuffixIsOurs(Strip(brand)); }
  }

  // ------------------------------------------------------------ matching

  /** A hub device carrying a managed brand, and what the store says of each record. */
  datatype Managed = Managed(id: int, key: Option<string>, hash: string)
  datatype Stored = Stored(key: string, commandsHash: string, deployedHash: string, deviceId: Option<int>)
  datatype Assignment = Assignment(key: string, id: int, hash: string)

  /** `_managed_wifi_devices`: catalogue rows whose brand carries a hash. */
  function ManagedOf(rows: seq<(int, string)>): seq<Managed> {
    if rows == [] then []
    else
      var (id, brand) := rows[0];
      var (key, hash) := ParseBrand(brand);
      (if hash.Some? && hash.value != "" then [Managed(id, key, hash.value)] else []) + ManagedOf(rows[1..])
  }

  datatype Stage = ByDeployedHash(hash: string) | ByCommandsHash(hash: string) | ByDeviceId(id: int)

  predicate Matches(s: Stored, stage: Stage) {
    match stage
    case ByDeployedHash(h) => s.deployedHash == h
    case ByCommandsHash(h) => s.commandsHash == h
    case ByDeviceId(id) => s.deviceId == Some(id)
  }

  predicate Candidate(s: Stored, stage: Stage, taken: set<string>) {
    Matches(s, stage) && s.key !in taken
  }

  function Remaining(stored: seq<Stored>, stage: Stage, taken: set<string>): (r: seq<Stored>)
    ensures forall s :: s in r <==> s in stored && Candidate(s, stage, taken)
  {
    if stored == [] then []
    else
      assert stored == [stored[0]] + stored[1..];
      (if Candidate(stored[0], stage, taken) then [stored[0]] else []) + Remaining(stored[1..], stage, taken)
  }

  /** The one unassigned record the stage matches; None when there are none or several. */
  function PickUnique(stored: seq<Stored>, stage: Stage, taken: set<string>): (r: Option<string>)
    ensures r.Some? ==> exists s :: s in stored && Candidate(s, stage, taken) && s.key == r.value
  {
    var remaining := Remaining(stored, stage, taken);
    if |remaining| == 1 then assert remaining[0] in remaining; Some(remaining[0].key) else None
  }

  predicate HasKey(stored: seq<Stored>, key: string) {
    exists i :: 0 <= i < |stored| && stored[i].key == key
  }

  function OrElse(a: Option<string>, b: Option<string>): Option<string> { if a.Some? then a else b }

  /** The stages after the brand key: hashes, device id, and the only-pair fallback. */
  function OwnerByStages(m: Managed, stored: seq<Stored>, taken: set<string>, total: nat): (r: Option<string>)
    ensures r.Some? ==> HasKey(stored, r.value) && r.value !in taken
  {
    var only := if |stored| == 1 && total == 1 && stored[0].key != "" && stored[0].key !in taken
                then Some(stored[0].key) else None;
    OrElse(PickUnique(stored, ByDeployedHash(m.hash), taken),
    OrElse(PickUnique(stored, ByCommandsHash(m.hash), taken),
    OrElse(PickUnique(stored, ByDeviceId(m.id), taken), only)))
  }

  function Owner(m: Managed, stored: seq<Stored>, taken: set<string>, total: nat): (r: Option<string>)
    ensures r.Some? ==> HasKey(stored, r.value) && r.value !in taken
  {
    if m.key.Some? && m.key.value != "" && HasKey(stored, m.key.value) && m.key.value !in taken
    then m.key
    else OwnerByStages(m, stored, taken, total)
  }

  /** A way of choosing the owner of a device, given the keys already taken. */
  type Chooser = (Managed, set<string>) -> Option<string>

  function OwnerOf(stored: seq<Stored>, total: nat): Chooser {
    (m: Managed, taken: set<string>) => Owner(m, stored, taken, total)
  }

  /** What the matching loop assigns from position i on, given the keys already taken. */
  function AssignBy(managed: seq<Managed>, i: nat, choose: Chooser, taken: set<string>): seq<Assignment>
    requires i <= |managed|
    decreases |managed| - i
  {
    if i == |managed| then []
    else
      var m := managed[i];
      var owner := choose(m, taken);
      if owner.None? || owner.value == "" then AssignBy(managed, i + 1, choose, taken)
      else [Assignment(owner.value, m.id, m.hash)] + AssignBy(managed, i + 1, choose, taken + {owner.value})
  }

  function AssignFrom(managed: seq<Managed>, i: nat, stored: seq<Stored>, taken: set<string>): seq<Assignment>
    requires i <= |managed|
  {
    AssignBy(managed, i, OwnerOf(stored, |managed|), taken)
  }

  function Assign(managed: seq<Managed>, stored: seq<Stored>): seq<Assignment> {
    AssignFrom(managed, 0, stored, {})
  }

  /** One turn of the loop. */
  lemma AssignStep(managed: seq<Managed>, i: nat, stored: seq<Stored>, taken: set<string>)
    requires i < |managed|
    ensures AssignFrom(managed, i, stored, taken)
         == (var m, owner := managed[i], Owner(managed[i], stored, taken, |managed|);
             if owner.None? || owner.value == "" then AssignFrom(managed, i + 1, stored, taken)
             else [Assignment(owner.value, m.id, m.hash)] + AssignFrom(managed, i + 1, stored, taken + {owner.value}))
  {
    assert OwnerOf(stored, |managed|)(managed[i], taken) == Owner(managed[i], stored, taken, |managed|);
  }

  method MatchBy(managed: seq<Managed>, choose: Chooser) returns (assignments: seq<Assignment>)
    ensures assignments == AssignBy(managed, 0, choose, {})
  {
    assignments := [];
    var taken: set<string> := {};
    for i := 0 to |managed|
      invariant assignments + AssignBy(managed, i, choose, taken) == AssignBy(managed, 0, choose, {})
    {
      var m := managed[i];
      var owner := choose(m, taken);
      if owner.None? || owner.value == "" { continue; }
      assignments := assignments + [Assignment(owner.value, m.id, m.hash)];
      taken := taken + {owner.value};
    }
  }

  /** The loop of `_async_reconcile_deployed_wifi_device_ids`. */
  method MatchOwners(managed: seq<Managed>, stored: seq<Stored>) returns (assignments: seq<Assignment>)
    ensures assignments == Assign(managed, stored)
  {
    assignments := MatchBy(managed, OwnerOf(stored, |managed|));
  }

  // ------------------------------------------- a partial one-to-one match

  predicate DistinctIds(managed: seq<Managed>) {
    forall i, j :: 0 <= i < j < |managed| ==> managed[i].id != managed[j].id
  }

  /** Every assignment names a stored record still free and a device from position i on;
      no record and no device appears twice. */
  predicate OneToOne(assignments: seq<Assignment>, managed: seq<Managed>, i: nat, stored: seq<Stored>,
      taken: set<string>)
  {
    && (forall k :: 0 <= k < |assignments| ==>
          && HasKey(stored, assignments[k].key) && assignments[k].key !in taken && assignments[k].key != ""
          && exists j :: i <= j < |managed|
               && managed[j].id == assignments[k].id && managed[j].hash == assignments[k].hash)
    && (forall k, l :: 0 <= k < l < |assignments| ==>
          assignments[k].key != assignments[l].key && assignments[k].id != assignments[l].id)
  }

  /** The owner proposed is a stored record still free. */
  ghost predicate ProposesFree(choose: Chooser, stored: seq<Stored>) {
    forall m, taken :: choose(m, taken).Some? ==>
      HasKey(stored, choose(m, taken).value) && choose(m, taken).value !in taken
  }

  lemma OwnerIsFree(stored: seq<Stored>, total: nat)
    ensures ProposesFree(OwnerOf(stored, total), stored)
  {
  }

  lemma {:induction false} AssignByIsOneToOne(managed: seq<Managed>, i: nat, choose: Chooser,
      stored: seq<Stored>, taken: set<string>)
    requires i <= |managed| && DistinctIds(managed) && ProposesFree(choose, stored)
    ensures OneToOne(AssignBy(managed, i, choose, taken), managed, i, stored, taken)
    decreases |managed| - i
  {
    if i < |managed| {
      var m := managed[i];
      var owner := choose(m, taken);
      if owner.None? || owner.value == "" {
        AssignByIsOneToOne(managed, i + 1, choose, stored, taken);
      } else {
        var rest := AssignBy(managed, i + 1, choose, taken + {owner.value});
        AssignByIsOneToOne(managed, i + 1, choose, stored, taken + {owner.value});
        forall k | 0 <= k < |rest| ensures rest[k].key != owner.value && rest[k].id != m.id {
          var j :| i + 1 <= j < |managed| && managed[j].id == rest[k].id && managed[j].hash == rest[k].hash;
        }
      }
    }
  }

  lemma AssignFromIsOneToOne(managed: seq<Managed>, i: nat, stored: seq<Stored>, taken: set<string>)
    requires i <= |managed| && DistinctIds(managed)
    ensures OneToOne(AssignFrom(managed, i, stored, taken), managed, i, stored, taken)
  {
    OwnerIsFree(stored, |managed|);
    AssignByIsOneToOne(managed, i, OwnerOf(stored, |managed|), stored, taken);
  }

  /** No stored key and no managed device is assigned twice. */
  lemma AssignIsOneToOne(managed: seq<Managed>, stored: seq<Stored>)
    requires DistinctIds(managed)
    ensures OneToOne(Assign(managed, stored), managed, 0, stored, {})
  {
    AssignFromIsOneToOne(managed, 0, stored, {});
  }

  // ----------------------------------------------------- the store write

  function Lookup(assignments: seq<Assignment>, key: string): Option<Assignment> {
    if assignments == [] then None
    else if assignments[|assignments| - 1].key == key then Some(assignments[|assignments| - 1])
    else Lookup(assignments[..|assignments| - 1], key)
  }

  function WriteStored(s: Stored, assignments: seq<Assignment>): Stored {
    match Lookup(assignments, s.key)
    case Some(a) => s.(deviceId := Some(a.id), deployedHash := Strip(a.hash))
    case None => s.(deviceId := None, deployedHash := "")
  }

  function WriteAll(stored: seq<Stored>, assignments: seq<Assignment>): (r: seq<Stored>)
    ensures |r| == |stored|
    ensures forall i :: 0 <= i < |stored| ==> r[i] == WriteStored(stored[i], assignments)
  {
    seq(|stored|, i requires 0 <= i < |stored| => WriteStored(stored[i], assignments))
  }

  function WriteRecord(r: DeviceRecord, assignments: seq<Assignment>): DeviceRecord {
    match Lookup(assignments, r.key)
    case Some(a) => r.(deviceId := Some(a.id), hash := Strip(a.hash))
    case None => r.(deviceId := None, hash := "", deployed := [])
  }

  lemma {:induction false} LookupFinds(assignments: seq<Assignment>, key: string)
    ensures Lookup(assignments, key).Some? ==>
      Lookup(assignments, key).value in assignments && Lookup(assignments, key).value.key == key
    ensures Lookup(assignments, key).None? ==> forall a :: a in assignments ==> a.key != key
  {
    if assignments != [] {
      LookupFinds(assignments[..|assignments| - 1], key);
      assert assignments == assignments[..|assignments| - 1] + [assignments[|assignments| - 1]];
    }
  }

  predicate DistinctStoredKeys(stored: seq<Stored>) {
    forall i, j :: 0 <= i < j < |stored| ==> stored[i].key != stored[j].key
  }

  /** After the reconcile the deployed ids are pairwise distinct and name live managed
      devices; a record without an assignment is cleared. */
  lemma ReconcileOwnsEachDeviceOnce(managed: seq<Managed>, stored: seq<Stored>, i: nat, j: nat)
    requires DistinctIds(managed) && DistinctStoredKeys(stored) && i < |stored| && j < |stored|
    ensures var after := WriteAll(stored, Assign(managed, stored));
      && (after[i].deviceId.Some? ==>
            exists k :: 0 <= k < |managed| && managed[k].id == after[i].deviceId.value
                     && Strip(managed[k].hash) == after[i].deployedHash)
      && (after[i].deviceId.None? ==> after[i].deployedHash == "")
      && (i != j && after[i].deviceId.Some? ==> after[i].deviceId != after[j].deviceId)
  {
    var assignments := Assign(managed, stored);
    AssignIsOneToOne(managed, stored);
    LookupFinds(assignments, stored[i].key);
    LookupFinds(assignments, stored[j].key);
    var a, b := Lookup(assignments, stored[i].key), Lookup(assignments, stored[j].key);
    if a.Some? {
      var k :| 0 <= k < |assignments| && assignments[k] == a.value;
      if i != j && b.Some? {
        var l :| 0 <= l < |assignments| && assignments[l] == b.value;
        assert stored[i].key != stored[j].key;
        assert k != l;
      }
    }
  }

  // ------------------------------------------------ keyed brands win

  /** All brands carry distinct keys of stored records. */
  predicate AllKeyed(managed: seq<Managed>, stored: seq<Stored>) {
    && (forall i :: 0 <= i < |managed| ==>
          managed[i].key.Some? && managed[i].key.value != "" && HasKey(stored, managed[i].key.value))
    && (forall i, j :: 0 <= i < j < |managed| ==> managed[i].key != managed[j].key)
  }

  predicate EarlierKeys(managed: seq<Managed>, i: nat, taken: set<string>)
    requires i <= |managed|
  {
    forall k :: k in taken ==> exists j :: 0 <= j < i && managed[j].key == Some(k)
  }

  /** A brand that names a free stored record decides. */
  ghost predicate KeysDecide(choose: Chooser, stored: seq<Stored>) {
    forall m: Managed, taken: set<string> ::
      m.key.Some? && m.key.value != "" && HasKey(stored, m.key.value) && m.key.value !in taken ==>
      choose(m, taken) == m.key
  }

  lemma OwnerFollowsKeys(stored: seq<Stored>, total: nat)
    ensures KeysDecide(OwnerOf(stored, total), stored)
  {
  }

  function Home(m: Managed): Assignment
    requires m.key.Some?
  {
    Assignment(m.key.value, m.id, m.hash)
  }

  /** Every device from position i on with the record its brand names. */
  function HomeFrom(managed: seq<Managed>, i: nat): (r: seq<Assignment>)
    requires i <= |managed| && forall k :: 0 <= k < |managed| ==> managed[k].key.Some?
    ensures |r| == |managed| - i && forall k :: i <= k < |managed| ==> r[k - i] == Home(managed[k])
    decreases |managed| - i
  {
    if i == |managed| then [] else [Home(managed[i])] + HomeFrom(managed, i + 1)
  }

  lemma KeyIsStillFree(managed: seq<Managed>, i: nat, stored: seq<Stored>, taken: set<string>)
    requires i < |managed| && AllKeyed(managed, stored) && EarlierKeys(managed, i, taken)
    ensures managed[i].key.value !in taken && EarlierKeys(managed, i + 1, taken + {managed[i].key.value})
  {
    assert forall j :: 0 <= j < i ==> managed[j].key != managed[i].key;
  }

  lemma {:induction false} KeyedAssignBy(managed: seq<Managed>, i: nat, choose: Chooser, stored: seq<Stored>,
      taken: set<string>)
    requires i <= |managed| && AllKeyed(managed, stored) && EarlierKeys(managed, i, taken) && KeysDecide(choose, stored)
    ensures AssignBy(managed, i, choose, taken) == HomeFrom(managed, i)
    decreases |managed| - i
  {
    if i < |managed| {
      KeyIsStillFree(managed, i, stored, taken);
      assert choose(managed[i], taken) == managed[i].key;
      KeyedAssignBy(managed, i + 1, choose, stored, taken + {managed[i].key.value});
    }
  }

  lemma KeyedAssignment(managed: seq<Managed>, stored: seq<Stored>)
    requires AllKeyed(managed, stored)
    ensures Assign(managed, stored) == HomeFrom(managed, 0)
  {
    OwnerFollowsKeys(stored, |managed|);
    KeyedAssignBy(managed, 0, OwnerOf(stored, |managed|), stored, {});
  }

  /** With distinct stored keys on all brands, each device goes to the record its brand
      names, wherever it stands in the catalogue. */
  lemma KeyedDevicesGoHome(managed: seq<Managed>, stored: seq<Stored>, i: nat)
    requires AllKeyed(managed, stored) && i < |managed|
    ensures Lookup(Assign(managed, stored), managed[i].key.value)
         == Some(Assignment(managed[i].key.value, managed[i].id, managed[i].hash))
  {
    KeyedAssignment(managed, stored);
    var assignments := Assign(managed, stored);
    LookupFinds(assignments, managed[i].key.value);
    assert assignments[i] in assignments;
    var found := Lookup(assignments, managed[i].key.value);
    var k :| 0 <= k < |assignments| && assignments[k] == found.value;
    assert managed[k].key == managed[i].key;
  }

  lemma WriteKeepsKeys(stored: seq<Stored>, assignments: seq<Assignment>, key: string)
    ensures HasKey(WriteAll(stored, assignments), key) <==> HasKey(stored, key)
  {
    var after := WriteAll(stored, assignments);
    if i :| 0 <= i < |stored| && stored[i].key == key {
      assert after[i].key == key;
    }
  }

  /** ... and a second run changes nothing. */
  lemma KeyedReconcileIsStable(managed: seq<Managed>, stored: seq<Stored>)
    requires AllKeyed(managed, stored)
    ensures var after := WriteAll(stored, Assign(managed, stored));
      Assign(managed, after) == Assign(managed, stored) && WriteAll(after, Assign(managed, after)) == after
  {
    var assignments := Assign(managed, stored);
    var after := WriteAll(stored, assignments);
    forall i | 0 <= i < |managed| ensures HasKey(after, managed[i].key.value) {
      WriteKeepsKeys(stored, assignments, managed[i].key.value);
    }
    KeyedAssignment(managed, stored);
    KeyedAssignment(managed, after);
    assert Assign(managed, after) == assignments;
    WritingTwice(stored, assignments);
  }

  lemma WritingTwice(stored: seq<Stored>, assignments: seq<Assignment>)
    ensures WriteAll(WriteAll(stored, assignments), assignments) == WriteAll(stored, assignments)
  {
  }

  // ---------------------------------------------------- what a stage picks

  /** The candidates of a stage all have key k, and one exists. */
  predicate OnlyKey(stored: seq<Stored>, stage: Stage, taken: set<string>, k: string) {
    && (exists s :: s in stored && Candidate(s, stage, taken))
    && (forall s :: s in stored && Candidate(s, stage, taken) ==> s.key == k)
  }

  lemma {:induction false} RemainingDistinct(stored: seq<Stored>, stage: Stage, taken: set<string>)
    requires DistinctStoredKeys(stored)
    ensures DistinctStoredKeys(Remaining(stored, stage, taken))
  {
    if stored != [] {
      RemainingDistinct(stored[1..], stage, taken);
      var rest := Remaining(stored[1..], stage, taken);
      forall j | 0 <= j < |rest| ensures rest[j].key != stored[0].key {
        assert rest[j] in rest;
        var l :| 0 <= l < |stored| - 1 && stored[1..][l] == rest[j];
        assert stored[l + 1] == rest[j];
      }
    }
  }

  /** With distinct keys, a stage picks k exactly when k is the only candidate. */
  lemma PickUniqueIff(stored: seq<Stored>, stage: Stage, taken: set<string>, k: string)
    requires DistinctStoredKeys(stored)
    ensures PickUnique(stored, stage, taken) == Some(k) <==> OnlyKey(stored, stage, taken, k)
  {
    var r := Remaining(stored, stage, taken);
    RemainingDistinct(stored, stage, taken);
    if |r| == 1 {
      assert r[0] in r;
      assert forall s :: s in r ==> s == r[0];
    }
    if |r| > 1 {
      assert r[0] in r && r[1] in r && r[0].key != r[1].key;
    }
    if OnlyKey(stored, stage, taken, k) {
      var s :| s in stored && Candidate(s, stage, taken);
      assert s in r;
    }
  }
}
