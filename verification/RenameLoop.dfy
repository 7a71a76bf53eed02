/** Renaming a deployed managed device in the live editor, through the whole loop: the
    hash stamped into the brand, the store update and the next ownership reconcile. */
module RenameLoop {
  import opened Text
  import opened Slots
  import opened Records
  import opened Ownership
  import SecondReconcile

  datatype PendingRename = PendingRename(key: string, name: string, hash: Option<string>)

  /** The record a rename belongs to: by brand key, else the only one deployed to the device. */
  function RecordFor(rs: seq<DeviceRecord>, key: Option<string>, entity: int): (r: Option<nat>)
    ensures r.Some? ==> r.value < |rs|
  {
    var byKey := if key.Some? && key.value != "" then FindKey(rs, key.value, 0) else None;
    if byKey.Some? then byKey else OnlyDeployedTo(rs, entity, 0, None)
  }

  function FindKey(rs: seq<DeviceRecord>, key: string, from: nat): (r: Option<nat>)
    requires from <= |rs|
    ensures r.Some? ==> from <= r.value < |rs| && rs[r.value].key == key
    ensures r.None? ==> forall i :: from <= i < |rs| ==> rs[i].key != key
    decreases |rs| - from
  {
    if from == |rs| then None else if rs[from].key == key then Some(from) else FindKey(rs, key, from + 1)
  }

  function OnlyDeployedTo(rs: seq<DeviceRecord>, entity: int, from: nat, found: Option<nat>): (r: Option<nat>)
    requires from <= |rs| && (found.Some? ==> found.value < |rs|)
    ensures r.Some? ==> r.value < |rs|
    decreases |rs| - from
  {
    if from == |rs| then found
    else if rs[from].deviceId == Some(entity)
    then if found.Some? then None else OnlyDeployedTo(rs, entity, from + 1, Some(from))
    else OnlyDeployedTo(rs, entity, from + 1, found)
  }

  /** `_async_prepare_managed_wifi_rename`: the pending store update and the brand the edited
      bundle will carry.  `port` is the hub's resolved listener port. */
  function Prepare(digest: Digest, rs: seq<DeviceRecord>, oldName: string, rawName: string, brand: string,
      entity: int, port: int)
    : (r: (Option<PendingRename>, string))
  {
    var name := Strip(rawName);
    if name == "" || name == Strip(oldName) then (None, brand)
    else
      match RecordFor(rs, ParseBrand(brand).0, entity)
      case None => (None, brand)
      case Some(i) =>
        var rec := rs[i];
        var live := PayloadHash(digest, rec, port);
        if Strip(rec.hash) != "" && Strip(rec.hash) == live then
          var hash := CommandsHash(digest, rec.commands, name, port, rec.powerOn, rec.powerOff, rec.slotCount);
          (Some(PendingRename(rec.key, name, Some(hash))), PrintBrand(rec.key, hash))
        else (Some(PendingRename(rec.key, name, None)), brand)
  }

  /** `async_rename_hub_device` on the record it names. */
  function ApplyRename(r: DeviceRecord, p: PendingRename): DeviceRecord {
    var name := Strip(p.name);
    if name == "" then r
    else r.(name := name, hash := if p.hash.Some? then Strip(p.hash.value) else r.hash)
  }

  function StoredView(digest: Digest, r: DeviceRecord, port: int): Stored {
    Stored(r.key, PayloadHash(digest, r, port), r.hash, r.deviceId)
  }

  lemma RenamedIsWellFormed(r: DeviceRecord, name: string, hash: string)
    requires WellFormed(r) && name != "" && Strip(name) == name && Strip(hash) == hash
    ensures WellFormed(r.(name := name, hash := hash))
  {
  }

  /** The hash stamped into the brand is the hash the store computes after the rename. */
  lemma StampedHashIsRecomputed(digest: Digest, r: DeviceRecord, name: string, port: int)
    requires WellFormed(r) && name != "" && Strip(name) == name
    ensures var hash := CommandsHash(digest, r.commands, name, port, r.powerOn, r.powerOff, r.slotCount);
      var after := r.(name := name, hash := hash);
      WellFormed(after) && PayloadHash(digest, after, port) == hash
  {
    var hash := CommandsHash(digest, r.commands, name, port, r.powerOn, r.powerOff, r.slotCount);
    RenamedIsWellFormed(r, name, hash);
    PayloadHashOf(digest, r.(name := name, hash := hash), port);
  }

  /** The hash a rename stamps. */
  function StampedHash(digest: Digest, r: DeviceRecord, name: string, port: int): (h: string)
    ensures h != "" && Strip(h) == h
  {
    CommandsHash(digest, r.commands, name, port, r.powerOn, r.powerOff, r.slotCount)
  }

  // ------------------------------------------------ whose rename it is

  predicate KeyNames(key: Option<string>, r: DeviceRecord) {
    key.Some? && key.value != "" && key.value == r.key
  }

  predicate AloneDeployedTo(rs: seq<DeviceRecord>, i: nat, entity: int)
    requires i < |rs|
  {
    rs[i].deviceId == Some(entity) && forall j :: 0 <= j < |rs| && j != i ==> rs[j].deviceId != Some(entity)
  }

  /** Record i is the renamed device's: the brand's key names it, or the key names no record and
      it alone is deployed to the device. */
  predicate Belongs(rs: seq<DeviceRecord>, i: nat, key: Option<string>, entity: int) {
    && i < |rs|
    && (KeyNames(key, rs[i])
        || ((forall j :: 0 <= j < |rs| ==> !KeyNames(key, rs[j])) && AloneDeployedTo(rs, i, entity)))
  }

  /** The scan sees at most one record deployed to the device. */
  lemma {:induction false} OnlyDeployedIff(rs: seq<DeviceRecord>, entity: int, from: nat, found: Option<nat>, i: nat)
    requires from <= |rs|
    requires found.Some? ==> found.value < from && rs[found.value].deviceId == Some(entity)
    requires forall j :: 0 <= j < from && rs[j].deviceId == Some(entity) ==> found == Some(j)
    ensures OnlyDeployedTo(rs, entity, from, found) == Some(i) <==> i < |rs| && AloneDeployedTo(rs, i, entity)
    decreases |rs| - from
  {
    if from < |rs| {
      if rs[from].deviceId != Some(entity) {
        OnlyDeployedIff(rs, entity, from + 1, found, i);
      } else if found.None? {
        OnlyDeployedIff(rs, entity, from + 1, Some(from), i);
      }
    }
  }

  /** With distinct keys the record found is the one the device belongs to. */
  lemma RecordForIff(rs: seq<DeviceRecord>, key: Option<string>, entity: int, i: nat)
    requires Distinct(KeysOf(rs))
    ensures RecordFor(rs, key, entity) == Some(i) <==> Belongs(rs, i, key, entity)
  {
    OnlyDeployedIff(rs, entity, 0, None, i);
    if key.Some? && key.value != "" {
      var at := FindKey(rs, key.value, 0);
      if at.Some? && i < |rs| && i != at.value { assert KeysOf(rs)[i] != KeysOf(rs)[at.value]; }
    }
  }

  /** A name that is blank or not new, or a device no record belongs to: nothing is renamed. */
  lemma NothingToRename(digest: Digest, rs: seq<DeviceRecord>, oldName: string, rawName: string, brand: string,
      entity: int, port: int)
    requires Distinct(KeysOf(rs))
    requires Strip(rawName) == "" || Strip(rawName) == Strip(oldName)
      || forall i: nat :: !Belongs(rs, i, ParseBrand(brand).0, entity)
    ensures Prepare(digest, rs, oldName, rawName, brand, entity, port) == (None, brand)
  {
    var at := RecordFor(rs, ParseBrand(brand).0, entity);
    if at.Some? { RecordForIff(rs, ParseBrand(brand).0, entity, at.value); }
  }

  /** A record out of sync takes the name and keeps hash and brand, so it stays out of sync. */
  lemma OutOfSyncKeepsBrand(digest: Digest, rs: seq<DeviceRecord>, i: nat, oldName: string, rawName: string,
      brand: string, entity: int, port: int)
    requires Distinct(KeysOf(rs)) && Belongs(rs, i, ParseBrand(brand).0, entity) && !InSync(digest, rs[i], port)
    requires Strip(rawName) != "" && Strip(rawName) != Strip(oldName)
    ensures var (pending, after) := Prepare(digest, rs, oldName, rawName, brand, entity, port);
      && after == brand && pending.Some? && pending.value.key == rs[i].key
      && ApplyRename(rs[i], pending.value) == rs[i].(name := Strip(rawName))
  {
    RecordForIff(rs, ParseBrand(brand).0, entity, i);
    StripIdempotent(rawName);
  }

  lemma PrepareStamps(digest: Digest, rs: seq<DeviceRecord>, i: nat, oldName: string, rawName: string,
      brand: string, entity: int, port: int)
    requires Distinct(KeysOf(rs)) && Belongs(rs, i, ParseBrand(brand).0, entity) && InSync(digest, rs[i], port)
    requires Strip(rawName) != "" && Strip(rawName) != Strip(oldName)
    ensures var hash := StampedHash(digest, rs[i], Strip(rawName), port);
      Prepare(digest, rs, oldName, rawName, brand, entity, port)
      == (Some(PendingRename(rs[i].key, Strip(rawName), Some(hash))), PrintBrand(rs[i].key, hash))
  {
    RecordForIff(rs, ParseBrand(brand).0, entity, i);
  }

  /** An in-sync record renamed through the editor: the brand printed reads back as its key
      and the stamped hash, and the record reads in sync under its new name. */
  lemma RenameKeepsSync(digest: Digest, rs: seq<DeviceRecord>, i: nat, oldName: string, rawName: string,
      brand: string, entity: int, port: int)
    requires Distinct(KeysOf(rs)) && Belongs(rs, i, ParseBrand(brand).0, entity)
    requires WellFormed(rs[i]) && InSync(digest, rs[i], port)
    requires Strip(rawName) != "" && Strip(rawName) != Strip(oldName)
    ensures var (pending, stamped) := Prepare(digest, rs, oldName, rawName, brand, entity, port);
      && pending.Some? && pending.value.key == rs[i].key && pending.value.hash.Some?
      && var after := ApplyRename(rs[i], pending.value);
         && after == rs[i].(name := Strip(rawName), hash := after.hash) && WellFormed(after)
         && InSync(digest, after, port)
         && ParseBrand(stamped) == (Some(rs[i].key), Some(after.hash))
         && after.hash == PayloadHash(digest, after, port)
  {
    var r := rs[i];
    var name := Strip(rawName);
    StripIdempotent(rawName);
    PrepareStamps(digest, rs, i, oldName, rawName, brand, entity, port);
    var hash := StampedHash(digest, r, name, port);
    StampedHashIsRecomputed(digest, r, name, port);
    BrandRoundTrip(r.key, hash);
  }

  // --------------------------------------------- the reconcile afterwards

  /** Device i, under the record with this key. */
  function Taking(m: Managed, key: string): Assignment { Assignment(key, m.id, m.hash) }

  /** The matching gives the record to a device before the i-th. */
  predicate TakenBefore(managed: seq<Managed>, stored: seq<Stored>, i: nat, key: string)
    requires i <= |managed|
  {
    Some(key) in SecondReconcile.Owners(managed, stored)[..i]
  }

  /** A device whose brand names a record that is still free takes it. */
  lemma NamedTakesFree(managed: seq<Managed>, stored: seq<Stored>, i: nat, key: string)
    requires i < |managed| && managed[i].key == Some(key) && key != "" && HasKey(stored, key)
    ensures !TakenBefore(managed, stored, i, key) ==> SecondReconcile.Owners(managed, stored)[i] == Some(key)
  {
    var owners := SecondReconcile.Owners(managed, stored);
    SecondReconcile.OwnersAreARun(managed, OwnerOf(stored, |managed|));
    var taken := SecondReconcile.KeysOf(owners[..i]);
    assert owners[i] == SecondReconcile.Named(Owner(managed[i], stored, taken, |managed|));
  }

  /** A record is looked up with the device it was given to. */
  lemma LookupIsOwner(managed: seq<Managed>, stored: seq<Stored>, i: nat, key: string)
    requires i < |managed| && DistinctIds(managed)
    ensures var found := Lookup(Assign(managed, stored), key);
      && (found == Some(Taking(managed[i], key)) <==> SecondReconcile.Owners(managed, stored)[i] == Some(key))
      && (found.Some? && found.value.id == managed[i].id ==> found == Some(Taking(managed[i], key)))
  {
    var choose := OwnerOf(stored, |managed|);
    var owners := SecondReconcile.Owners(managed, stored);
    SecondReconcile.OwnersAreARun(managed, choose);
    OwnerIsFree(stored, |managed|);
    SecondReconcile.RunIsOneEach(owners, managed, choose, stored);
    SecondReconcile.AssignIs(managed, stored, owners);
    OwnerIsLooked(managed, owners, i, key);
  }

  lemma OwnerIsLooked(managed: seq<Managed>, owners: seq<Option<string>>, i: nat, key: string)
    requires i < |owners| == |managed| && DistinctIds(managed) && SecondReconcile.OneEach(owners)
    ensures var found := Lookup(SecondReconcile.AssignmentsOf(managed, owners, 0), key);
      && (found == Some(Taking(managed[i], key)) <==> owners[i] == Some(key))
      && (found.Some? && found.value.id == managed[i].id ==> found == Some(Taking(managed[i], key)))
  {
    var all, mine := SecondReconcile.AssignmentsOf(managed, owners, 0), Taking(managed[i], key);
    LookupFinds(all, key);
    SecondReconcile.InAssignments(managed, owners, 0, mine);
    if owners[i] == Some(key) { assert SecondReconcile.Gets(managed, owners, i, mine); }
    if Lookup(all, key).Some? {
      var found := Lookup(all, key).value;
      SecondReconcile.InAssignments(managed, owners, 0, found);
      var k :| 0 <= k < |managed| && SecondReconcile.Gets(managed, owners, k, found);
      assert k != i ==> managed[k].id != managed[i].id;
    }
  }

  /** The reconcile gives a record to the device whose brand names it unless an earlier device
      took it, whatever the record's commands hash under the reconcile's own port.  Later
      devices do not matter. */
  lemma ReconcileFindsRenamed(managed: seq<Managed>, i: nat, stored: seq<Stored>, key: string)
    requires i < |managed| && DistinctIds(managed) && HasKey(stored, key)
    requires managed[i].key == Some(key) && key != ""
    ensures Lookup(Assign(managed, stored), key) == Some(Taking(managed[i], key))
       <==> !TakenBefore(managed, stored, i, key)
  {
    var choose := OwnerOf(stored, |managed|);
    var owners := SecondReconcile.Owners(managed, stored);
    LookupIsOwner(managed, stored, i, key);
    NamedTakesFree(managed, stored, i, key);
    SecondReconcile.OwnersAreARun(managed, choose);
    OwnerIsFree(stored, |managed|);
    SecondReconcile.RunIsOneEach(owners, managed, choose, stored);
  }

  /** No earlier device can claim the record: none shares its key, one of its hashes or its id. */
  predicate Alone(managed: seq<Managed>, i: nat, s: Stored)
    requires i <= |managed|
  {
    forall j :: 0 <= j < i ==>
      && managed[j].key != Some(s.key) && managed[j].hash != s.deployedHash && managed[j].hash != s.commandsHash
      && s.deviceId != Some(managed[j].id)
  }

  lemma OthersPassBy(managed: seq<Managed>, p: nat, stored: seq<Stored>, taken: set<string>, i: nat, j: nat)
    requires p < i < |managed| && j < |stored|
    requires Alone(managed, i, stored[j]) && DistinctStoredKeys(stored)
    ensures Owner(managed[p], stored, taken, |managed|) != Some(stored[j].key)
  {
    var m := managed[p];
    var owner := Owner(m, stored, taken, |managed|);
    if owner == Some(stored[j].key) {
      forall s | s in stored && s.key == stored[j].key ensures s == stored[j] {
        var k :| 0 <= k < |stored| && stored[k] == s;
      }
    }
  }

  /** A record no earlier device can claim is not taken ... */
  lemma UnclaimedIsFree(managed: seq<Managed>, i: nat, stored: seq<Stored>, j: nat)
    requires i < |managed| && j < |stored| && DistinctStoredKeys(stored) && Alone(managed, i, stored[j])
    ensures !TakenBefore(managed, stored, i, stored[j].key)
  {
    var choose := OwnerOf(stored, |managed|);
    var owners := SecondReconcile.Owners(managed, stored);
    SecondReconcile.OwnersAreARun(managed, choose);
    forall p | 0 <= p < i ensures owners[..i][p] != Some(stored[j].key) {
      var taken := SecondReconcile.KeysOf(owners[..p]);
      assert owners[p] == SecondReconcile.Named(Owner(managed[p], stored, taken, |managed|));
      OthersPassBy(managed, p, stored, taken, i, j);
    }
  }

  /** ... and one an earlier device's brand names is. */
  lemma NamedEarlierIsTaken(managed: seq<Managed>, p: nat, i: nat, stored: seq<Stored>, key: string)
    requires p < i <= |managed| && managed[p].key == Some(key) && key != "" && HasKey(stored, key)
    ensures TakenBefore(managed, stored, i, key)
  {
    var owners := SecondReconcile.Owners(managed, stored);
    NamedTakesFree(managed, stored, p, key);
    assert owners[..i][..p] == owners[..p] && owners[..i][p] == owners[p];
  }
}
