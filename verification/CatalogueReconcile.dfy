/** The ownership reconcile from the hub's catalogue to the store: the rename loop closed, and
    the reconcile after the next catalogue burst. */
module CatalogueReconcile {
  import opened Text
  import opened Slots
  import opened Records
  import opened Ownership
  import opened RenameLoop
  import opened Store
  import SecondReconcile
  import StoreByKey

  // ---------------------------------------------------------- the catalogue

  type Parser = string -> (Option<string>, Option<string>)

  const BrandParser: Parser := (brand: string) => ParseBrand(brand)

  /** The row's brand carries this key and this hash. */
  predicate Reads(row: (int, string), m: Managed, parse: Parser) {
    row.0 == m.id && parse(row.1) == (m.key, Some(m.hash)) && m.hash != ""
  }

  /** `ManagedOf`, whatever reads the brands. */
  function ManagedBy(rows: seq<(int, string)>, parse: Parser): seq<Managed> {
    if rows == [] then []
    else
      var (key, hash) := parse(rows[0].1);
      (if hash.Some? && hash.value != "" then [Managed(rows[0].0, key, hash.value)] else [])
          + ManagedBy(rows[1..], parse)
  }

  lemma {:induction false} ManagedIs(rows: seq<(int, string)>)
    ensures ManagedOf(rows) == ManagedBy(rows, BrandParser)
  {
    if rows != [] { ManagedIs(rows[1..]); }
  }

  /** Every managed device stems from a catalogue row ... */
  lemma {:induction false} ManagedHasRow(rows: seq<(int, string)>, parse: Parser, k: nat) returns (q: nat)
    requires k < |ManagedBy(rows, parse)|
    ensures q < |rows| && Reads(rows[q], ManagedBy(rows, parse)[k], parse)
  {
    var (key, hash) := parse(rows[0].1);
    var n := if hash.Some? && hash.value != "" then 1 else 0;
    if k < n {
      q := 0;
    } else {
      assert ManagedBy(rows, parse)[k] == ManagedBy(rows[1..], parse)[k - n];
      q := ManagedHasRow(rows[1..], parse, k - n);
      q := q + 1;
    }
  }

  lemma {:induction false} ManagedSplits(rows: seq<(int, string)>, parse: Parser, q: nat)
    requires q <= |rows|
    ensures ManagedBy(rows, parse) == ManagedBy(rows[..q], parse) + ManagedBy(rows[q..], parse)
  {
    if q == 0 {
      assert rows[..0] == [] && rows[0..] == rows;
    } else {
      ManagedSplits(rows[1..], parse, q - 1);
      assert rows[..q][1..] == rows[1..][..q - 1] && rows[q..] == rows[1..][q - 1..];
    }
  }

  /** Where row q stands among the managed devices, if it reads as one. */
  function Place(rows: seq<(int, string)>, q: nat, parse: Parser): nat
    requires q <= |rows|
  {
    |ManagedBy(rows[..q], parse)|
  }

  /** ... and a row that reads as one is listed, after those of the rows before it. */
  lemma RowIsManaged(rows: seq<(int, string)>, parse: Parser, q: nat, m: Managed)
    requires q < |rows| && Reads(rows[q], m, parse)
    ensures var managed, k := ManagedBy(rows, parse), Place(rows, q, parse);
      k < |managed| && managed[k] == m && managed[..k] == ManagedBy(rows[..q], parse)
  {
    ManagedSplits(rows, parse, q);
    assert ManagedBy(rows[q..], parse)[0] == m;
  }

  predicate DistinctRows(rows: seq<(int, string)>) {
    forall i, j :: 0 <= i < j < |rows| ==> rows[i].0 != rows[j].0
  }

  lemma {:induction false} ManagedIdsStemFromRows(rows: seq<(int, string)>, parse: Parser)
    requires DistinctRows(rows)
    ensures DistinctIds(ManagedBy(rows, parse))
  {
    if rows != [] {
      ManagedIdsStemFromRows(rows[1..], parse);
      var rest := ManagedBy(rows[1..], parse);
      forall k | 0 <= k < |rest| ensures rest[k].id != rows[0].0 {
        var q := ManagedHasRow(rows[1..], parse, k);
        assert rows[q + 1] == rows[1..][q];
      }
    }
  }

  /** No earlier row of the catalogue could claim the record. */
  predicate NoRowClaims(rows: seq<(int, string)>, q: nat, s: Stored, parse: Parser)
    requires q <= |rows|
  {
    forall p :: 0 <= p < q ==>
      && var (key, hash) := parse(rows[p].1);
      && key != Some(s.key) && hash != Some(s.deployedHash) && hash != Some(s.commandsHash)
      && s.deviceId != Some(rows[p].0)
  }

  lemma UnclaimedIsAlone(rows: seq<(int, string)>, parse: Parser, q: nat, s: Stored)
    requires q <= |rows| && NoRowClaims(rows, q, s, parse)
    ensures var managed, k := ManagedBy(rows, parse), Place(rows, q, parse);
      k <= |managed| && Alone(managed, k, s)
  {
    var front := ManagedBy(rows[..q], parse);
    ManagedSplits(rows, parse, q);
    forall j | 0 <= j < |front|
      ensures front[j].key != Some(s.key) && front[j].hash != s.deployedHash && front[j].hash != s.commandsHash
           && s.deviceId != Some(front[j].id)
    {
      var p := ManagedHasRow(rows[..q], parse, j);
    }
  }

  // --------------------------------------------------------------- the loop

  /** The store once a rename is applied, under the port its hash was stamped with. */
  function Renamed(digest: Digest, rs: seq<DeviceRecord>, i: nat, oldName: string, rawName: string, brand: string,
      entity: int, port: int): (r: seq<DeviceRecord>)
    requires i < |rs|
    ensures |r| == |rs|
  {
    var pending := Prepare(digest, rs, oldName, rawName, brand, entity, port).0;
    if pending.Some? then rs[i := ApplyRename(rs[i], pending.value)] else rs
  }

  /** The reconcile over a catalogue, with the hashes computed under its own port. */
  function Reconciled(digest: Digest, rs: seq<DeviceRecord>, rows: seq<(int, string)>,
      port: int): (r: seq<DeviceRecord>)
    ensures |r| == |rs|
  {
    WriteRecords(rs, Assign(ManagedOf(rows), Views(digest, rs, port)))
  }

  lemma ViewsHaveKeys(digest: Digest, rs: seq<DeviceRecord>, port: int)
    requires Distinct(KeysOf(rs))
    ensures DistinctStoredKeys(Views(digest, rs, port))
  {
    forall a, b | 0 <= a < b < |rs| ensures Views(digest, rs, port)[a].key != Views(digest, rs, port)[b].key {
      assert KeysOf(rs)[a] != KeysOf(rs)[b];
    }
  }

  /** The reconcile gives record i to the device of a row before the q-th. */
  predicate TakenByEarlierRow(digest: Digest, rs: seq<DeviceRecord>, i: nat, rows: seq<(int, string)>, q: nat,
      port: int)
    requires i < |rs| && q <= |rows|
  {
    var managed, k := ManagedBy(rows, BrandParser), Place(rows, q, BrandParser);
    k <= |managed| && TakenBefore(managed, Views(digest, rs, port), k, rs[i].key)
  }

  lemma ViewsHaveKey(digest: Digest, rs: seq<DeviceRecord>, i: nat, port: int)
    requires i < |rs|
    ensures HasKey(Views(digest, rs, port), rs[i].key)
  {
    assert Views(digest, rs, port)[i].key == rs[i].key;
  }

  /** What the reconcile writes into a record shows whether it went to this device. */
  lemma WrittenIff(r: DeviceRecord, assignments: seq<Assignment>, mine: Assignment)
    requires r.key == mine.key && Strip(r.hash) == r.hash == mine.hash
    requires Lookup(assignments, r.key).Some? && Lookup(assignments, r.key).value.id == mine.id
      ==> Lookup(assignments, r.key) == Some(mine)
    ensures WriteRecord(r, assignments) == r.(deviceId := Some(mine.id)) <==> Lookup(assignments, r.key) == Some(mine)
  {
  }

  /** A record that a catalogue row names, by a brand with the record's hash, comes out of the
      reconcile with that row's device id and otherwise as it was, exactly when no earlier row's
      device took it. */
  lemma NamedRecordIsKept(digest: Digest, rs: seq<DeviceRecord>, i: nat, rows: seq<(int, string)>, q: nat, port: int)
    requires i < |rs| && rs[i].key != "" && Strip(rs[i].hash) == rs[i].hash != ""
    requires q < |rows| && DistinctRows(rows) && ParseBrand(rows[q].1) == (Some(rs[i].key), Some(rs[i].hash))
    ensures Reconciled(digest, rs, rows, port)[i] == rs[i].(deviceId := Some(rows[q].0))
       <==> !TakenByEarlierRow(digest, rs, i, rows, q, port)
  {
    var managed, views, k := ManagedOf(rows), Views(digest, rs, port), Place(rows, q, BrandParser);
    var m := Managed(rows[q].0, Some(rs[i].key), rs[i].hash);
    ManagedIs(rows);
    RowIsManaged(rows, BrandParser, q, m);
    ManagedIdsStemFromRows(rows, BrandParser);
    ViewsHaveKey(digest, rs, i, port);
    ReconcileFindsRenamed(managed, k, views, rs[i].key);
    LookupIsOwner(managed, views, k, rs[i].key);
    WrittenIff(rs[i], Assign(managed, views), Taking(m, rs[i].key));
  }

  /** No earlier row takes a record that none of them could claim ... */
  lemma UnclaimedIsNotTaken(digest: Digest, rs: seq<DeviceRecord>, i: nat, rows: seq<(int, string)>, q: nat, port: int)
    requires i < |rs| && Distinct(KeysOf(rs)) && q < |rows| && ParseBrand(rows[q].1).1 !in {None, Some("")}
    requires NoRowClaims(rows, q, StoredView(digest, rs[i], port), BrandParser)
    ensures !TakenByEarlierRow(digest, rs, i, rows, q, port)
  {
    var managed, views, k := ManagedBy(rows, BrandParser), Views(digest, rs, port), Place(rows, q, BrandParser);
    var (key, hash) := ParseBrand(rows[q].1);
    RowIsManaged(rows, BrandParser, q, Managed(rows[q].0, key, hash.value));
    UnclaimedIsAlone(rows, BrandParser, q, views[i]);
    ViewsHaveKeys(digest, rs, port);
    UnclaimedIsFree(managed, k, views, i);
  }

  /** ... and an earlier row whose brand names the record takes it from the later one. */
  lemma EarlierNameTakes(digest: Digest, rs: seq<DeviceRecord>, i: nat, rows: seq<(int, string)>, p: nat, q: nat,
      port: int)
    requires i < |rs| && rs[i].key != "" && p < q <= |rows|
    requires ParseBrand(rows[p].1).0 == Some(rs[i].key) && ParseBrand(rows[p].1).1 !in {None, Some("")}
    ensures TakenByEarlierRow(digest, rs, i, rows, q, port)
  {
    var m := Managed(rows[p].0, Some(rs[i].key), ParseBrand(rows[p].1).1.value);
    ManagedSplits(rows, BrandParser, q);
    RowIsManaged(rows, BrandParser, p, m);
    RowIsManaged(rows[..q], BrandParser, p, m);
    assert rows[..q][..p] == rows[..p];
    ViewsHaveKey(digest, rs, i, port);
    NamedEarlierIsTaken(ManagedBy(rows, BrandParser), Place(rows, p, BrandParser), Place(rows, q, BrandParser),
      Views(digest, rs, port), rs[i].key);
  }

  /** A record the rename put in sync, with what the reconcile made of it. */
  lemma KeptReadsInSync(digest: Digest, before: DeviceRecord, after: DeviceRecord, final: DeviceRecord, entity: int,
      port: int)
    requires after.deviceId == before.deviceId && InSync(digest, after, port)
    requires final == after.(deviceId := Some(entity))
    ensures (final == after <==> before.deviceId == Some(entity)) && InSync(digest, final, port)
  {
  }

  /** The reconcile never renames a record. */
  lemma ReconcileKeepsName(digest: Digest, rs: seq<DeviceRecord>, i: nat, rows: seq<(int, string)>, port: int)
    requires i < |rs|
    ensures Reconciled(digest, rs, rows, port)[i].name == rs[i].name
  {
  }

  /** The renamed record in the renamed store. */
  lemma RenamedRecord(digest: Digest, rs: seq<DeviceRecord>, i: nat, oldName: string, rawName: string, brand: string,
      entity: int, port: int)
    requires Distinct(KeysOf(rs)) && Belongs(rs, i, ParseBrand(brand).0, entity)
    requires WellFormed(rs[i]) && InSync(digest, rs[i], port)
    requires Strip(rawName) != "" && Strip(rawName) != Strip(oldName)
    ensures var after := Renamed(digest, rs, i, oldName, rawName, brand, entity, port);
      var stamped := Prepare(digest, rs, oldName, rawName, brand, entity, port).1;
      && after[i].name == Strip(rawName) && after[i].deviceId == rs[i].deviceId && WellFormed(after[i])
      && InSync(digest, after[i], port) && ParseBrand(stamped) == (Some(after[i].key), Some(after[i].hash))
  {
    RenameKeepsSync(digest, rs, i, oldName, rawName, brand, entity, port);
  }

  /** After the rename of a record that read in sync, a reconcile that sees the stamped brand
      keeps the name and, unless an earlier row's device takes the record, leaves it as the
      rename made it but for the device id, which becomes that of the renamed device: nothing
      changes exactly when the record pointed there already.  The record then still reads in
      sync.  `reconcilePort` need not be the port of the rename. */
  lemma RenameSurvivesReconcile(digest: Digest, rs: seq<DeviceRecord>, i: nat, oldName: string, rawName: string,
      brand: string, entity: int, port: int, rows: seq<(int, string)>, q: nat, reconcilePort: int)
    requires Distinct(KeysOf(rs)) && Belongs(rs, i, ParseBrand(brand).0, entity)
    requires WellFormed(rs[i]) && InSync(digest, rs[i], port)
    requires Strip(rawName) != "" && Strip(rawName) != Strip(oldName)
    requires q < |rows| && DistinctRows(rows)
    requires rows[q] == (entity, Prepare(digest, rs, oldName, rawName, brand, entity, port).1)
    ensures var after := Renamed(digest, rs, i, oldName, rawName, brand, entity, port);
      var final := Reconciled(digest, after, rows, reconcilePort);
      var taken := TakenByEarlierRow(digest, after, i, rows, q, reconcilePort);
      && after[i].name == final[i].name == Strip(rawName)
      && (final[i] == after[i].(deviceId := Some(entity)) <==> !taken)
      && (!taken ==> (final[i] == after[i] <==> rs[i].deviceId == Some(entity)) && InSync(digest, final[i], port))
  {
    RenamedRecord(digest, rs, i, oldName, rawName, brand, entity, port);
    var after := Renamed(digest, rs, i, oldName, rawName, brand, entity, port);
    var final := Reconciled(digest, after, rows, reconcilePort);
    ReconcileKeepsName(digest, after, i, rows, reconcilePort);
    NamedRecordIsKept(digest, after, i, rows, q, reconcilePort);
    if final[i] == after[i].(deviceId := Some(entity)) {
      KeptReadsInSync(digest, rs[i], after[i], final[i], entity, port);
    }
  }

  /** The store's rename of the record the device belongs to makes exactly that list. */
  lemma RenamedIsStep(u: Setup, digest: Digest, rs: seq<DeviceRecord>, i: nat, oldName: string, rawName: string,
      brand: string, entity: int, port: int)
    requires Distinct(KeysOf(rs)) && Belongs(rs, i, ParseBrand(brand).0, entity) && IsKey(rs[i].key)
    ensures var pending := Prepare(digest, rs, oldName, rawName, brand, entity, port).0;
      pending.Some? ==>
        StoreStep(u, rs, RenameDevice(pending.value.key, pending.value.name, pending.value.hash))
        == Renamed(digest, rs, i, oldName, rawName, brand, entity, port)
  {
    var pending := Prepare(digest, rs, oldName, rawName, brand, entity, port).0;
    if pending.Some? {
      RecordForIff(rs, ParseBrand(brand).0, entity, i);
      KeysAreFixed(rs[i].key);
      StoreByKey.RenameIsApplied(u, rs, pending.value, i);
    }
  }

  /** A deployed record from before device ids were kept: in sync, but pointing nowhere. */
  function Unidentified(digest: Digest, base: DeviceRecord, port: int): DeviceRecord {
    base.(hash := PayloadHash(digest, base, port), deviceId := None)
  }

  lemma UnidentifiedReadsInSync(digest: Digest, base: DeviceRecord, port: int)
    requires WellFormed(base)
    ensures WellFormed(Unidentified(digest, base, port)) && InSync(digest, Unidentified(digest, base, port), port)
  {
  }

  /** Renaming such a record is followed by a reconcile that rewrites it. */
  lemma RenamedRecordIsRewritten(digest: Digest, port: int)
    ensures var rs := [Unidentified(digest, DefaultRecord("a1", "TV", None), port)];
      var brand := PrintBrand(rs[0].key, rs[0].hash);
      var after := Renamed(digest, rs, 0, "TV", "Telly", brand, 7, port);
      var stamped := Prepare(digest, rs, "TV", "Telly", brand, 7, port).1;
      Reconciled(digest, after, [(7, stamped)], port)[0] != after[0]
  {
    var base := DefaultRecord("a1", "TV", None);
    DefaultRecordWellFormed("a1", "TV", None);
    UnidentifiedReadsInSync(digest, base, port);
    StripTrimmed("TV");
    StripTrimmed("Telly");
    LoneRecordIsRewritten(digest, Unidentified(digest, base, port), "TV", "Telly", 7, port);
  }

  lemma LoneRecordIsRewritten(digest: Digest, r: DeviceRecord, oldName: string, rawName: string, entity: int, port: int)
    requires WellFormed(r) && InSync(digest, r, port) && r.deviceId != Some(entity)
    requires Strip(rawName) != "" && Strip(rawName) != Strip(oldName)
    ensures var brand := PrintBrand(r.key, r.hash);
      var after := Renamed(digest, [r], 0, oldName, rawName, brand, entity, port);
      var stamped := Prepare(digest, [r], oldName, rawName, brand, entity, port).1;
      Reconciled(digest, after, [(entity, stamped)], port)[0] != after[0]
  {
    var brand := PrintBrand(r.key, r.hash);
    BrandRoundTrip(r.key, r.hash);
    var rows := [(entity, Prepare(digest, [r], oldName, rawName, brand, entity, port).1)];
    RenameSurvivesReconcile(digest, [r], 0, oldName, rawName, brand, entity, port, rows, 0, port);
    assert rows[..0] == [];
  }

  // ------------------------------------------------------------ once more

  /** What one write leaves of a record another write leaves alone, if it leaves alone what the
      matching sees of it. */
  lemma ViewDecides(digest: Digest, r: DeviceRecord, first: seq<Assignment>, second: seq<Assignment>, port: int)
    ensures var after := WriteRecord(r, first);
      var view := StoredView(digest, after, port);
      WriteRecord(after, second) == after <==> WriteStored(view, second) == view
  {
    StripTrimmed("");
  }

  lemma ViewsDecide(digest: Digest, rs: seq<DeviceRecord>, first: seq<Assignment>, second: seq<Assignment>, port: int)
    ensures var after := WriteRecords(rs, first);
      var views := Views(digest, after, port);
      WriteRecords(after, second) == after <==> WriteAll(views, second) == views
  {
    var after := WriteRecords(rs, first);
    var views := Views(digest, after, port);
    forall i | 0 <= i < |rs|
      ensures WriteRecords(after, second)[i] == after[i] <==> WriteAll(views, second)[i] == views[i]
    {
      ViewDecides(digest, rs[i], first, second, port);
    }
  }

  lemma {:induction false} ManagedHaveHashes(rows: seq<(int, string)>, parse: Parser)
    ensures forall k :: 0 <= k < |ManagedBy(rows, parse)| ==> ManagedBy(rows, parse)[k].hash != ""
  {
    if rows != [] { ManagedHaveHashes(rows[1..], parse); }
  }

  lemma NoBlankView(digest: Digest, rs: seq<DeviceRecord>, port: int)
    requires "" !in KeysOf(rs)
    ensures !HasKey(Views(digest, rs, port), "")
  {
    assert forall i :: 0 <= i < |rs| ==> KeysOf(rs)[i] == rs[i].key;
  }

  lemma StableForManaged(digest: Digest, rs: seq<DeviceRecord>, managed: seq<Managed>, views: seq<Stored>, port: int)
    requires views == Views(digest, rs, port) && SecondReconcile.Readable(managed, views)
    ensures var after := WriteRecords(rs, Assign(managed, views));
      WriteRecords(after, Assign(managed, Views(digest, after, port))) == after
      <==> SecondReconcile.AllSettle(managed, views, SecondReconcile.Owners(managed, views))
  {
    var first := Assign(managed, views);
    var after := WriteRecords(rs, first);
    ReconcileWritesViews(digest, rs, first, port);
    ViewsDecide(digest, rs, first, Assign(managed, Views(digest, after, port)), port);
    SecondReconcile.SecondRunIsStableIff(managed, views);
  }

  /** Reconciling the store again on the same catalogue changes nothing if and only if every
      managed device settles on the owner it got. */
  lemma ReconcileIsStableIff(digest: Digest, rs: seq<DeviceRecord>, rows: seq<(int, string)>, port: int)
    requires Distinct(KeysOf(rs)) && "" !in KeysOf(rs) && DistinctRows(rows)
    ensures var managed, views := ManagedOf(rows), Views(digest, rs, port);
      var after := Reconciled(digest, rs, rows, port);
      Reconciled(digest, after, rows, port) == after
      <==> SecondReconcile.AllSettle(managed, views, SecondReconcile.Owners(managed, views))
  {
    ManagedIs(rows);
    ManagedHaveHashes(rows, BrandParser);
    ManagedIdsStemFromRows(rows, BrandParser);
    ViewsHaveKeys(digest, rs, port);
    NoBlankView(digest, rs, port);
    StableForManaged(digest, rs, ManagedOf(rows), Views(digest, rs, port), port);
  }
}
