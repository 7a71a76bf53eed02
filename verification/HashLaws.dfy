/** What the commands hash cannot see: it covers the rows of a table sorted by their content,
    so it says which commands there are but not always in which slot. */
module HashLaws {
  import opened Text
  import opened Slots
  import opened Records
  import Callbacks
  import Sorting

  /** The row a stored slot contributes: whatever its place, it is read back with its name. */
  function StoredRow(s: Slot): HashRow { RowOf(NormalizeSlot(AsRaw(s), 0, false)) }

  function StoredRows(slots: seq<Slot>): (r: seq<HashRow>)
    ensures |r| == |slots|
    ensures forall i :: 0 <= i < |slots| ==> r[i] == StoredRow(slots[i])
  {
    seq(|slots|, i requires 0 <= i < |slots| => StoredRow(slots[i]))
  }

  lemma RowsAreStored(slots: seq<Slot>)
    ensures RowsOf(Renormalize(slots, |slots|, false)) == StoredRows(slots)
  {
    var read := Renormalize(slots, |slots|, false);
    forall i | 0 <= i < |slots| ensures RowOf(read[i]) == StoredRow(slots[i]) {
      assert read[i] == NormalizeSlot(AsRaw(slots[i]), i, false) == NormalizeSlot(AsRaw(slots[i]), 0, false);
    }
  }

  function Sorted(slots: seq<Slot>): seq<HashRow> {
    Sorting.SortBy(StoredRows(slots), RowKey, Sorting.ByTuple)
  }

  lemma HashedAreSorted(slots: seq<Slot>)
    ensures HashedRows(Renormalize(slots, |slots|, false)) == Sorted(slots)
  {
    RowsAreStored(slots);
  }

  /** What else the hash covers. */
  datatype Rest = Rest(deviceName: string, port: int, powerOn: Option<int>, powerOff: Option<int>)

  function TableHash(digest: Digest, slots: seq<Slot>, rest: Rest): string {
    CommandsHash(digest, slots, rest.deviceName, rest.port, rest.powerOn, rest.powerOff, |slots|)
  }

  function InputOf(rows: seq<HashRow>, rest: Rest): HashInput {
    HashInput(rows, Strip(OrDefaultName(rest.deviceName)), rest.port, NormalizePowerId(rest.powerOn),
              NormalizePowerId(rest.powerOff))
  }

  lemma TableHashIs(digest: Digest, slots: seq<Slot>, rest: Rest)
    ensures TableHash(digest, slots, rest) == digest(InputOf(Sorted(slots), rest))
  {
    HashedAreSorted(slots);
  }

  /** A digest that tells one input from all others. */
  function Telling(input: HashInput): Digest {
    var f: HashInput -> string := (x: HashInput) => if x == input then "000000000000000" else "111111111111111";
    assert forall x :: IsHexDigest(f(x));
    f
  }

  ghost predicate HashAlike(a: seq<Slot>, b: seq<Slot>, rest: Rest) {
    forall digest: Digest :: TableHash(digest, a, rest) == TableHash(digest, b, rest)
  }

  lemma TellingTells(input: HashInput, other: HashInput)
    requires Telling(input)(input) == Telling(input)(other)
    ensures input == other
  {
    assert Telling(input)(input)[0] == '0';
  }

  lemma HashAlikeIsSortedAlike(a: seq<Slot>, b: seq<Slot>, rest: Rest)
    requires HashAlike(a, b, rest)
    ensures Sorted(a) == Sorted(b)
  {
    var telling := Telling(InputOf(Sorted(a), rest));
    TableHashIs(telling, a, rest);
    TableHashIs(telling, b, rest);
    assert TableHash(telling, a, rest) == TableHash(telling, b, rest);
    TellingTells(InputOf(Sorted(a), rest), InputOf(Sorted(b), rest));
  }

  lemma SortedAlikeHashesAlike(a: seq<Slot>, b: seq<Slot>, rest: Rest)
    requires Sorted(a) == Sorted(b)
    ensures HashAlike(a, b, rest)
  {
    forall digest: Digest ensures TableHash(digest, a, rest) == TableHash(digest, b, rest) {
      TableHashIs(digest, a, rest);
      TableHashIs(digest, b, rest);
    }
  }

  lemma SortedAlikeIff(a: seq<Slot>, b: seq<Slot>)
    ensures Sorted(a) == Sorted(b) <==> Sorting.SameByKey(StoredRows(a), StoredRows(b), RowKey)
  {
    Sorting.TuplesAreOrdered();
    Sorting.SortAlikeIff(StoredRows(a), StoredRows(b), RowKey, Sorting.ByTuple);
  }

  /** Two tables hash alike under every digest if and only if they have the same rows in the
      same order among rows of one sort key, wherever their slots are. */
  lemma HashAlikeIff(a: seq<Slot>, b: seq<Slot>, rest: Rest)
    ensures HashAlike(a, b, rest) <==> Sorting.SameByKey(StoredRows(a), StoredRows(b), RowKey)
  {
    SortedAlikeIff(a, b);
    if HashAlike(a, b, rest) {
      HashAlikeIsSortedAlike(a, b, rest);
    } else if Sorted(a) == Sorted(b) {
      SortedAlikeHashesAlike(a, b, rest);
    }
  }

  // ---------------------------------------------------------- swapped slots

  function Swapped<T>(xs: seq<T>, i: nat): (r: seq<T>)
    requires i + 1 < |xs|
    ensures |r| == |xs|
  {
    xs[i := xs[i + 1]][i + 1 := xs[i]]
  }

  lemma WithKeyPair<T, K>(x: T, y: T, key: T -> K, k: K)
    requires key(x) != key(y)
    ensures Sorting.WithKey([x, y], key, k) == Sorting.WithKey([y, x], key, k)
  {
    assert [x, y] == [x] + [y] && [y, x] == [y] + [x];
    Sorting.WithKeyConcat([x], [y], key, k);
    Sorting.WithKeyConcat([y], [x], key, k);
    assert Sorting.WithKey([x][..0], key, k) == [] && Sorting.WithKey([y][..0], key, k) == [];
  }

  /** Neighbours of different keys may change places. */
  lemma SwapKeepsKeys<T, K(!new)>(xs: seq<T>, i: nat, key: T -> K)
    requires i + 1 < |xs| && key(xs[i]) != key(xs[i + 1])
    ensures Sorting.SameByKey(Swapped(xs, i), xs, key)
  {
    var x, y, front, back := xs[i], xs[i + 1], xs[..i], xs[i + 2..];
    assert xs == front + ([x, y] + back);
    assert Swapped(xs, i) == front + ([y, x] + back);
    forall k ensures Sorting.WithKey(Swapped(xs, i), key, k) == Sorting.WithKey(xs, key, k) {
      Sorting.WithKeyConcat(front, [x, y] + back, key, k);
      Sorting.WithKeyConcat(front, [y, x] + back, key, k);
      Sorting.WithKeyConcat([x, y], back, key, k);
      Sorting.WithKeyConcat([y, x], back, key, k);
      WithKeyPair(x, y, key, k);
    }
  }

  /** The rows of two slots differ in their sort key. */
  predicate ToldApart(a: Slot, b: Slot) { RowKey(StoredRow(a)) != RowKey(StoredRow(b)) }

  lemma SwapMaps<T, U>(xs: seq<T>, i: nat, f: T -> U, ys: seq<U>, zs: seq<U>)
    requires i + 1 < |xs| == |ys| == |zs| && forall j :: 0 <= j < |xs| ==> ys[j] == f(xs[j])
    requires forall j :: 0 <= j < |xs| ==> zs[j] == f(Swapped(xs, i)[j])
    ensures zs == Swapped(ys, i)
  {
  }

  const ToRow: Slot -> HashRow := (s: Slot) => StoredRow(s)

  lemma RowsAreMapped(slots: seq<Slot>, toRow: Slot -> HashRow)
    requires toRow == ToRow
    ensures forall j :: 0 <= j < |slots| ==> StoredRows(slots)[j] == toRow(slots[j])
  {
  }

  lemma SwappedRows(slots: seq<Slot>, i: nat)
    requires i + 1 < |slots|
    ensures StoredRows(Swapped(slots, i)) == Swapped(StoredRows(slots), i)
  {
    RowsAreMapped(slots, ToRow);
    RowsAreMapped(Swapped(slots, i), ToRow);
    SwapMaps(slots, i, ToRow, StoredRows(slots), StoredRows(Swapped(slots, i)));
  }

  /** Swapping two neighbouring slots whose rows differ in their sort key leaves the hash. */
  lemma SwapHashesAlike(slots: seq<Slot>, i: nat, rest: Rest)
    requires i + 1 < |slots| && ToldApart(slots[i], slots[i + 1])
    ensures HashAlike(Swapped(slots, i), slots, rest)
  {
    SwappedRows(slots, i);
    SwapKeepsKeys(StoredRows(slots), i, RowKey);
    SortedAlikeIff(Swapped(slots, i), slots);
    SortedAlikeHashesAlike(Swapped(slots, i), slots, rest);
  }

  // ------------------------------------------------- what that lets through

  lemma PayloadIsTableHash(digest: Digest, r: DeviceRecord, port: int)
    requires WellFormed(r)
    ensures PayloadHash(digest, r, port) == TableHash(digest, r.commands, Rest(r.name, port, r.powerOn, r.powerOff))
  {
    PayloadHashOf(digest, r, port);
  }

  lemma SwapKeepsNormal(slots: seq<Slot>, i: nat, standalone: bool)
    requires i + 1 < |slots| && AllNormal(slots, standalone)
    ensures AllNormal(Swapped(slots, i), standalone)
  {
  }

  function WithSwapped(r: DeviceRecord, i: nat): DeviceRecord
    requires i + 1 < |r.commands|
  {
    r.(commands := Swapped(r.commands, i))
  }

  /** A record in sync stays so when two of its slots change places, though the hub still has
      the commands under their old ids. */
  lemma SwappedRecordReadsInSync(digest: Digest, r: DeviceRecord, i: nat, port: int)
    requires WellFormed(r) && InSync(digest, r, port)
    requires i + 1 < |r.commands| && ToldApart(r.commands[i], r.commands[i + 1])
    ensures WellFormed(WithSwapped(r, i)) && InSync(digest, WithSwapped(r, i), port)
  {
    var rest := Rest(r.name, port, r.powerOn, r.powerOff);
    SwapKeepsNormal(r.commands, i, IsEventsKey(r.key));
    PayloadIsTableHash(digest, r, port);
    PayloadIsTableHash(digest, WithSwapped(r, i), port);
    SwapHashesAlike(r.commands, i, rest);
    assert TableHash(digest, WithSwapped(r, i).commands, rest) == TableHash(digest, r.commands, rest);
  }

  /** The deployed callback of slot i then runs what slot i + 1 was deployed for. */
  lemma SwappedCallbackRunsTheOther(rs: seq<DeviceRecord>, j: nat, i: nat, id: int)
    requires Callbacks.OnlyOwner(rs, j, id) && id >= 0 && rs[j].deployed == rs[j].commands
    requires i + 1 < |rs[j].commands| && WellFormed(WithSwapped(rs[j], i))
    ensures Callbacks.Resolve(rs[j := WithSwapped(rs[j], i)], id, i) == Some(rs[j].deployed[i + 1])
  {
    Callbacks.CallbackRunsStagedSlot(rs[j := WithSwapped(rs[j], i)], j, id, i);
  }

  /** Names alone can tell two rows apart. */
  lemma NamesTellRowsApart(a: Slot, b: Slot)
    requires Lower(Strip(a.name)) != Lower(Strip(b.name))
    ensures ToldApart(a, b)
  {
    assert RowKey(StoredRow(a))[0] == Lower(Strip(a.name)) && RowKey(StoredRow(b))[0] == Lower(Strip(b.name));
  }

  /** A record with commands "On" and "Off" in its first slots, just deployed. */
  function OnOffRecord(digest: Digest, base: DeviceRecord, port: int): DeviceRecord {
    var r := base.(commands := OnOff(base.commands));
    r.(hash := PayloadHash(digest, r, port), deployed := r.commands)
  }

  function OnOff(slots: seq<Slot>): (r: seq<Slot>)
    ensures |r| == |slots|
  {
    if |slots| < 2 then slots else slots[0 := slots[0].(name := "On")][1 := slots[1].(name := "Off")]
  }

  lemma OnOffIsNormal(slots: seq<Slot>, standalone: bool)
    requires AllNormal(slots, standalone)
    ensures AllNormal(OnOff(slots), standalone)
  {
  }

  lemma OnOffReadsInSync(digest: Digest, base: DeviceRecord, port: int)
    requires WellFormed(base)
    ensures WellFormed(OnOffRecord(digest, base, port)) && InSync(digest, OnOffRecord(digest, base, port), port)
  {
    OnOffIsNormal(base.commands, IsEventsKey(base.key));
  }

  lemma OnOffAreToldApart(a: Slot, b: Slot)
    requires a.name == "On" && b.name == "Off"
    ensures ToldApart(a, b)
  {
    StripTrimmed("On");
    StripTrimmed("Off");
    assert |Lower("On")| != |Lower("Off")|;
    NamesTellRowsApart(a, b);
  }

  lemma SwapMovesNames(r: DeviceRecord)
    requires |r.commands| >= 2 && r.deployed == r.commands
    ensures WithSwapped(r, 0).commands[0] == r.commands[1] && WithSwapped(r, 0).deployed == r.commands
  {
  }

  lemma OnOffRecordIs(digest: Digest, base: DeviceRecord, port: int)
    requires |base.commands| >= 2
    ensures var r := OnOffRecord(digest, base, port);
      && r.commands == r.deployed && |r.commands| >= 2 && ToldApart(r.commands[0], r.commands[1])
      && r.commands[0].name == "On" && r.commands[1].name == "Off"
  {
    var slots := OnOff(base.commands);
    OnOffAreToldApart(slots[0], slots[1]);
  }

  /** Swapped, it still reads in sync, while slot 0 and its deployed record differ. */
  lemma SwapGoesUnnoticed(digest: Digest, base: DeviceRecord, port: int)
    requires base == DefaultRecord("a1", "TV", None)
    ensures var r := OnOffRecord(digest, base, port);
      && |r.commands| >= 2 && InSync(digest, r, port) && InSync(digest, WithSwapped(r, 0), port)
      && WithSwapped(r, 0).commands[0].name == "Off" && WithSwapped(r, 0).deployed[0].name == "On"
  {
    DefaultRecordWellFormed("a1", "TV", None);
    assert |base.commands| >= 2;
    var r := OnOffRecord(digest, base, port);
    OnOffReadsInSync(digest, base, port);
    OnOffRecordIs(digest, base, port);
    SwapMovesNames(r);
    SwappedRecordReadsInSync(digest, r, 0, port);
  }
}
