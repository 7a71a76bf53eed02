/** What the commands hash does see: the content of every slot, field by field, and the device
    fields beside them. */
module HashContent {
  import opened Text
  import opened Slots
  import opened Records
  import opened HashLaws
  import Sorting

  /** What the hub is given of a slot: its texts without outer blanks, its long press only with
      a button, its activities without blank ones and in no order. */
  datatype Content = Content(
    name: string, favorite: bool, button: string, longPress: bool, input: string, activities: multiset<string>)

  function Listed(texts: seq<string>): multiset<string> {
    if texts == [] then multiset{}
    else (if Strip(texts[0]) == "" then multiset{} else multiset{Strip(texts[0])}) + Listed(texts[1..])
  }

  function ContentOf(s: Slot): Content {
    Content(Strip(s.name), s.favorite, Strip(s.hardButton), s.longPress && Strip(s.hardButton) != "",
            Strip(s.inputActivity), Listed(s.activities))
  }

  function HowMany<T, K(==)>(xs: seq<T>, f: T -> K, k: K): nat {
    if xs == [] then 0
    else HowMany(xs[..|xs| - 1], f, k) + if f(xs[|xs| - 1]) == k then 1 else 0
  }

  const ToContent: Slot -> Content := (s: Slot) => ContentOf(s)
  const RowContent: HashRow -> Content := (row: HashRow) =>
    Content(row.name, row.favorite, row.mappedKey, row.longPress, row.inputActivity, multiset(row.activities))

  // ---------------------------------------------------------- activities

  lemma TextsAreOrdered()
    ensures Sorting.IsOrder(Sorting.ByText)
  {
    forall a, b ensures !Sorting.ByText(a, a) && (a == b || Sorting.ByText(a, b) || Sorting.ByText(b, a)) {
      Sorting.LessIsTotal(a, b);
    }
    forall a, b, c | Sorting.ByText(a, b) && Sorting.ByText(b, c) ensures Sorting.ByText(a, c) {
      Sorting.LessIsTransitive(a, b, c);
    }
  }

  lemma {:induction false} ListedIs(texts: seq<string>)
    ensures multiset(NonEmpty(StripAll(texts))) == Listed(texts)
  {
    if texts != [] {
      var stripped := StripAll(texts);
      ListedIs(texts[1..]);
      assert stripped[1..] == StripAll(texts[1..]) && stripped[0] == Strip(texts[0]);
    }
  }

  lemma {:induction false} AlikeTexts(xs: seq<string>, same: string -> string, k: string)
    requires forall x :: same(x) == x
    ensures forall x :: x in Sorting.WithKey(xs, same, k) ==> x == k
    ensures |Sorting.WithKey(xs, same, k)| == multiset(xs)[k]
  {
    if xs != [] {
      var n := |xs| - 1;
      AlikeTexts(xs[..n], same, k);
      assert xs == xs[..n] + [xs[n]];
    }
  }

  /** Sorted texts are determined by which texts there are. */
  lemma SortedTextsIff(xs: seq<string>, ys: seq<string>, same: string -> string)
    requires forall x :: same(x) == x
    ensures Sorting.SortBy(xs, same, Sorting.ByText) == Sorting.SortBy(ys, same, Sorting.ByText)
       <==> multiset(xs) == multiset(ys)
  {
    Sorting.SortKeeps(xs, same, Sorting.ByText);
    Sorting.SortKeeps(ys, same, Sorting.ByText);
    TextsAreOrdered();
    Sorting.SortAlikeIff(xs, ys, same, Sorting.ByText);
    if multiset(xs) == multiset(ys) {
      forall k ensures Sorting.WithKey(xs, same, k) == Sorting.WithKey(ys, same, k) {
        AlikeTexts(xs, same, k);
        AlikeTexts(ys, same, k);
        var a, b := Sorting.WithKey(xs, same, k), Sorting.WithKey(ys, same, k);
        forall i | 0 <= i < |a| ensures a[i] == b[i] { assert a[i] in a && b[i] in b; }
      }
    }
  }

  // ----------------------------------------------------------------- rows

  lemma StoredRowIs(s: Slot)
    requires IsNormal(s, true)
    ensures var row := StoredRow(s);
      && row.name == Strip(s.name) && row.favorite == s.favorite && row.mappedKey == Strip(s.hardButton)
      && row.longPress == (s.longPress && Strip(s.hardButton) != "") && row.inputActivity == Strip(s.inputActivity)
      && row.activities == Sorting.SortBy(NonEmpty(StripAll(s.activities)), AsIs, Sorting.ByText)
  {
    var n := NormalizeSlot(AsRaw(s), 0, false);
    assert n.activities == s.activities;
  }

  lemma RowShowsContent(s: Slot)
    requires IsNormal(s, true)
    ensures RowContent(StoredRow(s)) == ContentOf(s)
  {
    StoredRowIs(s);
    ListedIs(s.activities);
    Sorting.SortKeeps(NonEmpty(StripAll(s.activities)), AsIs, Sorting.ByText);
  }

  /** Two slots have the same row if and only if they have the same content. */
  lemma RowsAlikeIff(a: Slot, b: Slot)
    requires IsNormal(a, true) && IsNormal(b, true)
    ensures StoredRow(a) == StoredRow(b) <==> ContentOf(a) == ContentOf(b)
  {
    StoredRowIs(a);
    StoredRowIs(b);
    ListedIs(a.activities);
    ListedIs(b.activities);
    SortedTextsIff(NonEmpty(StripAll(a.activities)), NonEmpty(StripAll(b.activities)), AsIs);
  }

  // --------------------------------------------------------------- counts

  lemma HowManyAppend<T, K>(xs: seq<T>, x: T, f: T -> K, k: K)
    ensures HowMany(xs + [x], f, k) == HowMany(xs, f, k) + if f(x) == k then 1 else 0
  {
    assert (xs + [x])[..|xs|] == xs;
  }

  lemma {:induction false} InsertCounts<T, L, K>(sorted: seq<T>, x: T, key: T -> L, less: (L, L) -> bool,
                                                 f: T -> K, k: K)
    ensures HowMany(Sorting.Insert(sorted, x, key, less), f, k) == HowMany(sorted, f, k) + if f(x) == k then 1 else 0
  {
    if sorted == [] || !less(key(x), key(sorted[|sorted| - 1])) {
      HowManyAppend(sorted, x, f, k);
    } else {
      var n := |sorted| - 1;
      InsertCounts(sorted[..n], x, key, less, f, k);
      HowManyAppend(Sorting.Insert(sorted[..n], x, key, less), sorted[n], f, k);
    }
  }

  lemma {:induction false} SortCounts<T, L, K>(xs: seq<T>, key: T -> L, less: (L, L) -> bool, f: T -> K, k: K)
    ensures HowMany(Sorting.SortBy(xs, key, less), f, k) == HowMany(xs, f, k)
  {
    if xs != [] {
      SortCounts(xs[..|xs| - 1], key, less, f, k);
      InsertCounts(Sorting.SortBy(xs[..|xs| - 1], key, less), xs[|xs| - 1], key, less, f, k);
    }
  }

  lemma {:induction false} MapCounts<S, T, K>(ss: seq<S>, ts: seq<T>, f: S -> K, g: T -> K, k: K)
    requires |ss| == |ts| && forall i :: 0 <= i < |ss| ==> f(ss[i]) == g(ts[i])
    ensures HowMany(ss, f, k) == HowMany(ts, g, k)
  {
    if ss != [] { MapCounts(ss[..|ss| - 1], ts[..|ts| - 1], f, g, k); }
  }

  lemma ContentsAreCounted(slots: seq<Slot>, c: Content)
    requires AllNormal(slots, true)
    ensures HowMany(Sorted(slots), RowContent, c) == HowMany(slots, ToContent, c)
  {
    SortCounts(StoredRows(slots), RowKey, Sorting.ByTuple, RowContent, c);
    forall i | 0 <= i < |slots| ensures ToContent(slots[i]) == RowContent(StoredRows(slots)[i]) {
      RowShowsContent(slots[i]);
    }
    MapCounts(slots, StoredRows(slots), ToContent, RowContent, c);
  }

  /** Tables that hash alike under every digest have every content equally often. */
  lemma HashTellsContents(a: seq<Slot>, b: seq<Slot>, rest: Rest, c: Content)
    requires AllNormal(a, true) && AllNormal(b, true) && HashAlike(a, b, rest)
    ensures HowMany(a, ToContent, c) == HowMany(b, ToContent, c)
  {
    HashAlikeIsSortedAlike(a, b, rest);
    ContentsAreCounted(a, c);
    ContentsAreCounted(b, c);
  }

  lemma {:induction false} HowManyUpdate<T, K>(xs: seq<T>, i: nat, x: T, f: T -> K, k: K)
    requires i < |xs|
    ensures HowMany(xs[i := x], f, k)
         == HowMany(xs, f, k) - (if f(xs[i]) == k then 1 else 0) + (if f(x) == k then 1 else 0)
  {
    var n := |xs| - 1;
    if i < n {
      HowManyUpdate(xs[..n], i, x, f, k);
      assert xs[i := x][..n] == xs[..n][i := x];
    } else {
      assert xs[i := x][..n] == xs[..n];
    }
  }

  lemma WriteKeepsAllNormal(slots: seq<Slot>, i: nat, s: Slot)
    requires AllNormal(slots, true) && i < |slots| && IsNormal(s, true)
    ensures AllNormal(slots[i := s], true)
  {
  }

  lemma RowsAfterWrite(slots: seq<Slot>, i: nat, s: Slot)
    requires i < |slots| && StoredRow(s) == StoredRow(slots[i])
    ensures StoredRows(slots[i := s]) == StoredRows(slots)
  {
  }

  /** A slot rewritten with other content is seen: there is one less with the old content. */
  lemma OtherContentIsSeen(slots: seq<Slot>, i: nat, s: Slot, rest: Rest)
    requires AllNormal(slots, true) && i < |slots| && IsNormal(s, true) && HashAlike(slots[i := s], slots, rest)
    ensures ContentOf(s) == ContentOf(slots[i])
  {
    var c := ContentOf(slots[i]);
    WriteKeepsAllNormal(slots, i, s);
    HashTellsContents(slots[i := s], slots, rest, c);
    HowManyUpdate(slots, i, s, ToContent, c);
  }

  /** Rewriting one slot leaves the hash under every digest if and only if it leaves the slot's
      content. */
  lemma SlotChangeIsSeenIff(slots: seq<Slot>, i: nat, s: Slot, rest: Rest)
    requires AllNormal(slots, true) && i < |slots| && IsNormal(s, true)
    ensures HashAlike(slots[i := s], slots, rest) <==> ContentOf(s) == ContentOf(slots[i])
  {
    if HashAlike(slots[i := s], slots, rest) {
      OtherContentIsSeen(slots, i, s, rest);
    } else if ContentOf(s) == ContentOf(slots[i]) {
      RowsAlikeIff(s, slots[i]);
      RowsAfterWrite(slots, i, s);
      SortedAlikeHashesAlike(slots[i := s], slots, rest);
    }
  }

  // -------------------------------------------------- beside the commands

  /** The device name, the port and the power ids as they are hashed: a blank name is the
      default one, an id outside one to ten is none. */
  predicate SameDevice(a: Rest, b: Rest) {
    && Strip(if a.deviceName == "" then "Home Assistant" else a.deviceName)
       == Strip(if b.deviceName == "" then "Home Assistant" else b.deviceName)
    && a.port == b.port && SamePower(a.powerOn, b.powerOn) && SamePower(a.powerOff, b.powerOff)
  }

  predicate InRange(id: Option<int>) { id.Some? && 1 <= id.value <= 10 }

  predicate SamePower(a: Option<int>, b: Option<int>) {
    if InRange(a) then a == b else !InRange(b)
  }

  lemma PowerIs(a: Option<int>, b: Option<int>)
    ensures NormalizePowerId(a) == NormalizePowerId(b) <==> SamePower(a, b)
  {
  }

  /** One table hashes alike for two devices under every digest if and only if name, port and
      both power ids are the same. */
  lemma DeviceChangeIsSeenIff(slots: seq<Slot>, a: Rest, b: Rest)
    ensures (forall digest: Digest :: TableHash(digest, slots, a) == TableHash(digest, slots, b)) <==> SameDevice(a, b)
  {
    PowerIs(a.powerOn, b.powerOn);
    PowerIs(a.powerOff, b.powerOff);
    var x, y := InputOf(Sorted(slots), a), InputOf(Sorted(slots), b);
    forall digest: Digest
      ensures TableHash(digest, slots, a) == digest(x) && TableHash(digest, slots, b) == digest(y)
    {
      TableHashIs(digest, slots, a);
      TableHashIs(digest, slots, b);
    }
    assert x == y <==> SameDevice(a, b);
    if forall digest: Digest :: TableHash(digest, slots, a) == TableHash(digest, slots, b) {
      assert TableHash(Telling(x), slots, a) == TableHash(Telling(x), slots, b);
      TellingTells(x, y);
    }
  }

  // ------------------------------------------------------------ the record

  ghost predicate RecordsHashAlike(r: DeviceRecord, after: DeviceRecord, port: int) {
    forall digest: Digest :: PayloadHash(digest, after, port) == PayloadHash(digest, r, port)
  }

  lemma NormalForTheHub(slots: seq<Slot>, standalone: bool)
    requires AllNormal(slots, standalone)
    ensures AllNormal(slots, true)
  {
    forall i | 0 <= i < |slots| ensures IsNormal(slots[i], true) { assert IsNormal(slots[i], standalone); }
  }

  lemma RewrittenIsWellFormed(r: DeviceRecord, i: nat, s: Slot)
    requires WellFormed(r) && i < |r.commands| && IsNormal(s, IsEventsKey(r.key))
    ensures WellFormed(r.(commands := r.commands[i := s]))
  {
  }

  /** A slot of a stored record rewritten: the record's hash stays, under every digest, if and only
      if the slot's content does. */
  lemma RecordChangeIsSeenIff(r: DeviceRecord, i: nat, s: Slot, port: int)
    requires WellFormed(r) && i < |r.commands| && IsNormal(s, IsEventsKey(r.key))
    ensures RecordsHashAlike(r, r.(commands := r.commands[i := s]), port)
       <==> ContentOf(s) == ContentOf(r.commands[i])
  {
    var after, rest := r.(commands := r.commands[i := s]), Rest(r.name, port, r.powerOn, r.powerOff);
    RewrittenIsWellFormed(r, i, s);
    NormalForTheHub(r.commands, IsEventsKey(r.key));
    SlotChangeIsSeenIff(r.commands, i, s, rest);
    forall digest: Digest
      ensures PayloadHash(digest, after, port) == PayloadHash(digest, r, port)
         <==> TableHash(digest, after.commands, rest) == TableHash(digest, r.commands, rest)
    {
      PayloadIsTableHash(digest, r, port);
      PayloadIsTableHash(digest, after, port);
    }
  }
}
