/** The quick-access list of an activity: the hub's partial order decorated with cached
    favorites and macros, missing ids backfilled, and the two views cut from it. */
module Favorites {
  import opened Text
  import Sorting

  // ----------------------------------------------------------- the caches

  datatype FavoriteSlot = FavoriteSlot(button: int, device: int, command: int)
  datatype MacroRow = MacroRow(command: int, name: string)

  datatype Kind = Favorite(device: nat, command: nat) | Macro | Unknown

  datatype Info = Info(kind: Kind, name: Option<string>)
  datatype Entry = Entry(id: nat, slot: nat, info: Info)

  type Cache = map<nat, Info>

  function Low(x: int): nat { x % 256 }

  predicate IsCache(m: Cache) { forall id :: id in m ==> 0 < id < 256 }

  /** Later rows win; id 0 is skipped.  `name` resolves a command to its label. */
  function FavoritesById(slots: seq<FavoriteSlot>, name: (nat, nat) -> string): (m: Cache)
    ensures IsCache(m)
    ensures forall id :: id in m ==> m[id].kind.Favorite?
    ensures forall id :: id in m <==> id != 0 && exists i :: 0 <= i < |slots| && Low(slots[i].button) == id
  {
    if slots == [] then map[]
    else
      var n := |slots| - 1;
      var front := FavoritesById(slots[..n], name);
      var (d, c) := (Low(slots[n].device), Low(slots[n].command));
      if Low(slots[n].button) == 0 then front
      else front[Low(slots[n].button) := Info(Favorite(d, c), Some(name(d, c)))]
  }

  function MacrosById(rows: seq<MacroRow>): (m: Cache)
    ensures IsCache(m)
    ensures forall id :: id in m ==> m[id].kind.Macro?
    ensures forall id :: id in m <==> id != 0 && exists i :: 0 <= i < |rows| && Low(rows[i].command) == id
  {
    if rows == [] then map[]
    else
      var n := |rows| - 1;
      var front := MacrosById(rows[..n]);
      if Low(rows[n].command) == 0 then front
      else front[Low(rows[n].command) := Info(Macro, Some(rows[n].name))]
  }

  /** A favorite shadows a macro of the same id. */
  function InfoFor(favorites: Cache, macros: Cache, id: nat): Info {
    if id in favorites then favorites[id] else if id in macros then macros[id] else Info(Unknown, None)
  }

  // ------------------------------------------------------ sorting by slot

  type Order = seq<(int, int)>

  predicate BySlot(order: Order) {
    forall i, j :: 0 <= i < j < |order| ==> order[i].1 <= order[j].1
  }

  const SlotOf: ((int, int)) -> int := (pair: (int, int)) => pair.1
  const Before: (int, int) -> bool := (a: int, b: int) => a < b

  /** `sorted(order, key=slot)` */
  function SortedBySlot(order: Order): (r: Order)
    ensures |r| == |order|
  {
    Sorting.SortBy(order, SlotOf, Before)
  }

  /** The entries of one slot, in list order. */
  function AtSlot(order: Order, slot: int): Order { Sorting.WithKey(order, SlotOf, slot) }

  lemma SortSorts(order: Order)
    ensures BySlot(SortedBySlot(order))
  {
    Sorting.SortSorts(order, SlotOf, Before);
    var sorted := SortedBySlot(order);
    forall i, j | 0 <= i < j < |sorted| ensures sorted[i].1 <= sorted[j].1 {
      assert !Before(SlotOf(sorted[j]), SlotOf(sorted[i]));
    }
  }

  lemma SortKeeps(order: Order)
    ensures multiset(SortedBySlot(order)) == multiset(order)
  {
    Sorting.SortKeeps(order, SlotOf, Before);
  }

  /** The sort is stable: entries of equal slot keep their order. */
  lemma SortIsStable(order: Order, slot: int)
    ensures AtSlot(SortedBySlot(order), slot) == AtSlot(order, slot)
  {
    Sorting.SortIsStable(order, SlotOf, Before, slot);
  }

  // ------------------------------------------------------- the description

  function Decorate(favorites: Cache, macros: Cache, order: Order): (r: seq<Entry>)
    ensures |r| == |order|
    ensures forall i :: 0 <= i < |order| ==>
      r[i] == Entry(Low(order[i].0), Low(order[i].1), InfoFor(favorites, macros, Low(order[i].0)))
  {
    seq(|order|, i requires 0 <= i < |order| =>
      Entry(Low(order[i].0), Low(order[i].1), InfoFor(favorites, macros, Low(order[i].0))))
  }

  function MaxSlot(entries: seq<Entry>): (m: nat)
    ensures forall i :: 0 <= i < |entries| ==> entries[i].slot <= m
    ensures m == 0 || exists i :: 0 <= i < |entries| && entries[i].slot == m
  {
    if entries == [] then 0
    else
      var front := MaxSlot(entries[..|entries| - 1]);
      if entries[|entries| - 1].slot > front then entries[|entries| - 1].slot else front
  }

  /** The members of a set below a bound, in increasing order. */
  function Ascending(ids: set<nat>, bound: nat): (r: seq<nat>)
    ensures forall id :: id in r <==> id in ids && id < bound
    ensures forall i, j :: 0 <= i < j < |r| ==> r[i] < r[j]
  {
    if bound == 0 then []
    else
      var front := Ascending(ids, bound - 1);
      assert forall i :: 0 <= i < |front| ==> front[i] in front;
      if bound - 1 in ids then front + [bound - 1] else front
  }

  function Backfill(favorites: Cache, macros: Cache, ids: seq<nat>, next: nat): (r: seq<Entry>)
    ensures |r| == |ids|
    ensures forall k :: 0 <= k < |ids| ==> r[k] == Entry(ids[k], Low(next + k), InfoFor(favorites, macros, ids[k]))
  {
    seq(|ids|, k requires 0 <= k < |ids| => Entry(ids[k], Low(next + k), InfoFor(favorites, macros, ids[k])))
  }

  function IdsOf(entries: seq<Entry>): (r: seq<nat>)
    ensures |r| == |entries|
    ensures forall i :: 0 <= i < |entries| ==> r[i] == entries[i].id
  {
    seq(|entries|, i requires 0 <= i < |entries| => entries[i].id)
  }

  function LowIds(order: Order): (r: seq<nat>)
    ensures |r| == |order|
    ensures forall i :: 0 <= i < |order| ==> r[i] == Low(order[i].0)
  {
    seq(|order|, i requires 0 <= i < |order| => Low(order[i].0))
  }

  /** Visible ids the hub's order does not mention. */
  function Missing(favorites: Cache, macros: Cache, order: Order): set<nat> {
    (favorites.Keys + macros.Keys) - (set id | id in LowIds(order))
  }

  /** The visible ids the hub's order leaves out, in increasing order. */
  function MissingIds(favorites: Cache, macros: Cache, order: Order): seq<nat> {
    Ascending(Missing(favorites, macros, order), 256)
  }

  function DescribeAs(favorites: Cache, macros: Cache, sorted: Order, ids: seq<nat>): seq<Entry> {
    var front := Decorate(favorites, macros, sorted);
    front + Backfill(favorites, macros, ids, MaxSlot(front) + 1)
  }

  function Describe(favorites: Cache, macros: Cache, order: Order): seq<Entry> {
    DescribeAs(favorites, macros, SortedBySlot(order), MissingIds(favorites, macros, order))
  }

  method CollectFavorites(slots: seq<FavoriteSlot>, name: (nat, nat) -> string) returns (byId: Cache)
    ensures byId == FavoritesById(slots, name)
  {
    byId := map[];
    for i := 0 to |slots|
      invariant byId == FavoritesById(slots[..i], name)
    {
      assert slots[..i + 1][..i] == slots[..i];
      var id := Low(slots[i].button);
      if id == 0 { continue; }
      var device, command := Low(slots[i].device), Low(slots[i].command);
      byId := byId[id := Info(Favorite(device, command), Some(name(device, command)))];
    }
    assert slots[..|slots|] == slots;
  }

  method CollectMacros(rows: seq<MacroRow>) returns (byId: Cache)
    ensures byId == MacrosById(rows)
  {
    byId := map[];
    for i := 0 to |rows|
      invariant byId == MacrosById(rows[..i])
    {
      assert rows[..i + 1][..i] == rows[..i];
      var id := Low(rows[i].command);
      if id == 0 { continue; }
      byId := byId[id := Info(Macro, Some(rows[i].name))];
    }
    assert rows[..|rows|] == rows;
  }

  method DecorateOrder(favorites: Cache, macros: Cache, sorted: Order) returns (described: seq<Entry>, seen: set<nat>)
    ensures described == Decorate(favorites, macros, sorted)
    ensures seen == set id | id in LowIds(sorted)
  {
    ghost var front := Decorate(favorites, macros, sorted);
    described, seen := [], {};
    for i := 0 to |sorted|
      invariant described == front[..i]
      invariant forall id :: id in seen <==> id in LowIds(sorted)[..i]
    {
      var id := Low(sorted[i].0);
      described := described + [Entry(id, Low(sorted[i].1), InfoFor(favorites, macros, id))];
      seen := seen + {id};
      assert LowIds(sorted)[..i + 1] == LowIds(sorted)[..i] + [id];
    }
    assert LowIds(sorted)[..|sorted|] == LowIds(sorted);
  }

  method BackfillIds(favorites: Cache, macros: Cache, remaining: seq<nat>, first: nat) returns (rest: seq<Entry>)
    ensures rest == Backfill(favorites, macros, remaining, first)
  {
    var nextSlot := first;
    rest := [];
    for k := 0 to |remaining|
      invariant rest == Backfill(favorites, macros, remaining, first)[..k] && nextSlot == first + k
    {
      rest := rest + [Entry(remaining[k], Low(nextSlot), InfoFor(favorites, macros, remaining[k]))];
      nextSlot := nextSlot + 1;
    }
  }

  lemma SeenAnyOrder(order: Order)
    ensures (set id | id in LowIds(SortedBySlot(order))) == (set id | id in LowIds(order))
  {
    SameLowIds(order);
    SameMembers(LowIds(SortedBySlot(order)), LowIds(order));
  }

  /** `describe_favorites_order` */
  method DescribeOrder(slots: seq<FavoriteSlot>, name: (nat, nat) -> string, rows: seq<MacroRow>, order: Order)
      returns (described: seq<Entry>)
    ensures described == Describe(FavoritesById(slots, name), MacrosById(rows), order)
  {
    var favorites := CollectFavorites(slots, name);
    var macros := CollectMacros(rows);
    var front, seen := DecorateOrder(favorites, macros, SortedBySlot(order));
    SeenAnyOrder(order);
    var missing := (favorites.Keys + macros.Keys) - seen;
    assert missing == Missing(favorites, macros, order);
    var rest := BackfillIds(favorites, macros, Ascending(missing, 256), MaxSlot(front) + 1);
    described := front + rest;
  }

  // --------------------------------------------------------- each id once

  lemma LowIdsAppend(order: Order, pair: (int, int))
    ensures LowIds(order + [pair]) == LowIds(order) + [Low(pair.0)]
  {
  }

  lemma {:induction false} InsertLowIds(sorted: Order, pair: (int, int))
    ensures multiset(LowIds(Sorting.Insert(sorted, pair, SlotOf, Before)))
       == multiset(LowIds(sorted)) + multiset{Low(pair.0)}
  {
    if sorted == [] || sorted[|sorted| - 1].1 <= pair.1 {
      LowIdsAppend(sorted, pair);
    } else {
      var n := |sorted| - 1;
      InsertLowIds(sorted[..n], pair);
      LowIdsAppend(Sorting.Insert(sorted[..n], pair, SlotOf, Before), sorted[n]);
      LowIdsAppend(sorted[..n], sorted[n]);
      assert sorted == sorted[..n] + [sorted[n]];
    }
  }

  lemma {:induction false} SameLowIds(order: Order)
    ensures multiset(LowIds(SortedBySlot(order))) == multiset(LowIds(order))
  {
    if order != [] {
      var n := |order| - 1;
      SameLowIds(order[..n]);
      InsertLowIds(SortedBySlot(order[..n]), order[n]);
      LowIdsAppend(order[..n], order[n]);
      assert order == order[..n] + [order[n]];
    }
  }

  lemma SameMembers(a: seq<nat>, b: seq<nat>)
    requires multiset(a) == multiset(b)
    ensures forall id :: id in a <==> id in b
  {
    forall id ensures id in a <==> id in b {
      assert id in a <==> id in multiset(a);
      assert id in b <==> id in multiset(b);
    }
  }

  lemma {:induction false} AscendingOnce(ids: set<nat>, bound: nat, id: nat)
    ensures multiset(Ascending(ids, bound))[id] == if id in ids && id < bound then 1 else 0
  {
    if bound > 0 { AscendingOnce(ids, bound - 1, id); }
  }

  lemma IdsOfParts(front: seq<Entry>, rest: seq<Entry>)
    ensures IdsOf(front + rest) == IdsOf(front) + IdsOf(rest)
  {
  }

  /** How often an id is listed: as often as the hub's order has it, and once if it is a
      visible id the order leaves out. */
  lemma ListedIds(favorites: Cache, macros: Cache, order: Order, id: nat)
    requires IsCache(favorites) && IsCache(macros)
    ensures multiset(IdsOf(Describe(favorites, macros, order)))[id]
         == multiset(LowIds(order))[id] + if id in Missing(favorites, macros, order) then 1 else 0
  {
    var sorted, missing := SortedBySlot(order), Missing(favorites, macros, order);
    var front := Decorate(favorites, macros, sorted);
    var rest := Backfill(favorites, macros, Ascending(missing, 256), MaxSlot(front) + 1);
    IdsOfParts(front, rest);
    assert IdsOf(front) == LowIds(sorted);
    assert IdsOf(rest) == Ascending(missing, 256);
    SameLowIds(order);
    AscendingOnce(missing, 256, id);
  }

  ghost predicate NoneTwice(ids: seq<nat>) { forall id :: multiset(ids)[id] <= 1 }

  /** Every id of the order, of a favorite or of a macro is listed, nothing else is, and each
      exactly once if and only if the order's ids are distinct modulo 256. */
  lemma EachIdOnceIff(favorites: Cache, macros: Cache, order: Order)
    requires IsCache(favorites) && IsCache(macros)
    ensures var ids := IdsOf(Describe(favorites, macros, order));
      && (forall id :: id in ids <==> id in LowIds(order) || id in favorites || id in macros)
      && (NoneTwice(ids) <==> NoneTwice(LowIds(order)))
  {
    var ids, missing := IdsOf(Describe(favorites, macros, order)), Missing(favorites, macros, order);
    forall id
      ensures multiset(ids)[id] == multiset(LowIds(order))[id] + if id in missing then 1 else 0
      ensures id in ids <==> id in LowIds(order) || id in missing
    {
      ListedIds(favorites, macros, order, id);
      assert id in ids <==> id in multiset(ids);
      assert id in LowIds(order) <==> id in multiset(LowIds(order));
    }
    forall id | id in missing ensures multiset(LowIds(order))[id] == 0 {
      assert id !in LowIds(order);
    }
  }

  // ---------------------------------------------------------------- slots

  /** Hub entries come first, in slot order; backfilled ones follow in increasing id. */
  lemma HubEntriesFirst(favorites: Cache, macros: Cache, order: Order)
    ensures var d, n, sorted := Describe(favorites, macros, order), |order|, SortedBySlot(order);
      && n <= |d| && BySlot(sorted)
      && (forall i :: 0 <= i < n ==> d[i].id == Low(sorted[i].0) && d[i].slot == Low(sorted[i].1))
      && (forall i, j :: n <= i < j < |d| ==> d[i].id < d[j].id)
  {
    SortSorts(order);
    var sorted := SortedBySlot(order);
    var next := MaxSlot(Decorate(favorites, macros, sorted)) + 1;
    PartsInOrder(favorites, macros, sorted, Ascending(Missing(favorites, macros, order), 256), next);
  }

  lemma PartsInOrder(favorites: Cache, macros: Cache, sorted: Order, ids: seq<nat>, next: nat)
    ensures var d := Decorate(favorites, macros, sorted) + Backfill(favorites, macros, ids, next);
      && |d| == |sorted| + |ids|
      && (forall i :: 0 <= i < |sorted| ==> d[i].id == Low(sorted[i].0) && d[i].slot == Low(sorted[i].1))
      && (forall i :: |sorted| <= i < |d| ==> d[i].id == ids[i - |sorted|])
  {
  }

  predicate InSlotOrder(d: seq<Entry>) {
    forall i, j :: 0 <= i < j < |d| ==> d[i].slot <= d[j].slot
  }

  /** The entries of a list from n on count on from `top`, the highest slot before. */
  ghost predicate CountsOn(d: seq<Entry>, n: nat, top: nat) {
    && n <= |d| && top < 256
    && (forall i :: 0 <= i < n ==> d[i].slot <= top)
    && (top == 0 || exists i :: 0 <= i < n && d[i].slot == top)
    && (forall i :: n <= i < |d| ==> d[i].slot == Low(top + 1 + (i - n)))
  }

  lemma LowOf(x: nat)
    ensures x < 256 ==> Low(x) == x
    ensures Low(256) == 0
  {
  }

  predicate Fits(d: seq<Entry>, n: nat, top: nat) { |d| <= n || top + (|d| - n) < 256 }

  /** Counting on in a byte never wraps; past it, it does. */
  lemma CountedSlotsIff(d: seq<Entry>, n: nat, top: nat)
    requires CountsOn(d, n, top)
    ensures (forall i :: n <= i < |d| ==> d[i].slot == top + 1 + (i - n)) <==> Fits(d, n, top)
  {
    if Fits(d, n, top) {
      forall i | n <= i < |d| ensures d[i].slot == top + 1 + (i - n) { LowOf(top + 1 + (i - n)); }
    } else {
      assert d[|d| - 1].slot == Low(top + (|d| - n)) < 256;
    }
  }

  lemma WrappedStepsBack(d: seq<Entry>, n: nat, top: nat)
    requires CountsOn(d, n, top) && !Fits(d, n, top)
    ensures !InSlotOrder(d)
  {
    var k := n + (255 - top);
    LowOf(0);
    assert d[k].slot == Low(256);
    if k > n {
      assert d[k - 1].slot == Low(255);
    } else {
      var i :| 0 <= i < n && d[i].slot == top;
    }
  }

  lemma FittingStaysInOrder(d: seq<Entry>, n: nat, top: nat)
    requires CountsOn(d, n, top) && Fits(d, n, top) && InSlotOrder(d[..n])
    ensures InSlotOrder(d)
  {
    CountedSlotsIff(d, n, top);
    forall i, j | 0 <= i < j < |d| ensures d[i].slot <= d[j].slot {
      if j < n { assert d[..n][i] == d[i] && d[..n][j] == d[j]; }
    }
  }

  lemma PrefixInSlotOrder(d: seq<Entry>, n: nat)
    requires n <= |d| && InSlotOrder(d)
    ensures InSlotOrder(d[..n])
  {
  }

  lemma JoinedCountsOn(d: seq<Entry>, front: seq<Entry>, rest: seq<Entry>, top: nat)
    requires d == front + rest && top < 256
    requires forall i :: 0 <= i < |front| ==> front[i].slot <= top
    requires top == 0 || exists i :: 0 <= i < |front| && front[i].slot == top
    requires forall k :: 0 <= k < |rest| ==> rest[k].slot == Low(top + 1 + k)
    ensures CountsOn(d, |front|, top)
  {
    if top != 0 {
      var i :| 0 <= i < |front| && front[i].slot == top;
      assert d[i].slot == top;
    }
  }

  lemma BackfillCountsOn(favorites: Cache, macros: Cache, sorted: Order, ids: seq<nat>, d: seq<Entry>)
    requires d == Decorate(favorites, macros, sorted)
                  + Backfill(favorites, macros, ids, MaxSlot(Decorate(favorites, macros, sorted)) + 1)
    ensures |d| == |sorted| + |ids| && CountsOn(d, |sorted|, MaxSlot(d[..|sorted|]))
  {
    var front := Decorate(favorites, macros, sorted);
    var top := MaxSlot(front);
    assert d[..|sorted|] == front;
    JoinedCountsOn(d, front, Backfill(favorites, macros, ids, top + 1), top);
  }

  lemma InSlotOrderIff(d: seq<Entry>, n: nat, top: nat)
    requires CountsOn(d, n, top)
    ensures InSlotOrder(d) <==> InSlotOrder(d[..n]) && Fits(d, n, top)
    ensures (forall i :: n <= i < |d| ==> d[i].slot == top + 1 + (i - n)) <==> Fits(d, n, top)
  {
    CountedSlotsIff(d, n, top);
    if !Fits(d, n, top) {
      WrappedStepsBack(d, n, top);
    } else if InSlotOrder(d) {
      PrefixInSlotOrder(d, n);
    } else if InSlotOrder(d[..n]) {
      FittingStaysInOrder(d, n, top);
    }
  }

  /** From n on the list counts on from the highest slot before, in slot order, exactly when
      those slots fit in a byte. */
  ghost predicate OrderedIfFits(d: seq<Entry>, n: nat)
    requires n <= |d|
  {
    var top := MaxSlot(d[..n]);
    && (InSlotOrder(d) <==> InSlotOrder(d[..n]) && Fits(d, n, top))
    && ((forall i :: n <= i < |d| ==> d[i].slot == top + 1 + (i - n)) <==> Fits(d, n, top))
  }

  lemma PartsOrderedIfFit(favorites: Cache, macros: Cache, sorted: Order, ids: seq<nat>)
    ensures var d := DescribeAs(favorites, macros, sorted, ids); |d| == |sorted| + |ids| && OrderedIfFits(d, |sorted|)
  {
    var d := DescribeAs(favorites, macros, sorted, ids);
    BackfillCountsOn(favorites, macros, sorted, ids, d);
    InSlotOrderIff(d, |sorted|, MaxSlot(d[..|sorted|]));
  }

  /** The described list is in slot order if and only if its hub entries are and the slots
      counted on for the missing ids fit in a byte; then and only then those are the slots
      right after the highest. */
  lemma DescribedInSlotOrderIff(favorites: Cache, macros: Cache, order: Order)
    ensures var d := Describe(favorites, macros, order);
      |d| == |order| + |MissingIds(favorites, macros, order)| && OrderedIfFits(d, |order|)
  {
    PartsOrderedIfFit(favorites, macros, SortedBySlot(order), MissingIds(favorites, macros, order));
  }

  lemma SortMembers(order: Order)
    ensures forall p :: p in SortedBySlot(order) ==> p in order
  {
    SortKeeps(order);
    forall p | p in SortedBySlot(order) ensures p in order {
      assert p in multiset(SortedBySlot(order));
    }
  }

  lemma DecoratedInSlotOrder(favorites: Cache, macros: Cache, sorted: Order)
    requires BySlot(sorted) && forall i :: 0 <= i < |sorted| ==> 0 <= sorted[i].1 < 256
    ensures InSlotOrder(Decorate(favorites, macros, sorted))
  {
  }

  /** With byte-sized hub slots the hub entries always are. */
  lemma HubEntriesInSlotOrder(favorites: Cache, macros: Cache, order: Order)
    requires forall i :: 0 <= i < |order| ==> 0 <= order[i].1 < 256
    ensures InSlotOrder(Describe(favorites, macros, order)[..|order|])
  {
    var sorted := SortedBySlot(order);
    SortSorts(order);
    SortMembers(order);
    forall i | 0 <= i < |sorted| ensures 0 <= sorted[i].1 < 256 {
      assert sorted[i] in order;
    }
    DecoratedInSlotOrder(favorites, macros, sorted);
    assert Describe(favorites, macros, order)[..|order|] == Decorate(favorites, macros, sorted);
  }

  // ---------------------------------------------------------------- views

  /** The entries a view keeps. */
  function Kept(d: seq<Entry>, keep: Entry -> bool): (r: seq<Entry>)
    ensures forall e :: e in r <==> e in d && keep(e)
  {
    if d == [] then []
    else
      var n := |d| - 1;
      assert d == d[..n] + [d[n]];
      Kept(d[..n], keep) + if keep(d[n]) then [d[n]] else []
  }

  /** Where they stand in the list. */
  function Places(d: seq<Entry>, keep: Entry -> bool): seq<nat> {
    if d == [] then []
    else
      var n := |d| - 1;
      Places(d[..n], keep) + if keep(d[n]) then [n] else []
  }

  /** `get_activity_favorites` and `get_all_cached_macros` keep the rows of one kind. */
  const IsFavoriteRow: Entry -> bool := (e: Entry) => e.info.kind.Favorite? && e.info.kind.command != 0
  const IsMacroRow: Entry -> bool := (e: Entry) => e.info.kind.Macro? && e.id != 0

  function FavoritesView(d: seq<Entry>): seq<Entry> { Kept(d, IsFavoriteRow) }

  function MacrosView(d: seq<Entry>): seq<Entry> { Kept(d, IsMacroRow) }

  /** The view shows the entries at these places, which are all the kept ones, in the order of
      the list. */
  predicate Shows<E(==)>(d: seq<E>, keep: E -> bool, view: seq<E>, at: seq<nat>) {
    && |at| == |view|
    && (forall k :: 0 <= k < |at| ==> at[k] < |d| && view[k] == d[at[k]])
    && (forall j, k :: 0 <= j < k < |at| ==> at[j] < at[k])
    && (forall i :: 0 <= i < |d| ==> (i in at <==> keep(d[i])))
  }

  lemma ShowsMore<E>(d: seq<E>, keep: E -> bool, view: seq<E>, at: seq<nat>, e: E)
    requires Shows(d, keep, view, at) && keep(e)
    ensures Shows(d + [e], keep, view + [e], at + [|d|])
  {
    forall i | 0 <= i < |d + [e]| ensures i in at + [|d|] <==> keep((d + [e])[i]) {
      if i < |d| { assert i in at <==> keep(d[i]); }
    }
  }

  lemma ShowsSame<E>(d: seq<E>, keep: E -> bool, view: seq<E>, at: seq<nat>, e: E)
    requires Shows(d, keep, view, at) && !keep(e)
    ensures Shows(d + [e], keep, view, at)
  {
    forall i | 0 <= i < |d + [e]| ensures i in at <==> keep((d + [e])[i]) {
      if i < |d| { assert i in at <==> keep(d[i]); }
    }
  }

  /** A view is the list without the rows of other kinds: the kept places, all of them, in
      the order of the list. */
  lemma {:induction false} ViewsKeepOrder(d: seq<Entry>, keep: Entry -> bool)
    ensures Shows(d, keep, Kept(d, keep), Places(d, keep))
  {
    if d != [] {
      var n := |d| - 1;
      var front, last := d[..n], d[n];
      ViewsKeepOrder(front, keep);
      assert d == front + [last];
      if keep(last) {
        ShowsMore(front, keep, Kept(front, keep), Places(front, keep), last);
      } else {
        ShowsSame(front, keep, Kept(front, keep), Places(front, keep), last);
      }
    }
  }

  lemma EntriesAreDecorated(favorites: Cache, macros: Cache, order: Order, e: Entry)
    requires e in Describe(favorites, macros, order)
    ensures e.info == InfoFor(favorites, macros, e.id)
  {
  }

  lemma ListedEntry(d: seq<Entry>, id: nat) returns (e: Entry)
    requires id in IdsOf(d)
    ensures e in d && e.id == id
  {
    var i :| 0 <= i < |d| && IdsOf(d)[i] == id;
    e := d[i];
  }

  /** Whatever the order, no id is in both views: the favorites view has every favorite with
      a command, the macros view every macro no favorite shadows. */
  lemma ViewsAreDisjoint(favorites: Cache, macros: Cache, order: Order, id: nat)
    requires IsCache(favorites) && IsCache(macros)
    requires forall i :: i in favorites ==> favorites[i].kind.Favorite?
    requires forall i :: i in macros ==> macros[i].kind.Macro?
    ensures var d := Describe(favorites, macros, order);
      && ((exists e :: e in FavoritesView(d) && e.id == id) <==> id in favorites && favorites[id].kind.command != 0)
      && ((exists e :: e in MacrosView(d) && e.id == id) <==> id in macros && id !in favorites)
  {
    var d := Describe(favorites, macros, order);
    EachIdOnceIff(favorites, macros, order);
    forall e | e in d ensures e.info == InfoFor(favorites, macros, e.id) {
      EntriesAreDecorated(favorites, macros, order, e);
    }
    if id in favorites || id in macros {
      var e := ListedEntry(d, id);
      assert e in FavoritesView(d) <==> e.info.kind.Favorite? && e.info.kind.command != 0;
      assert e in MacrosView(d) <==> e.info.kind.Macro? && e.id != 0;
    }
  }

  // ----------------------------------------------------- what an entry shows

  /** The last favorite row of a button id, and the last macro row of a command id, in one byte. */
  predicate LastFavorite(slots: seq<FavoriteSlot>, i: nat, id: nat) {
    && i < |slots| && slots[i].button % 256 == id
    && forall j :: i < j < |slots| ==> slots[j].button % 256 != id
  }

  predicate LastMacro(rows: seq<MacroRow>, i: nat, id: nat) {
    && i < |rows| && rows[i].command % 256 == id
    && forall j :: i < j < |rows| ==> rows[j].command % 256 != id
  }

  /** One favorite row more. */
  lemma FavoriteMore(slots: seq<FavoriteSlot>, row: FavoriteSlot, name: (nat, nat) -> string, id: nat)
    requires id != 0
    ensures var (front, all) := (FavoritesById(slots, name), FavoritesById(slots + [row], name));
      if row.button % 256 == id
      then id in all && all[id] == Info(Favorite(row.device % 256, row.command % 256),
                                        Some(name(row.device % 256, row.command % 256)))
      else (id in all <==> id in front) && (id in all ==> all[id] == front[id])
  {
    assert (slots + [row])[..|slots|] == slots;
  }

  lemma {:induction false} FavoriteIsLast(slots: seq<FavoriteSlot>, name: (nat, nat) -> string, i: nat, id: nat)
    requires id != 0 && LastFavorite(slots, i, id)
    ensures id in FavoritesById(slots, name)
    ensures FavoritesById(slots, name)[id]
         == Info(Favorite(slots[i].device % 256, slots[i].command % 256),
                 Some(name(slots[i].device % 256, slots[i].command % 256)))
  {
    var front, last := slots[..|slots| - 1], slots[|slots| - 1];
    assert slots == front + [last];
    FavoriteMore(front, last, name, id);
    if i < |front| { FavoriteIsLast(front, name, i, id); }
  }

  lemma {:induction false} MacroIsLast(rows: seq<MacroRow>, i: nat, id: nat)
    requires id != 0 && LastMacro(rows, i, id)
    ensures id in MacrosById(rows) && MacrosById(rows)[id] == Info(Macro, Some(rows[i].name))
  {
    var n := |rows| - 1;
    if i < n {
      assert rows[n].command % 256 != id;
      MacroIsLast(rows[..n], i, id);
    }
  }

  predicate NoFavorite(slots: seq<FavoriteSlot>, id: nat) {
    forall i :: 0 <= i < |slots| ==> slots[i].button % 256 != id
  }

  predicate NoMacro(rows: seq<MacroRow>, id: nat) { forall i :: 0 <= i < |rows| ==> rows[i].command % 256 != id }

  /** An entry of the described list shows the last favorite row of its id, */
  lemma EntryShowsFavorite(slots: seq<FavoriteSlot>, name: (nat, nat) -> string, rows: seq<MacroRow>, order: Order,
      e: Entry, i: nat)
    requires e in Describe(FavoritesById(slots, name), MacrosById(rows), order) && e.id != 0
    requires LastFavorite(slots, i, e.id)
    ensures e.info == Info(Favorite(slots[i].device % 256, slots[i].command % 256),
                           Some(name(slots[i].device % 256, slots[i].command % 256)))
  {
    EntriesAreDecorated(FavoritesById(slots, name), MacrosById(rows), order, e);
    FavoriteIsLast(slots, name, i, e.id);
  }

  /** without one the last macro row, */
  lemma EntryShowsMacro(slots: seq<FavoriteSlot>, name: (nat, nat) -> string, rows: seq<MacroRow>, order: Order,
      e: Entry, i: nat)
    requires e in Describe(FavoritesById(slots, name), MacrosById(rows), order) && e.id != 0
    requires NoFavorite(slots, e.id) && LastMacro(rows, i, e.id)
    ensures e.info == Info(Macro, Some(rows[i].name))
  {
    EntriesAreDecorated(FavoritesById(slots, name), MacrosById(rows), order, e);
    MacroIsLast(rows, i, e.id);
  }

  /** and without either nothing known. */
  lemma EntryShowsNothing(slots: seq<FavoriteSlot>, name: (nat, nat) -> string, rows: seq<MacroRow>, order: Order,
      e: Entry)
    requires e in Describe(FavoritesById(slots, name), MacrosById(rows), order)
    requires NoFavorite(slots, e.id) && NoMacro(rows, e.id)
    ensures e.info == Info(Unknown, None)
  {
    EntriesAreDecorated(FavoritesById(slots, name), MacrosById(rows), order, e);
  }
}
