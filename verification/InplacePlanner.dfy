/** The planner itself: loops that append one section after another. */
module InplacePlanner {
  import opened Text
  import opened InplacePlan

  lemma HeadIsLeast(xs: seq<int>, x: int)
    requires Increasing(xs) && x in xs
    ensures xs != [] && xs[0] <= x && (x in xs[1..] <==> x != xs[0])
  {
    var i :| 0 <= i < |xs| && xs[i] == x;
    if i > 0 { assert xs[1..][i - 1] == x; }
  }

  lemma MembersOrEmpty<T>(xs: seq<T>, ys: seq<T>)
    requires forall x :: x in xs <==> x in ys
    ensures xs == [] <==> ys == []
  {
    if xs != [] { assert xs[0] in xs; }
    if ys != [] { assert ys[0] in ys; }
  }

  /** The tail of an increasing list has the members other than its head. */
  lemma TailMember(xs: seq<int>, x: int)
    requires Increasing(xs) && xs != []
    ensures x in xs[1..] <==> x in xs && x != xs[0]
  {
    if x in xs { HeadIsLeast(xs, x); }
    assert xs == [xs[0]] + xs[1..];
  }

  lemma {:induction false} IncreasingIsUnique(xs: seq<int>, ys: seq<int>)
    requires Increasing(xs) && Increasing(ys)
    requires forall x :: x in xs <==> x in ys
    ensures xs == ys
    decreases xs
  {
    MembersOrEmpty(xs, ys);
    if xs != [] {
      assert xs[0] in xs && ys[0] in ys;
      HeadIsLeast(xs, ys[0]);
      HeadIsLeast(ys, xs[0]);
      forall x ensures x in xs[1..] <==> x in ys[1..] {
        TailMember(xs, x);
        TailMember(ys, x);
      }
      IncreasingIsUnique(xs[1..], ys[1..]);
      assert xs == [xs[0]] + xs[1..] && ys == [ys[0]] + ys[1..];
    }
  }

  method SortIds(ids: set<int>) returns (xs: seq<int>)
    ensures xs == Sorted(ids)
  {
    xs := [];
    var rest := ids;
    while rest != {}
      invariant rest <= ids && Increasing(xs)
      invariant forall x :: x in xs <==> x in ids && x !in rest
      decreases |rest|
    {
      var e := TakeAny(rest);
      rest := rest - {e};
      xs := InsertSorted(xs, e);
    }
    IncreasingIsUnique(xs, Sorted(ids));
  }

  method TakeAny<T(==)>(s: set<T>) returns (e: T)
    requires s != {}
    ensures e in s
  {
    e :| e in s;
  }

  /** One loop over sorted ids, appending what each contributes. */
  method AppendEach(ids: set<int>, f: int -> seq<Step>) returns (out: seq<Step>)
    ensures out == ForEach(ids, f)
  {
    var xs := SortIds(ids);
    out := [];
    for i := 0 to |xs|
      invariant out == Collect(xs[..i], f)
    {
      assert xs[..i + 1][..i] == xs[..i];
      out := out + f(xs[i]);
    }
    assert xs[..|xs|] == xs;
  }

  method FavoriteDiff(live: Live, d: Desired, o: Desired, a: int) returns (out: seq<Step>)
    requires a in d.activities
    ensures out == FavoriteDiffAt(live, d, o)(a)
  {
    var have := if Joined(live, a) then FavoritesOf(live.activities[a], live.id) else {};
    var owned := if Joined(live, a) then OwnedRefs(o, a).favorites else {};
    var deletes := AppendEach((owned * have) - d.activities[a].favorites, DeletingFavorite(a));
    var adds := AppendEach(d.activities[a].favorites - have, AddingFavorite(a));
    out := deletes + adds;
  }

  method BindingDiff(live: Live, d: Desired, o: Desired, a: int) returns (out: seq<Step>)
    requires a in d.activities
    ensures out == BindingDiffAt(live, d, o)(a)
  {
    var have := if Joined(live, a) then RowsOf(live.activities[a], live.id) else map[];
    var owned := if Joined(live, a) then OwnedRefs(o, a).bindings.Keys else {};
    var want := d.activities[a].bindings;
    var deletes := AppendEach((owned * have.Keys) - want.Keys, DeletingBinding(a));
    var writes := AppendEach(want.Keys, WritingBinding(a, have, want));
    out := deletes + writes;
  }

  method AppendFavorites(live: Live, d: Desired, o: Desired, acts: set<int>) returns (out: seq<Step>)
    requires forall a :: a in acts ==> a in d.activities
    ensures out == ForEach(acts, FavoriteDiffAt(live, d, o))
  {
    var xs := SortIds(acts);
    ghost var f := FavoriteDiffAt(live, d, o);
    out := [];
    for i := 0 to |xs|
      invariant out == Collect(xs[..i], f)
    {
      assert xs[..i + 1][..i] == xs[..i] && xs[i] in acts;
      var diff := FavoriteDiff(live, d, o, xs[i]);
      out := out + diff;
    }
    assert xs[..|xs|] == xs;
  }

  method AppendBindings(live: Live, d: Desired, o: Desired, acts: set<int>) returns (out: seq<Step>)
    requires forall a :: a in acts ==> a in d.activities
    ensures out == ForEach(acts, BindingDiffAt(live, d, o))
  {
    var xs := SortIds(acts);
    ghost var f := BindingDiffAt(live, d, o);
    out := [];
    for i := 0 to |xs|
      invariant out == Collect(xs[..i], f)
    {
      assert xs[..i + 1][..i] == xs[..i] && xs[i] in acts;
      var diff := BindingDiff(live, d, o, xs[i]);
      out := out + diff;
    }
    assert xs[..|xs|] == xs;
  }

  method DeviceSection(live: Live, d: Desired, o: Desired) returns (out: seq<Step>)
    ensures out == DeviceSteps(live, d, o)
  {
    var have, want := live.device.labels, d.labels;
    var adds := AppendEach(want.Keys - have.Keys, Adding(have, want));
    var renames := AppendEach(want.Keys * have.Keys, Renaming(have, want));
    var deletes := AppendEach(have.Keys - want.Keys, DeletingCommand());
    var keyDeletes := AppendEach((o.keys.Keys * live.device.keys.Keys) - d.keys.Keys, DeletingKey());
    var keyWrites := AppendEach(d.keys.Keys, WritingKey(live.device.keys, d.keys));
    out := adds + renames + deletes + PowerSteps(live, d) + InputSteps(live, d) + (keyDeletes + keyWrites);
  }

  method ActivitySection(live: Live, d: Desired, o: Desired) returns (out: seq<Step>)
    ensures out == ActivitySteps(live, d, o)
  {
    var kept, added := KeptActivities(live, d), AddedActivities(live, d);
    var replays := AppendEach(kept, Replaying(live, d));
    var joins := AppendEach(added, Replaying(live, d));
    var keptFavorites := AppendFavorites(live, d, o, kept);
    var addedFavorites := AppendFavorites(live, d, o, added);
    var keptBindings := AppendBindings(live, d, o, kept);
    var addedBindings := AppendBindings(live, d, o, added);
    var leaves := AppendEach(LeftActivities(live, d, o), Leaving());
    out := (replays + joins) + (keptFavorites + addedFavorites) + (keptBindings + addedBindings) + leaves;
  }

  /** `build_wifi_inplace_plan` */
  method BuildPlan(live: Live, d: Desired, o: Desired) returns (plan: Plan)
    ensures plan == PlanOf(live, d, o)
  {
    if exists a :: a in live.activities && LastMember(live, d, o, a) {
      return Fallback;
    }
    var device := DeviceSection(live, d, o);
    var activities := ActivitySection(live, d, o);
    plan := Steps(device + activities + HeadSteps(live, d));
  }
}
