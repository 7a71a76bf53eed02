/** In-place re-sync of a deployed Wifi Device: the diff between the live hub and the
    desired configuration, the ordered steps it plans, and what executing them does. */
module InplacePlan {
  import opened Text

  // ------------------------------------------------------------ snapshots

  /** One key row: what a button does, short and long. */
  datatype KeyRow = KeyRow(command: int, long: Option<int>)

  /** How the managed device is referenced inside one activity. */
  datatype Refs = Refs(ordinal: nat, favorites: set<int>, bindings: map<int, KeyRow>)

  /** What a configuration wants the device to look like.  The same shape holds the last
      deployed configuration, whose references are the ones we may clean up. */
  datatype Desired = Desired(
    name: string, brand: string, powerOn: Option<int>, powerOff: Option<int>,
    inputs: seq<int>, labels: map<int, string>,
    activities: map<int, Refs>, keys: map<int, KeyRow>)

  /** Key rows of an activity name the device they drive. */
  datatype Binding = Binding(device: int, row: KeyRow)
  datatype Favorite = Favorite(device: int, command: int)

  type pos = n: int | n > 0 witness 1

  /** `ordinals`: which entry of a member's input list the activity selects; a member
      without an entry has no input. */
  datatype Activity = Activity(
    members: set<int>, ordinals: map<int, pos>,
    favorites: set<Favorite>, bindings: map<int, Binding>)

  datatype Device = Device(
    name: string, brand: string, powerOn: Option<int>, powerOff: Option<int>,
    inputs: seq<int>, labels: map<int, string>, keys: map<int, KeyRow>)

  /** The live hub: the managed device (with its id) and every activity. */
  datatype Live = Live(id: int, device: Device, activities: map<int, Activity>)

  function OrdinalIn(a: Activity, id: int): nat {
    if id in a.ordinals then a.ordinals[id] else 0
  }

  function WithOrdinal(ordinals: map<int, pos>, id: int, n: nat): map<int, pos> {
    if n == 0 then ordinals - {id} else ordinals[id := n]
  }

  // --------------------------------------------------------------- steps

  datatype Step =
    | CommandAdd(command: int, text: string)
    | CommandRename(command: int, text: string)
    | CommandDelete(command: int)
    | PowerConfig(on: Option<int>, off: Option<int>)
    | InputConfig(inputs: seq<int>)
    | KeyDelete(button: int)
    | KeyWrite(button: int, row: KeyRow)
    | MemberReplay(activity: int, input: Option<int>)
    | FavoriteDelete(activity: int, command: int)
    | FavoriteAdd(activity: int, command: int)
    | BindingDelete(activity: int, button: int)
    | BindingWrite(activity: int, button: int, row: KeyRow)
    | MembershipRemove(activity: int)
    | HeadCommit(name: string, brand: string)

  function PositionOf(xs: seq<int>, x: int): (p: nat)
    ensures p <= |xs|
    ensures p == 0 <==> x !in xs
    ensures p > 0 ==> xs[p - 1] == x
  {
    if xs == [] then 0
    else if xs[0] == x then 1
    else var p := PositionOf(xs[1..], x); if p == 0 then 0 else p + 1
  }

  /** Leaving an activity cascades the device's references in it. */
  function LeaveActivity(a: Activity, id: int): Activity {
    Activity(a.members - {id}, a.ordinals - {id},
             set f | f in a.favorites && f.device != id,
             map b | b in a.bindings && a.bindings[b].device != id :: a.bindings[b])
  }

  /** The executor resolves an input by command id against the device's input list. */
  function ResolvedOrdinal(input: Option<int>, inputs: seq<int>): nat {
    if input.Some? then PositionOf(inputs, input.value) else 0
  }

  function ApplyToActivity(s: Step, a: Activity, id: int, inputs: seq<int>): Activity {
    match s
    case MemberReplay(_, input) =>
      a.(members := a.members + {id}, ordinals := WithOrdinal(a.ordinals, id, ResolvedOrdinal(input, inputs)))
    case FavoriteAdd(_, c) => a.(favorites := a.favorites + {Favorite(id, c)})
    case FavoriteDelete(_, c) => a.(favorites := a.favorites - {Favorite(id, c)})
    case BindingWrite(_, b, row) => a.(bindings := a.bindings[b := Binding(id, row)])
    case BindingDelete(_, b) => a.(bindings := a.bindings - {b})
    case MembershipRemove(_) => LeaveActivity(a, id)
    case _ => a
  }

  predicate OnActivity(s: Step) {
    s.MemberReplay? || s.FavoriteAdd? || s.FavoriteDelete? || s.BindingWrite? || s.BindingDelete?
    || s.MembershipRemove?
  }

  /** A power row is only ever rewritten: no write clears the command id it holds. */
  function Written(wanted: Option<int>, held: Option<int>): Option<int> {
    if wanted.Some? then wanted else held
  }

  /** Nor has the input record a form for the empty list, which leaves the old one behind. */
  function WrittenInputs(wanted: seq<int>, held: seq<int>): seq<int> {
    if wanted != [] then wanted else held
  }

  function ApplyToDevice(s: Step, d: Device): Device {
    match s
    case CommandAdd(c, text) => d.(labels := d.labels[c := text])
    case CommandRename(c, text) => d.(labels := d.labels[c := text])
    case CommandDelete(c) => d.(labels := d.labels - {c})
    case PowerConfig(on, off) => d.(powerOn := Written(on, d.powerOn), powerOff := Written(off, d.powerOff))
    case InputConfig(inputs) => d.(inputs := WrittenInputs(inputs, d.inputs))
    case KeyDelete(b) => d.(keys := d.keys - {b})
    case KeyWrite(b, row) => d.(keys := d.keys[b := row])
    case HeadCommit(name, brand) => d.(name := name, brand := brand)
    case _ => d
  }

  /** The hub after one acknowledged step; a step on an unknown activity is refused. */
  function Apply(s: Step, live: Live): Live {
    if OnActivity(s) then
      if s.activity in live.activities
      then live.(activities := live.activities[s.activity :=
             ApplyToActivity(s, live.activities[s.activity], live.id, live.device.inputs)])
      else live
    else live.(device := ApplyToDevice(s, live.device))
  }

  function ApplyAll(steps: seq<Step>, live: Live): Live
    decreases steps
  {
    if steps == [] then live else ApplyAll(steps[1..], Apply(steps[0], live))
  }

  // ---------------------------------------------------------------- needs

  function InputFor(d: Desired, ordinal: nat): Option<int> {
    if 0 < ordinal <= |d.inputs| then Some(d.inputs[ordinal - 1]) else None
  }

  function OwnedRefs(o: Desired, a: int): Refs {
    if a in o.activities then o.activities[a] else Refs(0, {}, map[])
  }

  /** Our row under button b, if the live row drives the managed device. */
  predicate OursAt(a: Activity, id: int, b: int) {
    b in a.bindings && a.bindings[b].device == id
  }

  /** A step is needed when the live hub differs from the desired state in the one place
      the step writes.  `o` is the last deployed configuration: only what it names may be
      deleted again, so references made outside the configuration survive. */
  predicate Needs(s: Step, live: Live, d: Desired, o: Desired) {
    var dev, acts, id := live.device, live.activities, live.id;
    match s
    case CommandAdd(c, text) => c in d.labels && c !in dev.labels && text == d.labels[c]
    case CommandRename(c, text) =>
      c in d.labels && c in dev.labels && dev.labels[c] != d.labels[c] && text == d.labels[c]
    case CommandDelete(c) => c in dev.labels && c !in d.labels
    case PowerConfig(on, off) =>
      (dev.powerOn, dev.powerOff) != (d.powerOn, d.powerOff) && (on, off) == (d.powerOn, d.powerOff)
    case InputConfig(inputs) => dev.inputs != d.inputs && inputs == d.inputs
    case KeyDelete(b) => b in dev.keys && b in o.keys && b !in d.keys
    case KeyWrite(b, row) =>
      b in d.keys && (b !in dev.keys || dev.keys[b] != d.keys[b]) && row == d.keys[b]
    case MemberReplay(a, input) =>
      a in d.activities && (!Joined(live, a) || OrdinalIn(acts[a], id) != d.activities[a].ordinal)
      && input == InputFor(d, d.activities[a].ordinal)
    case FavoriteDelete(a, c) =>
      a in d.activities && Joined(live, a) && Favorite(id, c) in acts[a].favorites
      && c in OwnedRefs(o, a).favorites && c !in d.activities[a].favorites
    case FavoriteAdd(a, c) =>
      a in d.activities && c in d.activities[a].favorites
      && (Joined(live, a) ==> Favorite(id, c) !in acts[a].favorites)
    case BindingDelete(a, b) =>
      a in d.activities && Joined(live, a) && OursAt(acts[a], id, b)
      && b in OwnedRefs(o, a).bindings && b !in d.activities[a].bindings
    case BindingWrite(a, b, row) =>
      a in d.activities && b in d.activities[a].bindings && row == d.activities[a].bindings[b]
      && (Joined(live, a) ==> !(OursAt(acts[a], id, b) && acts[a].bindings[b].row == row))
    case MembershipRemove(a) => Joined(live, a) && a in o.activities && a !in d.activities
    case HeadCommit(name, brand) =>
      (dev.name, dev.brand) != (d.name, d.brand) && (name, brand) == (d.name, d.brand)
  }

  /** The device is a member of activity a. */
  predicate Joined(live: Live, a: int) {
    a in live.activities && live.id in live.activities[a].members
  }

  /** Leaving activity a would empty it, and the hub would purge it. */
  predicate LastMember(live: Live, d: Desired, o: Desired, a: int) {
    Joined(live, a) && a in o.activities && a !in d.activities && |live.activities[a].members| <= 1
  }

  // --------------------------------------------------------------- target

  /** The activity the plan aims at, reference by reference. */
  function TargetRefs(a: Activity, id: int, want: Refs, owned: Refs): Activity {
    Activity(
      a.members + {id},
      WithOrdinal(a.ordinals, id, want.ordinal),
      (set f | f in a.favorites && !(f.device == id && f.command in owned.favorites && f.command !in want.favorites))
        + (set c | c in want.favorites :: Favorite(id, c)),
      map b | b in a.bindings.Keys + want.bindings.Keys
              && (b in want.bindings || !(OursAt(a, id, b) && b in owned.bindings)) ::
        if b in want.bindings then Binding(id, want.bindings[b]) else a.bindings[b])
  }

  function TargetActivity(act: Activity, id: int, a: int, d: Desired, o: Desired): Activity {
    if a in d.activities then TargetRefs(act, id, d.activities[a], OwnedRefs(o, a))
    else if a in o.activities && id in act.members then LeaveActivity(act, id)
    else act
  }

  function TargetDevice(dev: Device, d: Desired, o: Desired): Device {
    Device(d.name, d.brand, Written(d.powerOn, dev.powerOn), Written(d.powerOff, dev.powerOff),
      WrittenInputs(d.inputs, dev.inputs), d.labels,
      map b | b in dev.keys.Keys + d.keys.Keys && (b in d.keys || b !in o.keys) ::
        if b in d.keys then d.keys[b] else dev.keys[b])
  }

  /** Where a complete run ends: desired wins where it speaks, what we deployed and no longer
      want goes, everything else stays as it is on the live hub.  An unset power id and an
      empty input list do not speak: there is no write that clears what the hub holds. */
  function Target(live: Live, d: Desired, o: Desired): Live {
    Live(live.id, TargetDevice(live.device, d, o),
         map a | a in live.activities :: TargetActivity(live.activities[a], live.id, a, d, o))
  }

  // ----------------------------------------------------------------- plan

  predicate Increasing(xs: seq<int>) {
    forall i, j :: 0 <= i < j < |xs| ==> xs[i] < xs[j]
  }

  ghost function AnyOf<T>(s: set<T>): (e: T)
    requires s != {}
    ensures e in s
  {
    var e :| e in s;
    e
  }

  function InsertSorted(xs: seq<int>, e: int): (r: seq<int>)
    requires Increasing(xs) && e !in xs
    ensures Increasing(r)
    ensures forall x :: x in r <==> x == e || x in xs
  {
    if xs == [] || e < xs[0] then [e] + xs
    else
      var rest := InsertSorted(xs[1..], e);
      HeadStaysLeast(xs, e, rest);
      [xs[0]] + rest
  }

  lemma HeadStaysLeast(xs: seq<int>, e: int, rest: seq<int>)
    requires Increasing(xs) && xs != [] && xs[0] < e
    requires forall x :: x in rest <==> x == e || x in xs[1..]
    ensures forall j :: 0 <= j < |rest| ==> xs[0] < rest[j]
    ensures forall x :: x in [xs[0]] + rest <==> x == e || x in xs
  {
    assert xs == [xs[0]] + xs[1..];
    forall x | x in xs[1..] ensures xs[0] < x {
      var k :| 0 <= k < |xs| - 1 && xs[1..][k] == x;
      assert xs[k + 1] == x;
    }
    forall j | 0 <= j < |rest| ensures xs[0] < rest[j] {
      assert rest[j] in rest;
    }
  }

  /** The elements of a finite set in increasing order, as Python's `sorted` lists them. */
  ghost function Sorted(s: set<int>): (r: seq<int>)
    ensures Increasing(r)
    ensures forall x :: x in r <==> x in s
    decreases |s|
  {
    if s == {} then [] else var e := AnyOf(s); InsertSorted(Sorted(s - {e}), e)
  }

  /** Concatenate what each id contributes. */
  ghost function Collect(ids: seq<int>, f: int -> seq<Step>): seq<Step> {
    if ids == [] then [] else Collect(ids[..|ids| - 1], f) + f(ids[|ids| - 1])
  }

  lemma {:induction false} CollectHas(ids: seq<int>, f: int -> seq<Step>, s: Step)
    ensures s in Collect(ids, f) <==> exists i :: 0 <= i < |ids| && s in f(ids[i])
  {
    if ids != [] {
      var n := |ids| - 1;
      CollectHas(ids[..n], f, s);
      assert Collect(ids, f) == Collect(ids[..n], f) + f(ids[n]);
      if s in Collect(ids[..n], f) {
        var i :| 0 <= i < n && s in f(ids[..n][i]);
        assert s in f(ids[i]);
      }
      if i :| 0 <= i < |ids| && s in f(ids[i]) {
        assert i < n ==> s in f(ids[..n][i]);
      }
    }
  }

  /** A batch of steps, one per id of a set, in id order. */
  ghost function ForEach(ids: set<int>, f: int -> seq<Step>): seq<Step> {
    Collect(Sorted(ids), f)
  }

  lemma ForEachHas(ids: set<int>, f: int -> seq<Step>, s: Step)
    ensures s in ForEach(ids, f) <==> exists i :: i in ids && s in f(i)
  {
    var xs := Sorted(ids);
    CollectHas(xs, f, s);
    if s in ForEach(ids, f) {
      var k :| 0 <= k < |xs| && s in f(xs[k]);
      assert xs[k] in ids && s in f(xs[k]);
    }
    if i :| i in ids && s in f(i) {
      assert i in xs;
      var k :| 0 <= k < |xs| && xs[k] == i;
    }
  }

  // What one id contributes to each section of the plan.

  function Adding(have: map<int, string>, want: map<int, string>): int -> seq<Step> {
    c => if c in want && c !in have then [CommandAdd(c, want[c])] else []
  }

  function Renaming(have: map<int, string>, want: map<int, string>): int -> seq<Step> {
    c => if c in want && c in have && have[c] != want[c] then [CommandRename(c, want[c])] else []
  }

  function DeletingCommand(): int -> seq<Step> { c => [CommandDelete(c)] }

  function DeletingKey(): int -> seq<Step> { b => [KeyDelete(b)] }

  function WritingKey(have: map<int, KeyRow>, want: map<int, KeyRow>): int -> seq<Step> {
    b => if b in want && !(b in have && have[b] == want[b]) then [KeyWrite(b, want[b])] else []
  }

  function Replaying(live: Live, d: Desired): int -> seq<Step> {
    a => if a in d.activities && !(Joined(live, a) && OrdinalIn(live.activities[a], live.id) == d.activities[a].ordinal)
         then [MemberReplay(a, InputFor(d, d.activities[a].ordinal))] else []
  }

  function DeletingFavorite(a: int): int -> seq<Step> { c => [FavoriteDelete(a, c)] }

  function AddingFavorite(a: int): int -> seq<Step> { c => [FavoriteAdd(a, c)] }

  function DeletingBinding(a: int): int -> seq<Step> { b => [BindingDelete(a, b)] }

  function WritingBinding(a: int, have: map<int, KeyRow>, want: map<int, KeyRow>): int -> seq<Step> {
    b => if b in want && !(b in have && have[b] == want[b]) then [BindingWrite(a, b, want[b])] else []
  }

  function Leaving(): int -> seq<Step> { a => [MembershipRemove(a)] }

  // The sections.

  ghost function CommandSteps(have: map<int, string>, want: map<int, string>): seq<Step> {
    ForEach(want.Keys - have.Keys, Adding(have, want))
    + ForEach(want.Keys * have.Keys, Renaming(have, want))
    + ForEach(have.Keys - want.Keys, DeletingCommand())
  }

  ghost function KeySteps(have: map<int, KeyRow>, want: map<int, KeyRow>, owned: set<int>): seq<Step> {
    ForEach((owned * have.Keys) - want.Keys, DeletingKey()) + ForEach(want.Keys, WritingKey(have, want))
  }

  function KeptActivities(live: Live, d: Desired): set<int> {
    set a | a in d.activities && Joined(live, a)
  }

  function AddedActivities(live: Live, d: Desired): set<int> {
    set a | a in d.activities && !Joined(live, a)
  }

  ghost function MemberSteps(live: Live, d: Desired): seq<Step> {
    ForEach(KeptActivities(live, d), Replaying(live, d)) + ForEach(AddedActivities(live, d), Replaying(live, d))
  }

  function FavoritesOf(a: Activity, id: int): set<int> {
    set f | f in a.favorites && f.device == id :: f.command
  }

  ghost function DiffFavorites(a: int, have: set<int>, want: set<int>, owned: set<int>): seq<Step> {
    ForEach((owned * have) - want, DeletingFavorite(a)) + ForEach(want - have, AddingFavorite(a))
  }

  function RowsOf(a: Activity, id: int): map<int, KeyRow> {
    map b | b in a.bindings && a.bindings[b].device == id :: a.bindings[b].row
  }

  ghost function DiffBindings(a: int, have: map<int, KeyRow>, want: map<int, KeyRow>, owned: set<int>): seq<Step> {
    ForEach((owned * have.Keys) - want.Keys, DeletingBinding(a)) + ForEach(want.Keys, WritingBinding(a, have, want))
  }

  /** One activity's favorite diff: against the live rows when the device is a member,
      against nothing when it is about to join. */
  ghost function FavoriteDiffAt(live: Live, d: Desired, o: Desired): int -> seq<Step> {
    a => if a !in d.activities then []
         else if Joined(live, a)
         then DiffFavorites(a, FavoritesOf(live.activities[a], live.id), d.activities[a].favorites,
             OwnedRefs(o, a).favorites)
         else DiffFavorites(a, {}, d.activities[a].favorites, {})
  }

  ghost function BindingDiffAt(live: Live, d: Desired, o: Desired): int -> seq<Step> {
    a => if a !in d.activities then []
         else if Joined(live, a)
         then DiffBindings(a, RowsOf(live.activities[a], live.id), d.activities[a].bindings,
             OwnedRefs(o, a).bindings.Keys)
         else DiffBindings(a, map[], d.activities[a].bindings, {})
  }

  ghost function FavoriteSteps(live: Live, d: Desired, o: Desired): seq<Step> {
    ForEach(KeptActivities(live, d), FavoriteDiffAt(live, d, o))
    + ForEach(AddedActivities(live, d), FavoriteDiffAt(live, d, o))
  }

  ghost function BindingSteps(live: Live, d: Desired, o: Desired): seq<Step> {
    ForEach(KeptActivities(live, d), BindingDiffAt(live, d, o))
    + ForEach(AddedActivities(live, d), BindingDiffAt(live, d, o))
  }

  function LeftActivities(live: Live, d: Desired, o: Desired): set<int> {
    set a | a in o.activities && a !in d.activities && Joined(live, a)
  }

  function PowerSteps(live: Live, d: Desired): seq<Step> {
    if (live.device.powerOn, live.device.powerOff) != (d.powerOn, d.powerOff)
    then [PowerConfig(d.powerOn, d.powerOff)] else []
  }

  function InputSteps(live: Live, d: Desired): seq<Step> {
    if live.device.inputs != d.inputs then [InputConfig(d.inputs)] else []
  }

  function HeadSteps(live: Live, d: Desired): seq<Step> {
    if live.device.name != d.name || live.device.brand != d.brand then [HeadCommit(d.name, d.brand)] else []
  }

  ghost function DeviceSteps(live: Live, d: Desired, o: Desired): seq<Step> {
    CommandSteps(live.device.labels, d.labels) + PowerSteps(live, d) + InputSteps(live, d)
    + KeySteps(live.device.keys, d.keys, o.keys.Keys)
  }

  ghost function ActivitySteps(live: Live, d: Desired, o: Desired): seq<Step> {
    MemberSteps(live, d) + FavoriteSteps(live, d, o) + BindingSteps(live, d, o)
    + ForEach(LeftActivities(live, d, o), Leaving())
  }

  /** Executor order: records, power, inputs and device keys first, then the activities,
      the head with the brand hash last. */
  ghost function PlanSteps(live: Live, d: Desired, o: Desired): seq<Step> {
    DeviceSteps(live, d, o) + ActivitySteps(live, d, o) + HeadSteps(live, d)
  }

  datatype Plan = Fallback | Steps(steps: seq<Step>)

  /** `build_wifi_inplace_plan` with the deployed expansion as ownership scope. */
  ghost function PlanOf(live: Live, d: Desired, o: Desired): Plan {
    if exists a :: a in live.activities && LastMember(live, d, o, a) then Fallback
    else Steps(PlanSteps(live, d, o))
  }

  // ------------------------------------- the plan is exactly what is needed

  lemma CommandStepsHas(have: map<int, string>, want: map<int, string>, s: Step)
    ensures s in CommandSteps(have, want) <==>
      (match s
       case CommandAdd(c, text) => c in want && c !in have && text == want[c]
       case CommandRename(c, text) => c in want && c in have && have[c] != want[c] && text == want[c]
       case CommandDelete(c) => c in have && c !in want
       case _ => false)
  {
    ForEachHas(want.Keys - have.Keys, Adding(have, want), s);
    ForEachHas(want.Keys * have.Keys, Renaming(have, want), s);
    ForEachHas(have.Keys - want.Keys, DeletingCommand(), s);
    match s
    case CommandAdd(c, text) => assert s in Adding(have, want)(c) <==> c in want && c !in have && text == want[c];
    case CommandRename(c, text) =>
      assert s in Renaming(have, want)(c) <==> c in want && c in have && have[c] != want[c] && text == want[c];
    case CommandDelete(c) => assert s in DeletingCommand()(c);
    case _ =>
  }

  lemma KeyStepsHas(have: map<int, KeyRow>, want: map<int, KeyRow>, owned: set<int>, s: Step)
    ensures s in KeySteps(have, want, owned) <==>
      (match s
       case KeyDelete(b) => b in have && b in owned && b !in want
       case KeyWrite(b, row) => b in want && !(b in have && have[b] == want[b]) && row == want[b]
       case _ => false)
  {
    ForEachHas((owned * have.Keys) - want.Keys, DeletingKey(), s);
    ForEachHas(want.Keys, WritingKey(have, want), s);
    match s
    case KeyDelete(b) => assert s in DeletingKey()(b);
    case KeyWrite(b, row) =>
      assert b in want && !(b in have && have[b] == want[b]) && row == want[b] ==> s in WritingKey(have, want)(b);
    case _ =>
  }

  lemma DiffFavoritesHas(a: int, have: set<int>, want: set<int>, owned: set<int>, s: Step)
    ensures s in DiffFavorites(a, have, want, owned) <==>
      (match s
       case FavoriteDelete(x, c) => x == a && c in have && c in owned && c !in want
       case FavoriteAdd(x, c) => x == a && c in want && c !in have
       case _ => false)
  {
    ForEachHas((owned * have) - want, DeletingFavorite(a), s);
    ForEachHas(want - have, AddingFavorite(a), s);
    match s
    case FavoriteDelete(x, c) => assert x == a ==> s in DeletingFavorite(a)(c);
    case FavoriteAdd(x, c) => assert x == a ==> s in AddingFavorite(a)(c);
    case _ =>
  }

  lemma DiffBindingsHas(a: int, have: map<int, KeyRow>, want: map<int, KeyRow>, owned: set<int>, s: Step)
    ensures s in DiffBindings(a, have, want, owned) <==>
      (match s
       case BindingDelete(x, b) => x == a && b in have && b in owned && b !in want
       case BindingWrite(x, b, row) =>
         x == a && b in want && !(b in have && have[b] == want[b]) && row == want[b]
       case _ => false)
  {
    ForEachHas((owned * have.Keys) - want.Keys, DeletingBinding(a), s);
    ForEachHas(want.Keys, WritingBinding(a, have, want), s);
    match s
    case BindingDelete(x, b) => assert x == a ==> s in DeletingBinding(a)(b);
    case BindingWrite(x, b, row) =>
      assert x == a && b in want && !(b in have && have[b] == want[b]) && row == want[b]
        ==> s in WritingBinding(a, have, want)(b);
    case _ =>
  }

  lemma OverKeptAndAdded(live: Live, d: Desired, f: int -> seq<Step>, s: Step)
    ensures s in ForEach(KeptActivities(live, d), f) + ForEach(AddedActivities(live, d), f)
       <==> exists a :: a in d.activities && s in f(a)
  {
    ForEachHas(KeptActivities(live, d), f, s);
    ForEachHas(AddedActivities(live, d), f, s);
    if a :| a in d.activities && s in f(a) {
      assert a in KeptActivities(live, d) || a in AddedActivities(live, d);
    }
  }

  lemma FavoriteStepsHas(live: Live, d: Desired, o: Desired, s: Step)
    ensures s in FavoriteSteps(live, d, o) <==> (s.FavoriteAdd? || s.FavoriteDelete?) && Needs(s, live, d, o)
  {
    OverKeptAndAdded(live, d, FavoriteDiffAt(live, d, o), s);
    forall a | a in d.activities
      ensures s in FavoriteDiffAt(live, d, o)(a)
         <==> (s.FavoriteAdd? || s.FavoriteDelete?) && s.activity == a && Needs(s, live, d, o)
    {
      if Joined(live, a) {
        DiffFavoritesHas(a, FavoritesOf(live.activities[a], live.id), d.activities[a].favorites,
            OwnedRefs(o, a).favorites, s);
        FavoritesOfHas(live.activities[a], live.id);
      } else {
        DiffFavoritesHas(a, {}, d.activities[a].favorites, {}, s);
      }
    }
  }

  lemma FavoritesOfHas(a: Activity, id: int)
    ensures forall c :: c in FavoritesOf(a, id) <==> Favorite(id, c) in a.favorites
  {
    forall c | Favorite(id, c) in a.favorites ensures c in FavoritesOf(a, id) {
      assert Favorite(id, c).command == c;
    }
  }

  lemma BindingStepsHas(live: Live, d: Desired, o: Desired, s: Step)
    ensures s in BindingSteps(live, d, o) <==> (s.BindingWrite? || s.BindingDelete?) && Needs(s, live, d, o)
  {
    OverKeptAndAdded(live, d, BindingDiffAt(live, d, o), s);
    forall a | a in d.activities
      ensures s in BindingDiffAt(live, d, o)(a)
         <==> (s.BindingWrite? || s.BindingDelete?) && s.activity == a && Needs(s, live, d, o)
    {
      if Joined(live, a) {
        DiffBindingsHas(a, RowsOf(live.activities[a], live.id), d.activities[a].bindings,
            OwnedRefs(o, a).bindings.Keys, s);
      } else {
        DiffBindingsHas(a, map[], d.activities[a].bindings, {}, s);
      }
    }
  }

  lemma MemberStepsHas(live: Live, d: Desired, o: Desired, s: Step)
    ensures s in MemberSteps(live, d) <==> s.MemberReplay? && Needs(s, live, d, o)
  {
    OverKeptAndAdded(live, d, Replaying(live, d), s);
    forall a | a in d.activities
      ensures s in Replaying(live, d)(a) <==> s.MemberReplay? && s.activity == a && Needs(s, live, d, o)
    {
    }
  }

  lemma LeaveStepsHas(live: Live, d: Desired, o: Desired, s: Step)
    ensures s in ForEach(LeftActivities(live, d, o), Leaving()) <==> s.MembershipRemove? && Needs(s, live, d, o)
  {
    ForEachHas(LeftActivities(live, d, o), Leaving(), s);
    if s.MembershipRemove? { assert s in Leaving()(s.activity); }
  }

  lemma PowerStepsHas(live: Live, d: Desired, o: Desired, s: Step)
    ensures s in PowerSteps(live, d) <==> s.PowerConfig? && Needs(s, live, d, o)
  {
  }

  lemma InputStepsHas(live: Live, d: Desired, o: Desired, s: Step)
    ensures s in InputSteps(live, d) <==> s.InputConfig? && Needs(s, live, d, o)
  {
  }

  lemma CommandStepsNeed(live: Live, d: Desired, o: Desired, s: Step)
    ensures s in CommandSteps(live.device.labels, d.labels)
       <==> (s.CommandAdd? || s.CommandRename? || s.CommandDelete?) && Needs(s, live, d, o)
  {
    CommandStepsHas(live.device.labels, d.labels, s);
  }

  lemma KeyStepsNeed(live: Live, d: Desired, o: Desired, s: Step)
    ensures s in KeySteps(live.device.keys, d.keys, o.keys.Keys)
       <==> (s.KeyDelete? || s.KeyWrite?) && Needs(s, live, d, o)
  {
    KeyStepsHas(live.device.keys, d.keys, o.keys.Keys, s);
  }

  lemma InFourIff<T>(a: seq<T>, b: seq<T>, c: seq<T>, d: seq<T>, x: T)
    ensures x in a + b + c + d <==> x in a || x in b || x in c || x in d
  {
  }

  lemma DeviceStepsHas(live: Live, d: Desired, o: Desired, s: Step)
    ensures s in DeviceSteps(live, d, o) <==> !OnActivity(s) && !s.HeadCommit? && Needs(s, live, d, o)
  {
    InFourIff(CommandSteps(live.device.labels, d.labels), PowerSteps(live, d), InputSteps(live, d),
              KeySteps(live.device.keys, d.keys, o.keys.Keys), s);
    CommandStepsNeed(live, d, o, s);
    KeyStepsNeed(live, d, o, s);
    PowerStepsHas(live, d, o, s);
    InputStepsHas(live, d, o, s);
  }

  lemma ActivityStepsHas(live: Live, d: Desired, o: Desired, s: Step)
    ensures s in ActivitySteps(live, d, o) <==> OnActivity(s) && Needs(s, live, d, o)
  {
    InFourIff(MemberSteps(live, d), FavoriteSteps(live, d, o), BindingSteps(live, d, o),
              ForEach(LeftActivities(live, d, o), Leaving()), s);
    MemberStepsHas(live, d, o, s);
    FavoriteStepsHas(live, d, o, s);
    BindingStepsHas(live, d, o, s);
    LeaveStepsHas(live, d, o, s);
  }

  /** The plan holds a step exactly when the live hub needs it. */
  lemma PlanHas(live: Live, d: Desired, o: Desired, s: Step)
    ensures s in PlanSteps(live, d, o) <==> Needs(s, live, d, o)
  {
    DeviceStepsHas(live, d, o, s);
    ActivityStepsHas(live, d, o, s);
    assert s in HeadSteps(live, d) <==> s.HeadCommit? && Needs(s, live, d, o);
  }
}
