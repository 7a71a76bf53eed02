/** Running in-place plans: every complete run ends in the target, and so does every run
    that was interrupted and planned again on whatever the hub held by then. */
module InplaceRun {
  import opened Text
  import opened InplacePlan

  /** The step writes what the desired configuration asks for at its place; either row of a
      power step may be missing. */
  predicate Wanted(s: Step, d: Desired, o: Desired) {
    match s
    case CommandAdd(c, text) => c in d.labels && text == d.labels[c]
    case CommandRename(c, text) => c in d.labels && text == d.labels[c]
    case CommandDelete(c) => c !in d.labels
    case PowerConfig(on, off) => (on.None? || on == d.powerOn) && (off.None? || off == d.powerOff)
    case InputConfig(inputs) => inputs == d.inputs
    case KeyDelete(b) => b in o.keys && b !in d.keys
    case KeyWrite(b, row) => b in d.keys && row == d.keys[b]
    case MemberReplay(a, input) => a in d.activities && input == InputFor(d, d.activities[a].ordinal)
    case FavoriteDelete(a, c) =>
      a in d.activities && c in OwnedRefs(o, a).favorites && c !in d.activities[a].favorites
    case FavoriteAdd(a, c) => a in d.activities && c in d.activities[a].favorites
    case BindingDelete(a, b) =>
      a in d.activities && b in OwnedRefs(o, a).bindings && b !in d.activities[a].bindings
    case BindingWrite(a, b, row) =>
      a in d.activities && b in d.activities[a].bindings && row == d.activities[a].bindings[b]
    case MembershipRemove(a) => a in o.activities && a !in d.activities
    case HeadCommit(name, brand) => name == d.name && brand == d.brand
  }

  /** A button about to be cleared is not driven by another device. */
  predicate NotForeign(s: Step, live: Live) {
    s.BindingDelete? && s.activity in live.activities ==> NotForeignIn(s, live.activities[s.activity], live.id)
  }

  predicate NotForeignIn(s: Step, act: Activity, id: int)
    requires s.BindingDelete?
  {
    s.button in act.bindings ==> act.bindings[s.button].device == id
  }

  /** A device that is no member of an activity has no reference in it but wanted ones. */
  ghost predicate NoStray(live: Live, d: Desired) {
    forall a :: a in live.activities && live.id !in live.activities[a].members ==>
      NoStrayIn(live.activities[a], live.id, a, d)
  }

  ghost predicate NoStrayIn(act: Activity, id: int, a: int, d: Desired) {
    && (a !in d.activities ==> id !in act.ordinals)
    && (forall c :: Favorite(id, c) in act.favorites ==> a in d.activities && c in d.activities[a].favorites)
    && (forall b :: b in act.bindings && act.bindings[b].device == id ==>
          a in d.activities && b in d.activities[a].bindings)
  }

  /** What every configuration expansion guarantees, and the activities it names exist. */
  predicate Reachable(live: Live, d: Desired) {
    && (forall i, j :: 0 <= i < j < |d.inputs| ==> d.inputs[i] != d.inputs[j])
    && (forall a :: a in d.activities ==> d.activities[a].ordinal <= |d.inputs|)
    && d.activities.Keys <= live.activities.Keys
  }

  ghost predicate Ready(live: Live, d: Desired) {
    Reachable(live, d) && NoStray(live, d)
  }

  // ------------------------------------------------------------- one step

  lemma {:induction false} PositionOfDistinct(xs: seq<int>, k: nat)
    requires k < |xs| && forall i, j :: 0 <= i < j < |xs| ==> xs[i] != xs[j]
    ensures PositionOf(xs, xs[k]) == k + 1
  {
    if k > 0 {
      assert xs[1..][k - 1] == xs[k];
      PositionOfDistinct(xs[1..], k - 1);
    }
  }

  /** The input list members are replayed against; with none wanted no ordinal needs one. */
  predicate InputsReady(wanted: seq<int>, held: seq<int>) { wanted == [] || held == wanted }

  lemma ReplayedOrdinal(d: Desired, n: nat, held: seq<int>)
    requires n <= |d.inputs| && forall i, j :: 0 <= i < j < |d.inputs| ==> d.inputs[i] != d.inputs[j]
    requires InputsReady(d.inputs, held)
    ensures ResolvedOrdinal(InputFor(d, n), held) == n
  {
    if n > 0 { PositionOfDistinct(d.inputs, n - 1); }
  }

  /** The step may run now: it is wanted, clears no foreign button, replays a member only
      once the device's input list is the desired one, and adds references only where the
      device is a member. */
  ghost predicate MayRun(s: Step, live: Live, d: Desired, o: Desired) {
    && Wanted(s, d, o) && NotForeign(s, live)
    && (s.MemberReplay? ==> InputsReady(d.inputs, live.device.inputs))
    && (s.FavoriteAdd? || s.BindingWrite? ==> Joined(live, s.activity))
  }

  lemma StepKeepsTargetBindings(s: Step, act: Activity, id: int, inputs: seq<int>, a: int, d: Desired, o: Desired)
    requires OnActivity(s) && s.activity == a && Wanted(s, d, o)
    requires s.BindingDelete? ==> NotForeignIn(s, act, id)
    requires id !in act.members ==> NoStrayIn(act, id, a, d)
    ensures TargetActivity(ApplyToActivity(s, act, id, inputs), id, a, d, o).bindings
       == TargetActivity(act, id, a, d, o).bindings
  {
    var after := ApplyToActivity(s, act, id, inputs);
    if s.MembershipRemove? && id !in act.members {
      assert forall b :: b in act.bindings ==> act.bindings[b].device != id;
      assert after.bindings == act.bindings;
    }
  }

  /** On the activity it writes, a wanted step moves nothing the target fixes. */
  lemma ActivityStepKeepsTarget(s: Step, act: Activity, id: int, inputs: seq<int>, a: int, d: Desired, o: Desired)
    requires OnActivity(s) && s.activity == a && Wanted(s, d, o)
    requires s.MemberReplay? ==> ResolvedOrdinal(s.input, inputs) == d.activities[a].ordinal
    requires s.BindingDelete? ==> NotForeignIn(s, act, id)
    requires id !in act.members ==> NoStrayIn(act, id, a, d)
    ensures TargetActivity(ApplyToActivity(s, act, id, inputs), id, a, d, o) == TargetActivity(act, id, a, d, o)
  {
    StepKeepsTargetBindings(s, act, id, inputs, a, d, o);
    var t, t' := TargetActivity(act, id, a, d, o), TargetActivity(ApplyToActivity(s, act, id, inputs), id, a, d, o);
    assert t'.members == t.members;
    assert t'.ordinals == t.ordinals;
    assert t'.favorites == t.favorites;
  }

  lemma OnActivityKeepsTarget(s: Step, live: Live, d: Desired, o: Desired)
    requires Ready(live, d) && MayRun(s, live, d, o) && OnActivity(s) && s.activity in live.activities
    ensures var act := live.activities[s.activity];
      TargetActivity(ApplyToActivity(s, act, live.id, live.device.inputs), live.id, s.activity, d, o)
      == TargetActivity(act, live.id, s.activity, d, o)
  {
    var act := live.activities[s.activity];
    if s.MemberReplay? { ReplayedOrdinal(d, d.activities[s.activity].ordinal, live.device.inputs); }
    if live.id !in act.members { assert NoStrayIn(act, live.id, s.activity, d); }
    ActivityStepKeepsTarget(s, act, live.id, live.device.inputs, s.activity, d, o);
  }

  lemma OnDeviceKeepsTarget(s: Step, live: Live, d: Desired, o: Desired)
    requires Ready(live, d) && MayRun(s, live, d, o) && !OnActivity(s)
    ensures Target(Apply(s, live), d, o) == Target(live, d, o)
  {
    assert TargetDevice(Apply(s, live).device, d, o).keys == TargetDevice(live.device, d, o).keys;
  }

  lemma OneActivityKeepsTarget(live: Live, a: int, after: Activity, d: Desired, o: Desired)
    requires a in live.activities
    requires TargetActivity(after, live.id, a, d, o) == TargetActivity(live.activities[a], live.id, a, d, o)
    ensures Target(live.(activities := live.activities[a := after]), d, o) == Target(live, d, o)
  {
    assert Target(live.(activities := live.activities[a := after]), d, o).activities == Target(live, d, o).activities;
  }

  lemma StepKeepsTarget(s: Step, live: Live, d: Desired, o: Desired)
    requires Ready(live, d) && MayRun(s, live, d, o)
    ensures Target(Apply(s, live), d, o) == Target(live, d, o)
  {
    if !OnActivity(s) {
      OnDeviceKeepsTarget(s, live, d, o);
    } else if s.activity in live.activities {
      var act := live.activities[s.activity];
      OnActivityKeepsTarget(s, live, d, o);
      OneActivityKeepsTarget(live, s.activity, ApplyToActivity(s, act, live.id, live.device.inputs), d, o);
    }
  }

  // -------------------------------------------------------- fewer needs

  lemma OtherNeedsStay(s: Step, t: Step, live: Live, d: Desired, o: Desired)
    requires OnActivity(s) && OnActivity(t) && t.activity != s.activity && Needs(t, Apply(s, live), d, o)
    ensures Needs(t, live, d, o)
  {
  }

  /** After a step on an activity, what that activity still needs it needed before, and
      not the step itself. */
  lemma ActivityNeedsShrink(s: Step, t: Step, live: Live, d: Desired, o: Desired)
    requires Ready(live, d) && MayRun(s, live, d, o) && OnActivity(s) && OnActivity(t)
    requires s.activity == t.activity && s.activity in live.activities && Needs(t, Apply(s, live), d, o)
    ensures Needs(t, live, d, o) && t != s
  {
    var a := s.activity;
    if s.MemberReplay? { ReplayedOrdinal(d, d.activities[a].ordinal, live.device.inputs); }
    if live.id !in live.activities[a].members { assert NoStrayIn(live.activities[a], live.id, a, d); }
  }

  /** The step writes nothing the device does not hold already. */
  predicate Idle(t: Step, dev: Device) { !OnActivity(t) && ApplyToDevice(t, dev) == dev }

  lemma CrossNeedsStay(s: Step, t: Step, live: Live, d: Desired, o: Desired)
    requires OnActivity(s) != OnActivity(t) && Needs(t, Apply(s, live), d, o)
    ensures Needs(t, live, d, o)
  {
  }

  lemma DeviceNeedsShrink(s: Step, t: Step, live: Live, d: Desired, o: Desired)
    requires Wanted(s, d, o) && !OnActivity(s) && !OnActivity(t) && Needs(t, Apply(s, live), d, o)
    ensures Needs(t, live, d, o) && (t == s ==> Idle(t, Apply(s, live).device))
  {
  }

  /** Executing a step creates no need, and the step itself is needed no longer unless
      executing it again would do nothing: a clearing the hub has no write for. */
  lemma NeedsShrink(s: Step, t: Step, live: Live, d: Desired, o: Desired)
    requires Ready(live, d) && MayRun(s, live, d, o) && Needs(t, Apply(s, live), d, o)
    ensures Needs(t, live, d, o) && (t == s ==> Idle(t, Apply(s, live).device))
  {
    if OnActivity(s) != OnActivity(t) {
      CrossNeedsStay(s, t, live, d, o);
    } else if !OnActivity(s) {
      DeviceNeedsShrink(s, t, live, d, o);
    } else if s.activity == t.activity {
      assert s.activity in live.activities;
      ActivityNeedsShrink(s, t, live, d, o);
    } else {
      OtherNeedsStay(s, t, live, d, o);
    }
  }

  lemma StepKeepsReady(s: Step, live: Live, d: Desired, o: Desired)
    requires Ready(live, d) && MayRun(s, live, d, o)
    ensures Ready(Apply(s, live), d)
    ensures InputsReady(d.inputs, live.device.inputs) || s.InputConfig? ==>
        InputsReady(d.inputs, Apply(s, live).device.inputs)
  {
    var after := Apply(s, live);
    forall a | a in after.activities && after.id !in after.activities[a].members
      ensures NoStrayIn(after.activities[a], after.id, a, d)
    {
      if live.id !in live.activities[a].members {
        assert NoStrayIn(live.activities[a], live.id, a, d);
      }
    }
  }

  lemma StepKeepsNotForeign(s: Step, t: Step, live: Live)
    requires NotForeign(t, live)
    ensures NotForeign(t, Apply(s, live))
  {
  }

  lemma StepKeepsJoined(s: Step, live: Live, a: int, d: Desired, o: Desired)
    requires Wanted(s, d, o) && a in d.activities && a in live.activities
    requires Joined(live, a) || (s.MemberReplay? && s.activity == a)
    ensures Joined(Apply(s, live), a)
  {
  }

  // ----------------------------------------------------------- step order

  predicate AddsRefs(s: Step) { s.FavoriteAdd? || s.BindingWrite? }

  /** Members are replayed only after the input list is set, and references are added only
      to activities the device belongs to by then. */
  ghost predicate Ordered(steps: seq<Step>, inputsSet: bool, joined: set<int>)
    decreases steps
  {
    steps == [] ||
    (&& (steps[0].MemberReplay? ==> inputsSet)
     && (AddsRefs(steps[0]) ==> steps[0].activity in joined)
     && Ordered(steps[1..], inputsSet || steps[0].InputConfig?, joined + Replayed(steps[..1])))
  }

  function Replayed(steps: seq<Step>): set<int> {
    set s | s in steps && s.MemberReplay? :: s.activity
  }

  predicate SetsInputs(steps: seq<Step>) { exists s :: s in steps && s.InputConfig? }

  lemma {:induction false} OrderedMore(steps: seq<Step>, f: bool, j: set<int>, f': bool, j': set<int>)
    requires Ordered(steps, f, j) && (f ==> f') && j <= j'
    ensures Ordered(steps, f', j')
    decreases steps
  {
    if steps != [] {
      OrderedMore(steps[1..], f || steps[0].InputConfig?, j + Replayed(steps[..1]),
                  f' || steps[0].InputConfig?, j' + Replayed(steps[..1]));
    }
  }

  lemma {:induction false} OrderedAppend(xs: seq<Step>, ys: seq<Step>, f: bool, j: set<int>)
    requires Ordered(xs, f, j) && Ordered(ys, f || SetsInputs(xs), j + Replayed(xs))
    ensures Ordered(xs + ys, f, j)
    decreases xs
  {
    if xs == [] {
      assert xs + ys == ys;
      assert j + Replayed(xs) == j;
    } else {
      var rest := xs[1..];
      assert xs == [xs[0]] + rest;
      assert (xs + ys)[1..] == rest + ys && (xs + ys)[..1] == xs[..1];
      assert SetsInputs(xs) ==> xs[0].InputConfig? || SetsInputs(rest);
      assert Replayed(xs) <= Replayed(xs[..1]) + Replayed(rest) by {
        forall a | a in Replayed(xs) ensures a in Replayed(xs[..1]) + Replayed(rest) {
          var s :| s in xs && s.MemberReplay? && s.activity == a;
          assert s in xs[..1] || s in rest;
        }
      }
      OrderedMore(ys, f || SetsInputs(xs), j + Replayed(xs),
                  (f || xs[0].InputConfig?) || SetsInputs(rest), (j + Replayed(xs[..1])) + Replayed(rest));
      OrderedAppend(rest, ys, f || xs[0].InputConfig?, j + Replayed(xs[..1]));
    }
  }

  /** Steps that replay no member and add no reference may come at any time. */
  lemma {:induction false} OrderedQuiet(steps: seq<Step>, f: bool, j: set<int>)
    requires forall s :: s in steps ==> (s.MemberReplay? ==> f) && (AddsRefs(s) ==> s.activity in j)
    ensures Ordered(steps, f, j)
    decreases steps
  {
    if steps != [] {
      assert steps[0] in steps;
      assert forall s :: s in steps[1..] ==> s in steps;
      OrderedQuiet(steps[1..], f || steps[0].InputConfig?, j + Replayed(steps[..1]));
    }
  }

  lemma {:induction false} OrderedPrefix(steps: seq<Step>, k: nat, f: bool, j: set<int>)
    requires k <= |steps| && Ordered(steps, f, j)
    ensures Ordered(steps[..k], f, j)
    decreases steps
  {
    if k > 0 {
      assert steps[..k][1..] == steps[1..][..k - 1] && steps[..k][..1] == steps[..1];
      OrderedPrefix(steps[1..], k - 1, f || steps[0].InputConfig?, j + Replayed(steps[..1]));
    }
  }

  ghost function RefSteps(live: Live, d: Desired, o: Desired): seq<Step> {
    FavoriteSteps(live, d, o) + BindingSteps(live, d, o) + ForEach(LeftActivities(live, d, o), Leaving())
  }

  lemma InThree<T>(a: seq<T>, b: seq<T>, c: seq<T>, x: T)
    requires x in a + b + c
    ensures x in a || x in b || x in c
  {
  }

  lemma NeededRefIsWanted(s: Step, live: Live, d: Desired, o: Desired)
    requires Needs(s, live, d, o) && AddsRefs(s)
    ensures s.activity in d.activities
  {
  }

  lemma RefStepIs(live: Live, d: Desired, o: Desired, s: Step)
    requires s in RefSteps(live, d, o)
    ensures !s.MemberReplay? && (AddsRefs(s) ==> s.activity in d.activities)
  {
    InThree(FavoriteSteps(live, d, o), BindingSteps(live, d, o), ForEach(LeftActivities(live, d, o), Leaving()), s);
    RefStepNeeds(live, d, o, s);
    if AddsRefs(s) { NeededRefIsWanted(s, live, d, o); }
  }

  lemma RefStepNeeds(live: Live, d: Desired, o: Desired, s: Step)
    requires s in FavoriteSteps(live, d, o) || s in BindingSteps(live, d, o)
             || s in ForEach(LeftActivities(live, d, o), Leaving())
    ensures !s.MemberReplay? && Needs(s, live, d, o)
  {
    if s in FavoriteSteps(live, d, o) {
      FavoriteStepsHas(live, d, o, s);
    } else if s in BindingSteps(live, d, o) {
      BindingStepsHas(live, d, o, s);
    } else {
      LeaveStepsHas(live, d, o, s);
    }
  }

  lemma RefStepsOrdered(live: Live, d: Desired, o: Desired, f: bool, j: set<int>)
    requires forall a :: a in d.activities ==> a in j
    ensures Ordered(RefSteps(live, d, o), f, j)
  {
    var refs := RefSteps(live, d, o);
    forall s | s in refs ensures !s.MemberReplay? && (AddsRefs(s) ==> s.activity in j) {
      RefStepIs(live, d, o, s);
    }
    OrderedQuiet(refs, f, j);
  }

  lemma ConcatRegroups<T>(a: seq<T>, b: seq<T>, c: seq<T>, d: seq<T>)
    ensures a + b + c + d == a + (b + c + d)
  {
  }

  lemma ActivityStepsParts(live: Live, d: Desired, o: Desired)
    ensures ActivitySteps(live, d, o) == MemberSteps(live, d) + RefSteps(live, d, o)
  {
    ConcatRegroups(MemberSteps(live, d), FavoriteSteps(live, d, o), BindingSteps(live, d, o),
                   ForEach(LeftActivities(live, d, o), Leaving()));
  }

  lemma MembersAreOrdered(live: Live, d: Desired, o: Desired, j: set<int>)
    ensures Ordered(MemberSteps(live, d), true, j)
  {
    forall s | s in MemberSteps(live, d) ensures s.MemberReplay? {
      MemberStepsHas(live, d, o, s);
    }
    OrderedQuiet(MemberSteps(live, d), true, j);
  }

  lemma ActivityStepsOrdered(live: Live, d: Desired, o: Desired, j: set<int>)
    requires KeptActivities(live, d) <= j
    ensures Ordered(ActivitySteps(live, d, o), true, j)
  {
    var members, refs := MemberSteps(live, d), RefSteps(live, d, o);
    MembersAreOrdered(live, d, o, j);
    forall a | a in d.activities ensures a in j + Replayed(members) {
      EveryWantedActivityJoins(live, d, o, a);
    }
    RefStepsOrdered(live, d, o, true || SetsInputs(members), j + Replayed(members));
    OrderedAppend(members, refs, true, j);
    ActivityStepsParts(live, d, o);
  }

  lemma DeviceStepsOrdered(live: Live, d: Desired, o: Desired, f: bool, j: set<int>)
    ensures Ordered(DeviceSteps(live, d, o), f, j)
  {
    forall s | s in DeviceSteps(live, d, o) ensures !s.MemberReplay? && !AddsRefs(s) {
      DeviceStepsHas(live, d, o, s);
    }
    OrderedQuiet(DeviceSteps(live, d, o), f, j);
  }

  lemma ThreeParts(xs: seq<Step>, ys: seq<Step>, zs: seq<Step>, f: bool, j: set<int>)
    requires Ordered(xs, f, j) && (f || SetsInputs(xs)) && Ordered(ys, true, j + Replayed(xs))
    requires forall s :: s in zs ==> !s.MemberReplay? && !AddsRefs(s)
    ensures Ordered(xs + ys + zs, f, j)
  {
    OrderedAppend(xs, ys, f, j);
    OrderedQuiet(zs, f || SetsInputs(xs + ys), j + Replayed(xs + ys));
    OrderedAppend(xs + ys, zs, f, j);
  }

  lemma HeadIsQuiet(live: Live, d: Desired)
    ensures forall s :: s in HeadSteps(live, d) ==> s.HeadCommit?
  {
  }

  lemma PlanIsOrdered(live: Live, d: Desired, o: Desired)
    ensures Ordered(PlanSteps(live, d, o), InputsReady(d.inputs, live.device.inputs), KeptActivities(live, d))
  {
    var f, j := InputsReady(d.inputs, live.device.inputs), KeptActivities(live, d);
    var device, acts, head := DeviceSteps(live, d, o), ActivitySteps(live, d, o), HeadSteps(live, d);
    assert Ordered(device, f, j) by { DeviceStepsOrdered(live, d, o, f, j); }
    assert f || SetsInputs(device) by { InputsGetSet(live, d, o); }
    assert Ordered(acts, true, j + Replayed(device)) by {
      ActivityStepsOrdered(live, d, o, j + Replayed(device));
    }
    HeadIsQuiet(live, d);
    ThreeParts(device, acts, head, f, j);
  }

  lemma InputsGetSet(live: Live, d: Desired, o: Desired)
    ensures InputsReady(d.inputs, live.device.inputs) || SetsInputs(DeviceSteps(live, d, o))
  {
    var s := InputConfig(d.inputs);
    DeviceStepsHas(live, d, o, s);
  }

  lemma EveryWantedActivityJoins(live: Live, d: Desired, o: Desired, a: int)
    requires a in d.activities
    ensures a in KeptActivities(live, d) + Replayed(MemberSteps(live, d))
  {
    if !Joined(live, a) {
      var s := MemberReplay(a, InputFor(d, d.activities[a].ordinal));
      MemberStepsHas(live, d, o, s);
      assert s in MemberSteps(live, d);
    }
  }

  // ---------------------------------------------------------- whole runs

  /** A step list planned for this hub, or what is left of one. */
  ghost predicate Runnable(steps: seq<Step>, live: Live, d: Desired, o: Desired, joined: set<int>) {
    && (forall s :: s in steps ==> Wanted(s, d, o) && NotForeign(s, live))
    && Ordered(steps, InputsReady(d.inputs, live.device.inputs), joined)
    && forall a :: a in joined ==> a in d.activities && Joined(live, a)
  }

  /** Every need is met by one of the steps or beyond what the executor can write. */
  ghost predicate Covers(steps: seq<Step>, live: Live, d: Desired, o: Desired) {
    forall t :: Needs(t, live, d, o) ==> t in steps || Idle(t, live.device)
  }

  ghost predicate AtRest(live: Live, d: Desired, o: Desired) { Covers([], live, d, o) }

  lemma RestCovers(steps: seq<Step>, live: Live, d: Desired, o: Desired)
    requires steps != [] && Ready(live, d) && MayRun(steps[0], live, d, o) && Covers(steps, live, d, o)
    ensures Covers(steps[1..], Apply(steps[0], live), d, o)
  {
    var s, next := steps[0], Apply(steps[0], live);
    forall t | Needs(t, next, d, o) ensures t in steps[1..] || Idle(t, next.device) {
      NeedsShrink(s, t, live, d, o);
      if Idle(t, live.device) { IdleStaysIdle(s, t, live, d, o); }
    }
  }

  lemma {:induction false} RunKeepsTarget(steps: seq<Step>, live: Live, d: Desired, o: Desired, joined: set<int>)
    requires Ready(live, d) && Runnable(steps, live, d, o, joined)
    ensures Ready(ApplyAll(steps, live), d)
    ensures Target(ApplyAll(steps, live), d, o) == Target(live, d, o)
    ensures Covers(steps, live, d, o) ==> AtRest(ApplyAll(steps, live), d, o)
    decreases steps
  {
    if steps != [] {
      var s, rest, next := steps[0], steps[1..], Apply(steps[0], live);
      assert s in steps;
      StepKeepsTarget(s, live, d, o);
      StepKeepsReady(s, live, d, o);
      RestIsRunnable(steps, live, d, o, joined);
      RunKeepsTarget(rest, next, d, o, joined + Replayed(steps[..1]));
      if Covers(steps, live, d, o) { RestCovers(steps, live, d, o); }
    }
  }

  lemma IdleStaysIdle(s: Step, t: Step, live: Live, d: Desired, o: Desired)
    requires Wanted(s, d, o) && Needs(t, live, d, o) && Idle(t, live.device)
    ensures Idle(t, Apply(s, live).device)
  {
  }

  lemma RestIsRunnable(steps: seq<Step>, live: Live, d: Desired, o: Desired, joined: set<int>)
    requires steps != [] && Ready(live, d) && Runnable(steps, live, d, o, joined)
    requires MayRun(steps[0], live, d, o)
    ensures Runnable(steps[1..], Apply(steps[0], live), d, o, joined + Replayed(steps[..1]))
  {
    var s, rest, next := steps[0], steps[1..], Apply(steps[0], live);
    forall t | t in rest ensures Wanted(t, d, o) && NotForeign(t, next) {
      assert t in steps;
      StepKeepsNotForeign(s, t, live);
    }
    StepKeepsReady(s, live, d, o);
    OrderedMore(rest, InputsReady(d.inputs, live.device.inputs) || s.InputConfig?, joined + Replayed(steps[..1]),
                InputsReady(d.inputs, next.device.inputs), joined + Replayed(steps[..1]));
    forall a | a in joined + Replayed(steps[..1]) ensures a in d.activities && Joined(next, a) {
      StepKeepsJoined(s, live, a, d, o);
    }
  }

  /** A hub that needs nothing the executor can write is at its target. */
  lemma NoNeedsIsTarget(live: Live, d: Desired, o: Desired)
    requires Ready(live, d) && AtRest(live, d, o)
    ensures live == Target(live, d, o)
  {
    DeviceAtTarget(live, d, o);
    forall a | a in live.activities
      ensures TargetActivity(live.activities[a], live.id, a, d, o) == live.activities[a]
    {
      ActivityAtTarget(live, d, o, a);
    }
    assert live.activities == Target(live, d, o).activities;
  }

  lemma LabelsAtTarget(live: Live, d: Desired, o: Desired)
    requires AtRest(live, d, o)
    ensures live.device.labels == d.labels
  {
    var dev := live.device;
    forall c | c in d.labels ensures c in dev.labels && dev.labels[c] == d.labels[c] {
      assert !Needs(CommandAdd(c, d.labels[c]), live, d, o);
      assert !Needs(CommandRename(c, d.labels[c]), live, d, o);
    }
    forall c | c in dev.labels ensures c in d.labels {
      assert !Needs(CommandDelete(c), live, d, o);
    }
  }

  lemma DeviceAtTarget(live: Live, d: Desired, o: Desired)
    requires AtRest(live, d, o)
    ensures TargetDevice(live.device, d, o) == live.device
  {
    var dev := live.device;
    LabelsAtTarget(live, d, o);
    assert Needs(PowerConfig(d.powerOn, d.powerOff), live, d, o) ==> Idle(PowerConfig(d.powerOn, d.powerOff), dev);
    assert Needs(InputConfig(d.inputs), live, d, o) ==> Idle(InputConfig(d.inputs), dev);
    assert !Needs(HeadCommit(d.name, d.brand), live, d, o);
    forall b | b in d.keys ensures b in dev.keys && dev.keys[b] == d.keys[b] {
      assert !Needs(KeyWrite(b, d.keys[b]), live, d, o);
    }
    forall b | b in dev.keys && b in o.keys ensures b in d.keys {
      assert !Needs(KeyDelete(b), live, d, o);
    }
    assert TargetDevice(dev, d, o).keys == dev.keys;
  }

  lemma ActivityAtTarget(live: Live, d: Desired, o: Desired, a: int)
    requires Ready(live, d) && a in live.activities
    requires AtRest(live, d, o)
    ensures TargetActivity(live.activities[a], live.id, a, d, o) == live.activities[a]
  {
    var act, id := live.activities[a], live.id;
    if a in d.activities {
      var want, owned := d.activities[a], OwnedRefs(o, a);
      assert !Needs(MemberReplay(a, InputFor(d, want.ordinal)), live, d, o);
      assert Joined(live, a) && OrdinalIn(act, id) == want.ordinal;
      forall c | c in want.favorites ensures Favorite(id, c) in act.favorites {
        assert !Needs(FavoriteAdd(a, c), live, d, o);
      }
      forall c | Favorite(id, c) in act.favorites && c in owned.favorites ensures c in want.favorites {
        assert !Needs(FavoriteDelete(a, c), live, d, o);
      }
      forall b | b in want.bindings ensures b in act.bindings && act.bindings[b] == Binding(id, want.bindings[b]) {
        assert !Needs(BindingWrite(a, b, want.bindings[b]), live, d, o);
      }
      forall b | OursAt(act, id, b) && b in owned.bindings ensures b in want.bindings {
        assert !Needs(BindingDelete(a, b), live, d, o);
      }
      AtTargetRefs(act, id, want, owned);
    } else {
      assert !Needs(MembershipRemove(a), live, d, o);
    }
  }

  lemma AtTargetRefs(act: Activity, id: int, want: Refs, owned: Refs)
    requires id in act.members && OrdinalIn(act, id) == want.ordinal
    requires forall c :: c in want.favorites ==> Favorite(id, c) in act.favorites
    requires forall c :: Favorite(id, c) in act.favorites && c in owned.favorites ==> c in want.favorites
    requires forall b :: b in want.bindings ==> b in act.bindings && act.bindings[b] == Binding(id, want.bindings[b])
    requires forall b :: OursAt(act, id, b) && b in owned.bindings ==> b in want.bindings
    ensures TargetRefs(act, id, want, owned) == act
  {
    var t := TargetRefs(act, id, want, owned);
    assert t.members == act.members;
    assert t.ordinals == act.ordinals;
    forall f | f in act.favorites ensures f in t.favorites {
      if f.device == id { assert f == Favorite(id, f.command); }
    }
    assert t.favorites == act.favorites;
    forall b | b in act.bindings ensures b in t.bindings && t.bindings[b] == act.bindings[b] {
      if b !in want.bindings { assert !(OursAt(act, id, b) && b in owned.bindings); }
    }
    forall b | b in t.bindings ensures b in act.bindings {
      assert b in act.bindings.Keys + want.bindings.Keys;
    }
    assert t.bindings == act.bindings;
  }

  lemma PlanIsRunnable(live: Live, d: Desired, o: Desired)
    requires Ready(live, d)
    ensures Runnable(PlanSteps(live, d, o), live, d, o, KeptActivities(live, d))
  {
    PlanIsOrdered(live, d, o);
    forall s | s in PlanSteps(live, d, o) ensures Wanted(s, d, o) && NotForeign(s, live) {
      PlanHas(live, d, o, s);
    }
  }

  lemma PlanCovers(live: Live, d: Desired, o: Desired)
    ensures Covers(PlanSteps(live, d, o), live, d, o)
  {
    forall t | Needs(t, live, d, o) ensures t in PlanSteps(live, d, o) {
      PlanHas(live, d, o, t);
    }
  }

  /** All steps of a plan together lead exactly to the target. */
  lemma StepsReachTarget(live: Live, d: Desired, o: Desired)
    requires Ready(live, d)
    ensures ApplyAll(PlanSteps(live, d, o), live) == Target(live, d, o)
  {
    var steps := PlanSteps(live, d, o);
    PlanIsRunnable(live, d, o);
    PlanCovers(live, d, o);
    RunKeepsTarget(steps, live, d, o, KeptActivities(live, d));
    NoNeedsIsTarget(ApplyAll(steps, live), d, o);
  }

  // ------------------------------------------------- what gets executed

  /** A planned command_add carries no record data, which its handler insists on, so that it
      fails before its first write; and the hub refuses a step on an activity it does not have. */
  predicate Accepts(s: Step, live: Live) {
    !s.CommandAdd? && (OnActivity(s) ==> s.activity in live.activities)
  }

  /** Every step is accepted when its turn comes. */
  predicate RunsThrough(steps: seq<Step>, live: Live)
    decreases steps
  {
    steps == [] || (Accepts(steps[0], live) && RunsThrough(steps[1..], Apply(steps[0], live)))
  }

  /** The hub after a run in which everything it accepts is acknowledged: the run ends at the
      first step that is not accepted. */
  function Performed(steps: seq<Step>, live: Live): Live
    decreases steps
  {
    if steps == [] || !Accepts(steps[0], live) then live else Performed(steps[1..], Apply(steps[0], live))
  }

  lemma {:induction false} CompleteRunIsAll(steps: seq<Step>, live: Live)
    requires RunsThrough(steps, live)
    ensures Performed(steps, live) == ApplyAll(steps, live)
    decreases steps
  {
    if steps != [] { CompleteRunIsAll(steps[1..], Apply(steps[0], live)); }
  }

  lemma StepKeepsAccepts(s: Step, t: Step, live: Live)
    ensures Accepts(t, Apply(s, live)) <==> Accepts(t, live)
  {
  }

  /** No step changes what the hub accepts, so each can be judged before the run. */
  lemma {:induction false} RunsThroughIff(steps: seq<Step>, live: Live)
    ensures RunsThrough(steps, live) <==> forall s :: s in steps ==> Accepts(s, live)
    decreases steps
  {
    if steps != [] {
      var next := Apply(steps[0], live);
      RunsThroughIff(steps[1..], next);
      assert steps == [steps[0]] + steps[1..];
      forall t ensures Accepts(t, next) <==> Accepts(t, live) { StepKeepsAccepts(steps[0], t, live); }
    }
  }

  /** Every record the configuration labels is on the hub. */
  predicate NoRecordMissing(dev: Device, d: Desired) { d.labels.Keys <= dev.labels.Keys }

  predicate Executable(live: Live, d: Desired) {
    d.activities.Keys <= live.activities.Keys && NoRecordMissing(live.device, d)
  }

  lemma NeededIsAccepted(s: Step, live: Live, d: Desired, o: Desired)
    requires Executable(live, d) && Needs(s, live, d, o)
    ensures Accepts(s, live)
  {
  }

  lemma JoinIsPlanned(live: Live, d: Desired, o: Desired, a: int)
    requires a in d.activities && a !in live.activities
    ensures Needs(MemberReplay(a, InputFor(d, d.activities[a].ordinal)), live, d, o)
  {
  }

  lemma AcceptedIsExecutable(live: Live, d: Desired, o: Desired)
    requires forall s :: Needs(s, live, d, o) ==> Accepts(s, live)
    ensures Executable(live, d)
  {
    forall a | a in d.activities ensures a in live.activities {
      if a !in live.activities { JoinIsPlanned(live, d, o, a); }
    }
    forall c | c in d.labels ensures c in live.device.labels {
      assert Needs(CommandAdd(c, d.labels[c]), live, d, o) ==> Accepts(CommandAdd(c, d.labels[c]), live);
    }
  }

  /** A plan can be carried out to its end if and only if every configured activity and every
      labelled command record is still on the hub; the in-place path has no fallback otherwise. */
  lemma PlanRunsThroughIff(live: Live, d: Desired, o: Desired)
    ensures RunsThrough(PlanSteps(live, d, o), live) <==> Executable(live, d)
  {
    var steps := PlanSteps(live, d, o);
    RunsThroughIff(steps, live);
    forall s ensures s in steps <==> Needs(s, live, d, o) {
      PlanHas(live, d, o, s);
    }
    if RunsThrough(steps, live) {
      AcceptedIsExecutable(live, d, o);
    } else if Executable(live, d) {
      forall s | s in steps ensures Accepts(s, live) { NeededIsAccepted(s, live, d, o); }
    }
  }

  lemma {:induction false} CollectStarts(ids: seq<int>, f: int -> seq<Step>)
    requires ids != [] && f(ids[0]) != []
    ensures Collect(ids, f) != [] && Collect(ids, f)[0] == f(ids[0])[0]
  {
    var n := |ids| - 1;
    if n > 0 {
      CollectStarts(ids[..n], f);
      assert Collect(ids, f) == Collect(ids[..n], f) + f(ids[n]);
    } else {
      assert Collect(ids[..0], f) == [];
    }
  }

  lemma FirstOfFour<T>(a: seq<T>, b: seq<T>, c: seq<T>, d: seq<T>)
    requires a != []
    ensures a + b + c + d != [] && (a + b + c + d)[0] == a[0]
    ensures a + b + c != [] && (a + b + c)[0] == a[0]
  {
  }

  lemma SomeMissing<T>(a: set<T>, b: set<T>)
    requires !(a <= b)
    ensures a - b != {}
  {
    var x :| x in a && x !in b;
    assert x in a - b;
  }

  lemma AddsComeFirst(have: map<int, string>, want: map<int, string>)
    requires !(want.Keys <= have.Keys)
    ensures CommandSteps(have, want) != [] && CommandSteps(have, want)[0].CommandAdd?
  {
    var missing := want.Keys - have.Keys;
    SomeMissing(want.Keys, have.Keys);
    var ids := Sorted(missing);
    assert AnyOf(missing) in ids;
    assert ids[0] in ids;
    CollectStarts(ids, Adding(have, want));
    FirstOfFour(ForEach(missing, Adding(have, want)), ForEach(want.Keys * have.Keys, Renaming(have, want)),
                ForEach(have.Keys - want.Keys, DeletingCommand()), []);
  }

  lemma DeviceStartsWith(live: Live, d: Desired, o: Desired)
    requires CommandSteps(live.device.labels, d.labels) != []
    ensures DeviceSteps(live, d, o) != [] && DeviceSteps(live, d, o)[0] == CommandSteps(live.device.labels, d.labels)[0]
  {
    FirstOfFour(CommandSteps(live.device.labels, d.labels), PowerSteps(live, d), InputSteps(live, d),
                KeySteps(live.device.keys, d.keys, o.keys.Keys));
  }

  lemma PlanStartsWith(live: Live, d: Desired, o: Desired)
    requires CommandSteps(live.device.labels, d.labels) != []
    ensures PlanSteps(live, d, o) != [] && PlanSteps(live, d, o)[0] == CommandSteps(live.device.labels, d.labels)[0]
  {
    DeviceStartsWith(live, d, o);
    FirstOfFour(DeviceSteps(live, d, o), ActivitySteps(live, d, o), HeadSteps(live, d), []);
  }

  /** A missing record is the first thing a plan deals with, so such a plan writes nothing. */
  lemma MissingRecordBlocks(live: Live, d: Desired, o: Desired)
    requires !NoRecordMissing(live.device, d)
    ensures PlanSteps(live, d, o) != [] && PlanSteps(live, d, o)[0].CommandAdd?
    ensures Performed(PlanSteps(live, d, o), live) == live
  {
    AddsComeFirst(live.device.labels, d.labels);
    PlanStartsWith(live, d, o);
  }

  /** What the hub holds when an attempt gets all its acknowledgements: the target, if no
      record is missing, and then the run is complete; otherwise what it held before. */
  lemma PlanReachesTarget(live: Live, d: Desired, o: Desired)
    requires Ready(live, d)
    ensures Performed(PlanSteps(live, d, o), live)
         == if NoRecordMissing(live.device, d) then Target(live, d, o) else live
    ensures RunsThrough(PlanSteps(live, d, o), live) <==> NoRecordMissing(live.device, d)
  {
    PlanRunsThroughIff(live, d, o);
    if NoRecordMissing(live.device, d) {
      CompleteRunIsAll(PlanSteps(live, d, o), live);
      StepsReachTarget(live, d, o);
    } else {
      MissingRecordBlocks(live, d, o);
    }
  }

  // --------------------------------------------- what no run can clear

  /** The hub holds nothing the configuration wants cleared. */
  predicate Clearable(dev: Device, d: Desired) {
    && (d.powerOn.Some? || dev.powerOn.None?)
    && (d.powerOff.Some? || dev.powerOff.None?)
    && (d.inputs != [] || dev.inputs == [])
  }

  /** The target with the device as the configuration states it, cleared fields included. */
  function FullTarget(live: Live, d: Desired, o: Desired): Live {
    var t := Target(live, d, o);
    t.(device := t.device.(powerOn := d.powerOn, powerOff := d.powerOff, inputs := d.inputs))
  }

  /** An attempt with all its acknowledgements brings the hub to the configuration exactly when
      no record was missing and there was nothing to clear. */
  lemma FullTargetIff(live: Live, d: Desired, o: Desired)
    requires Ready(live, d)
    ensures Performed(PlanSteps(live, d, o), live) == FullTarget(live, d, o)
       <==> NoRecordMissing(live.device, d) && Clearable(live.device, d)
  {
    PlanReachesTarget(live, d, o);
  }

  /** The step a complete run leaves needed. */
  predicate LeftOver(s: Step, dev: Device, d: Desired) {
    match s
    case PowerConfig(on, off) =>
      && (on, off) == (d.powerOn, d.powerOff)
      && ((on.None? && dev.powerOn.Some?) || (off.None? && dev.powerOff.Some?))
    case InputConfig(inputs) => inputs == d.inputs == [] && dev.inputs != []
    case _ => false
  }

  /** What the next sync counts as ours: the same references, when the last one did not get to
      its store write, or exactly those just deployed. */
  predicate ScopeAfter(next: Desired, d: Desired, o: Desired) {
    next == o || (next.keys == d.keys && next.activities == d.activities)
  }

  lemma ScopeAddsNoNeed(s: Step, live: Live, d: Desired, o: Desired, next: Desired)
    requires ScopeAfter(next, d, o) && Needs(s, live, d, next)
    ensures Needs(s, live, d, o)
  {
  }

  lemma PlanLeavesRest(live: Live, d: Desired, o: Desired)
    requires Ready(live, d)
    ensures AtRest(ApplyAll(PlanSteps(live, d, o), live), d, o)
  {
    PlanIsRunnable(live, d, o);
    PlanCovers(live, d, o);
    RunKeepsTarget(PlanSteps(live, d, o), live, d, o, KeptActivities(live, d));
  }

  lemma NeededAtRest(s: Step, live: Live, d: Desired, o: Desired)
    requires AtRest(live, d, o) && Needs(s, live, d, o)
    ensures s.PowerConfig? || s.InputConfig?
  {
    assert Idle(s, live.device);
  }

  lemma PlanAfterAll(live: Live, d: Desired, o: Desired, next: Desired, s: Step)
    requires Ready(live, d) && ScopeAfter(next, d, o)
    ensures s in PlanSteps(ApplyAll(PlanSteps(live, d, o), live), d, next) <==> LeftOver(s, live.device, d)
  {
    var done := ApplyAll(PlanSteps(live, d, o), live);
    StepsReachTarget(live, d, o);
    PlanHas(done, d, next, s);
    PlanLeavesRest(live, d, o);
    if Needs(s, done, d, next) {
      ScopeAddsNoNeed(s, done, d, o, next);
      NeededAtRest(s, done, d, o);
    }
  }

  /** What is planned after an attempt with all its acknowledgements: the clearings that were
      silently skipped, or, with a record missing, whatever was planned before. */
  lemma NextPlanHas(live: Live, d: Desired, o: Desired, next: Desired, s: Step)
    requires Ready(live, d) && ScopeAfter(next, d, o)
    ensures s in PlanSteps(Performed(PlanSteps(live, d, o), live), d, next)
       <==> if NoRecordMissing(live.device, d) then LeftOver(s, live.device, d) else s in PlanSteps(live, d, next)
  {
    PlanRunsThroughIff(live, d, o);
    if NoRecordMissing(live.device, d) {
      CompleteRunIsAll(PlanSteps(live, d, o), live);
      PlanAfterAll(live, d, o, next, s);
    } else {
      MissingRecordBlocks(live, d, o);
    }
  }

  lemma PlanAfterAllIsEmptyIff(live: Live, d: Desired, o: Desired, next: Desired)
    requires Ready(live, d) && ScopeAfter(next, d, o)
    ensures PlanSteps(ApplyAll(PlanSteps(live, d, o), live), d, next) == [] <==> Clearable(live.device, d)
  {
    var again := PlanSteps(ApplyAll(PlanSteps(live, d, o), live), d, next);
    forall s ensures s in again <==> LeftOver(s, live.device, d) {
      PlanAfterAll(live, d, o, next, s);
    }
    NothingLeftOverIff(again, live.device, d);
  }

  lemma TargetIsComplete(live: Live, d: Desired, o: Desired)
    ensures NoRecordMissing(Target(live, d, o).device, d)
    ensures Clearable(Target(live, d, o).device, d) <==> Clearable(live.device, d)
  {
  }

  /** Syncing twice writes once, if and only if no record was missing and nothing had to be
      cleared; otherwise steps stay due after every sync. */
  lemma NextPlanIsEmptyIff(live: Live, d: Desired, o: Desired, next: Desired)
    requires Ready(live, d) && ScopeAfter(next, d, o)
    ensures var done := Performed(PlanSteps(live, d, o), live);
      && (PlanSteps(done, d, next) == [] <==> NoRecordMissing(live.device, d) && Clearable(live.device, d))
      && (Clearable(done.device, d) <==> Clearable(live.device, d))
      && (NoRecordMissing(done.device, d) <==> NoRecordMissing(live.device, d))
  {
    PlanReachesTarget(live, d, o);
    if NoRecordMissing(live.device, d) {
      CompleteRunIsAll(PlanSteps(live, d, o), live);
      PlanAfterAllIsEmptyIff(live, d, o, next);
      TargetIsComplete(live, d, o);
    } else {
      MissingRecordBlocks(live, d, next);
    }
  }

  lemma NothingLeftOverIff(steps: seq<Step>, dev: Device, d: Desired)
    requires forall s :: s in steps <==> LeftOver(s, dev, d)
    ensures steps == [] <==> Clearable(dev, d)
  {
    assert PowerConfig(d.powerOn, d.powerOff) in steps <==> LeftOver(PowerConfig(d.powerOn, d.powerOff), dev, d);
    assert InputConfig(d.inputs) in steps <==> LeftOver(InputConfig(d.inputs), dev, d);
    if steps != [] { assert steps[0] in steps; }
  }

  /** A device deployed with power-on command 3, cleared since: every step is acknowledged,
      the hub keeps 3, and the same plan is due again. */
  lemma ClearedPowerIdStays()
    ensures var live := Live(9, Device("TV", "b", Some(3), None, [], map[], map[]), map[]);
      var d := Desired("TV", "b", None, None, [], map[], map[], map[]);
      && Ready(live, d) && PowerConfig(None, None) in PlanSteps(live, d, d)
      && RunsThrough(PlanSteps(live, d, d), live) && Performed(PlanSteps(live, d, d), live) == live
  {
    var live := Live(9, Device("TV", "b", Some(3), None, [], map[], map[]), map[]);
    var d := Desired("TV", "b", None, None, [], map[], map[], map[]);
    PlanHas(live, d, d, PowerConfig(None, None));
    PlanReachesTarget(live, d, d);
    assert Target(live, d, d).activities == map[];
    assert TargetDevice(live.device, d, d).keys == map[];
  }

  /** Record 1 was deleted on the hub: its label is wanted, the live records are undisturbed,
      and every attempt ends where it began. */
  lemma DeletedRecordBlocksEverySync()
    ensures var live := Live(9, Device("TV", "old", None, None, [], map[2 := "B"], map[]), map[]);
      var d := Desired("TV", "new", None, None, [], map[1 := "A", 2 := "B"], map[], map[]);
      && Ready(live, d) && HeadCommit("TV", "new") in PlanSteps(live, d, d)
      && !RunsThrough(PlanSteps(live, d, d), live) && Performed(PlanSteps(live, d, d), live) == live
  {
    var live := Live(9, Device("TV", "old", None, None, [], map[2 := "B"], map[]), map[]);
    var d := Desired("TV", "new", None, None, [], map[1 := "A", 2 := "B"], map[], map[]);
    PlanHas(live, d, d, HeadCommit("TV", "new"));
    assert 1 in d.labels;
    PlanReachesTarget(live, d, d);
  }
}
