/** One attempt at an in-place sync: the gates, the executor with lost acknowledgements,
    and what an interrupted attempt leaves for the next one. */
module InplaceSync {
  import opened Text
  import opened Slots
  import opened Records
  import Callbacks
  import opened CommandIds
  import opened InplacePlan
  import opened InplacePlanner
  import opened InplaceRun
  import opened WifiConfig

  // ---------------------------------------------------------- drift gate

  predicate LabelFits(id: int, text: string, expected: map<int, string>, desired: map<int, string>) {
    (id in expected && expected[id] == text) || (id in desired && desired[id] == text)
  }

  /** No live record disagrees with both the deployed and the desired labels. */
  predicate NoDrift(live: map<int, string>, expected: map<int, string>, desired: map<int, string>) {
    forall id :: id in live ==> LabelFits(id, live[id], expected, desired)
  }

  /** The gate sorts live records into drifted and resumed ones; the rows are the live
      label table as the hub lists it. */
  method ClassifyRecords(rows: seq<(int, string)>, expected: map<int, string>, desired: map<int, string>)
    returns (drift: seq<int>, resumed: seq<int>)
    ensures forall id :: id in drift <==>
      exists k :: 0 <= k < |rows| && rows[k].0 == id && !LabelFits(id, rows[k].1, expected, desired)
    ensures forall id :: id in resumed <==>
      exists k :: 0 <= k < |rows| && rows[k].0 == id
        && !(id in expected && expected[id] == rows[k].1) && id in desired && desired[id] == rows[k].1
  {
    drift, resumed := [], [];
    for k := 0 to |rows|
      invariant forall id :: id in drift <==>
        exists j :: 0 <= j < k && rows[j].0 == id && !LabelFits(id, rows[j].1, expected, desired)
      invariant forall id :: id in resumed <==>
        exists j :: 0 <= j < k && rows[j].0 == id
          && !(id in expected && expected[id] == rows[j].1) && id in desired && desired[id] == rows[j].1
    {
      var (cid, text) := rows[k];
      if cid in expected && expected[cid] == text { continue; }
      if cid in desired && desired[cid] == text {
        resumed := resumed + [cid];
        continue;
      }
      drift := drift + [cid];
    }
  }

  /** Wanted steps only write desired labels, so drift never appears by our own hand. */
  lemma {:induction false} RunKeepsNoDrift(steps: seq<Step>, live: Live, d: Desired, o: Desired,
      expected: map<int, string>)
    requires forall s :: s in steps ==> Wanted(s, d, o)
    requires NoDrift(live.device.labels, expected, d.labels)
    ensures NoDrift(ApplyAll(steps, live).device.labels, expected, d.labels)
    decreases steps
  {
    if steps != [] {
      assert steps[0] in steps;
      RunKeepsNoDrift(steps[1..], Apply(steps[0], live), d, o, expected);
    }
  }

  /** Once the gate has passed and the configuration covers every deployed id, no plan
      deletes a command record. */
  lemma NoRecordIsDeleted(live: Live, d: Desired, o: Desired, expected: map<int, string>, c: int)
    requires NoDrift(live.device.labels, expected, d.labels) && expected.Keys <= d.labels.Keys
    ensures CommandDelete(c) !in PlanSteps(live, d, o)
  {
    assert !Needs(CommandDelete(c), live, d, o);
    PlanHas(live, d, o, CommandDelete(c));
  }

  // ------------------------------------------------------------ executor

  /** How much of a step took effect.  A power step is two row writes, each acknowledged by
      itself, the second sent whatever came of the first. */
  datatype Effect = Nothing | OnRow | OffRow | Whole

  function Part(s: Step, e: Effect): seq<Step> {
    match e
    case Nothing => []
    case OnRow => if s.PowerConfig? then [PowerConfig(s.on, None)] else []
    case OffRow => if s.PowerConfig? then [PowerConfig(None, s.off)] else []
    case Whole => [s]
  }

  /** What came of one dispatch: acknowledged, or not in spite of what it may have written. */
  datatype Ack = Acked | Unacked(took: Effect)

  /** The executor reports success without a write. */
  predicate Silent(s: Step) { s == PowerConfig(None, None) || s == InputConfig([]) }

  lemma SilentDoesNothing(s: Step, live: Live)
    requires Silent(s)
    ensures Apply(s, live) == live
  {
  }

  /** What two dispatches of one step wrote between them. */
  function Both(s: Step, e: Effect, f: Effect): Effect {
    if e.Whole? || f.Whole? || (s.PowerConfig? && {e, f} == {OnRow, OffRow}) then Whole
    else if e.Nothing? || !s.PowerConfig? then f else e
  }

  lemma RetryAdds(s: Step, live: Live, e: Effect, f: Effect)
    ensures ApplyAll(Part(s, f), ApplyAll(Part(s, e), live)) == ApplyAll(Part(s, Both(s, e, f)), live)
    ensures Apply(s, ApplyAll(Part(s, e), live)) == Apply(s, live)
  {
    ApplyTwice(s, live);
    assert ApplyAll([s], live) == Apply(s, live);
  }

  lemma ApplyTwice(s: Step, live: Live)
    ensures Apply(s, Apply(s, live)) == Apply(s, live)
  {
    if OnActivity(s) && s.activity in live.activities {
      var act := live.activities[s.activity];
      var once := ApplyToActivity(s, act, live.id, live.device.inputs);
      var twice := ApplyToActivity(s, once, live.id, live.device.inputs);
      assert twice.members == once.members && twice.ordinals == once.ordinals;
      assert twice.favorites == once.favorites;
      assert twice.bindings == once.bindings;
    }
  }

  lemma {:induction false} ApplySnoc(steps: seq<Step>, s: Step, live: Live)
    ensures ApplyAll(steps + [s], live) == Apply(s, ApplyAll(steps, live))
    decreases steps
  {
    if steps == [] {
      assert [s][1..] == [];
    } else {
      assert (steps + [s])[1..] == steps[1..] + [s];
      ApplySnoc(steps[1..], s, Apply(steps[0], live));
    }
  }

  // ------------------------------------------------------------- session

  /** How far a run got: the steps completed, and what came of the next one. */
  datatype Cut = Cut(count: nat, took: Effect)

  function Took(steps: seq<Step>, cut: Cut): seq<Step> {
    if cut.count >= |steps| then steps else steps[..cut.count] + Part(steps[cut.count], cut.took)
  }

  lemma {:induction false} ApplyConcat(xs: seq<Step>, ys: seq<Step>, live: Live)
    ensures ApplyAll(xs + ys, live) == ApplyAll(ys, ApplyAll(xs, live))
    decreases xs
  {
    if xs == [] {
      assert xs + ys == ys;
    } else {
      assert (xs + ys)[1..] == xs[1..] + ys;
      ApplyConcat(xs[1..], ys, Apply(xs[0], live));
    }
  }

  /** The deployed fields of the store record; only a completed sync rewrites them. */
  datatype Deployed = Deployed(slots: seq<Slot>, deviceId: Option<int>, hash: string, port: Option<int>)

  datatype Outcome = Declined | Failed | Applied

  datatype Request = Request(
    slots: seq<Slot>, slotCount: nat, name: string, brand: string, hash: string,
    powerOn: Option<int>, powerOff: Option<int>, port: int, lookup: Lookup,
    records: seq<DeviceRecord>, at: nat)

  /** The record at `at` is the one being synced. */
  predicate Proper(q: Request, stored: Deployed) {
    && |q.slots| == q.slotCount && q.at < |q.records|
    && var r := q.records[q.at]; stored == Deployed(r.deployed, r.deviceId, r.hash, r.port)
  }

  /** The deployed snapshot the gates read.  It is looked up by the hub's device id, so it is
      found only if some record is deployed under that id, or one alone was never given any. */
  function Snapshot(q: Request, id: int): (slots: seq<Slot>)
    ensures |slots| <= q.slotCount
  {
    var found := Callbacks.DeployedFor(q.records, id);
    if |found| <= q.slotCount then found else found[..q.slotCount]
  }

  function DesiredOf(q: Request): Desired
    requires |q.slots| <= q.slotCount
  {
    DesiredFrom(q.slots, q.slotCount, q.name, q.brand, q.powerOn, q.powerOff, q.lookup)
  }

  /** The deployed expansion: it only scopes which references are ours. */
  function OwnedOf(q: Request, id: int): Desired {
    DesiredFrom(Snapshot(q, id), q.slotCount, "", "", None, None, q.lookup)
  }

  /** Every gate before the first write. */
  ghost predicate GatesPass(live: Live, stored: Deployed, q: Request)
    requires Proper(q, stored)
  {
    && stored.port == Some(q.port) && Snapshot(q, live.id) != []
    && NoDrift(live.device.labels, Labels(Snapshot(q, live.id), q.slotCount), DesiredOf(q).labels)
    && PlanOf(live, DesiredOf(q), OwnedOf(q, live.id)).Steps?
  }

  ghost function PlanFor(live: Live, q: Request): seq<Step>
    requires |q.slots| <= q.slotCount
  {
    PlanSteps(live, DesiredOf(q), OwnedOf(q, live.id))
  }

  /** The record answers for the device id: it alone is deployed under it, or it is the only
      record of all and was never given an id. */
  predicate Answers(rs: seq<DeviceRecord>, i: nat, id: int) {
    Callbacks.OnlyOwner(rs, i, id) || (|rs| == 1 && i == 0 && rs[0].deviceId.None?)
  }

  /** A device matched by hash or key alone is never edited in place while other records
      exist: the gates find a snapshot only where one record answers for the device id. */
  lemma SnapshotFoundIff(q: Request, id: int)
    ensures Snapshot(q, id) != [] <==>
      q.slotCount > 0 && exists i: nat :: Answers(q.records, i, id) && q.records[i].deployed != []
  {
    forall i: nat ensures Callbacks.RecordOf(q.records, id) == Some(i) <==> Answers(q.records, i, id) {
      Callbacks.RecordOfIff(q.records, id, i);
    }
  }

  /** What is found is the deployed table of the record that answers, cut to the slot count. */
  lemma SnapshotIs(q: Request, id: int, i: nat)
    ensures Answers(q.records, i, id) ==>
      var deployed := q.records[i].deployed;
      Snapshot(q, id) == if |deployed| <= q.slotCount then deployed else deployed[..q.slotCount]
    ensures (forall j: nat :: !Answers(q.records, j, id)) ==> Snapshot(q, id) == []
  {
    forall j: nat ensures Callbacks.RecordOf(q.records, id) == Some(j) <==> Answers(q.records, j, id) {
      Callbacks.RecordOfIff(q.records, id, j);
    }
  }

  /** What an unacknowledged dispatch wrote; a step the hub does not accept writes nothing. */
  function Wrote(s: Step, live: Live, ack: Ack): Effect {
    if !Accepts(s, live) || Silent(s) || ack.Acked? then Nothing else ack.took
  }

  /** What a run can come to: it gets past accepted steps only, and one it does not accept
      writes nothing. */
  predicate Possible(steps: seq<Step>, live: Live, cut: Cut) {
    && (forall k :: 0 <= k < |steps| && k < cut.count ==> Accepts(steps[k], live))
    && (cut.count < |steps| && !Accepts(steps[cut.count], live) ==> cut.took.Nothing?)
  }

  lemma {:induction false} RunKeepsAccepts(steps: seq<Step>, live: Live, t: Step)
    ensures Accepts(t, ApplyAll(steps, live)) <==> Accepts(t, live)
    decreases steps
  {
    if steps != [] {
      StepKeepsAccepts(steps[0], t, live);
      RunKeepsAccepts(steps[1..], Apply(steps[0], live), t);
    }
  }

  lemma BlockedAtOnce(steps: seq<Step>, live: Live, cut: Cut)
    requires Possible(steps, live, cut) && steps != [] && !Accepts(steps[0], live)
    ensures cut.count == 0 && ApplyAll(Took(steps, cut), live) == live
  {
    assert cut.count == 0;
    assert Took(steps, cut) == [];
  }

  lemma PossibleToTheEnd(steps: seq<Step>, live: Live, cut: Cut)
    requires Possible(steps, live, cut) && cut.count >= |steps|
    ensures RunsThrough(steps, live)
  {
    RunsThroughIff(steps, live);
  }

  /** An attempt that got through found everything it needs; one with a record missing wrote
      nothing and did not get through. */
  lemma AttemptIs(live: Live, d: Desired, o: Desired, cut: Cut)
    requires Possible(PlanSteps(live, d, o), live, cut)
    ensures cut.count >= |PlanSteps(live, d, o)| ==>
      Executable(live, d) && ApplyAll(Took(PlanSteps(live, d, o), cut), live) == Performed(PlanSteps(live, d, o), live)
    ensures !NoRecordMissing(live.device, d) ==>
      cut.count < |PlanSteps(live, d, o)| && ApplyAll(Took(PlanSteps(live, d, o), cut), live) == live
  {
    var steps := PlanSteps(live, d, o);
    PlanRunsThroughIff(live, d, o);
    if cut.count >= |steps| {
      PossibleToTheEnd(steps, live, cut);
      CompleteRunIsAll(steps, live);
    }
    if !NoRecordMissing(live.device, d) {
      MissingRecordBlocks(live, d, o);
      BlockedAtOnce(steps, live, cut);
    }
  }

  class Session {
    var live: Live
    var stored: Deployed

    constructor (live: Live, stored: Deployed)
      ensures this.live == live && this.stored == stored
    {
      this.live, this.stored := live, stored;
    }

    method Dispatch(s: Step, ack: Ack) returns (ok: bool)
      modifies this`live
      ensures ok <==> Accepts(s, old(live)) && (Silent(s) || ack.Acked?)
      ensures live == if ok then Apply(s, old(live)) else ApplyAll(Part(s, Wrote(s, old(live), ack)), old(live))
    {
      if !Accepts(s, live) { return false; }
      if Silent(s) {
        SilentDoesNothing(s, live);
        return true;
      }
      ok := ack.Acked?;
      if ok { live := Apply(s, live); } else { live := ApplyAll(Part(s, ack.took), live); }
    }

    /** `run_wifi_inplace_plan`: serial, each step retried once, stop at the first step not
        acknowledged twice.  `reachable` is the check made before the first write. */
    method RunPlan(steps: seq<Step>, reachable: bool, first: nat -> Ack, second: nat -> Ack)
        returns (ok: bool, ghost cut: Cut)
      modifies this`live
      ensures live == ApplyAll(Took(steps, cut), old(live)) && cut.count <= |steps|
      ensures ok <==> reachable && cut.count == |steps|
      ensures Possible(steps, old(live), cut)
      ensures !reachable ==> cut == Cut(0, Nothing)
    {
      var done: nat := 0;
      if !reachable { return false, Cut(0, Nothing); }
      while done < |steps|
        invariant done <= |steps|
        invariant live == ApplyAll(steps[..done], old(live))
        invariant forall k :: 0 <= k < done ==> Accepts(steps[k], old(live))
      {
        var step := steps[done];
        RunKeepsAccepts(steps[..done], old(live), step);
        ApplySnoc(steps[..done], step, old(live));
        assert steps[..done + 1] == steps[..done] + [step];
        ghost var before := live;
        ghost var e := Wrote(step, before, first(done));
        ok := Dispatch(step, first(done));
        if !ok {
          ghost var f := Wrote(step, live, second(done));
          RetryAdds(step, before, e, f);
          ok := Dispatch(step, second(done));
          if !ok {
            ApplyConcat(steps[..done], Part(step, Both(step, e, f)), old(live));
            return false, Cut(done, Both(step, e, f));
          }
        }
        done := done + 1;
      }
      assert steps[..done] == steps;
      ok, cut := true, Cut(done, Nothing);
    }

    /** The gates before the first write; `rows` is the label table of the baseline read. */
    method CheckGates(q: Request, baselineComplete: bool, rows: seq<(int, string)>) returns (plan: Plan)
      requires Proper(q, stored)
      requires forall id, text :: (id, text) in rows <==> id in live.device.labels && live.device.labels[id] == text
      ensures plan.Steps? <==> baselineComplete && GatesPass(live, stored, q)
      ensures plan.Steps? ==> plan.steps == PlanFor(live, q)
    {
      var deployed := Snapshot(q, live.id);
      if stored.port != Some(q.port) || deployed == [] || !baselineComplete { return Fallback; }
      var expected := ExpectLabels(deployed, q.slotCount);
      var desired := DesiredOf(q);
      var drift, resumed := ClassifyRecords(rows, expected, desired.labels);
      DriftIffNotEmpty(rows, live.device.labels, expected, desired.labels, drift);
      if drift != [] { return Fallback; }
      plan := BuildPlan(live, desired, OwnedOf(q, live.id));
    }

    /** Run a plan and, if all of it was acknowledged, write the deployed fields.  `tail` tells
        whether the refreshes and the remote resync in between all return. */
    method Execute(steps: seq<Step>, slots: seq<Slot>, hash: string, port: int,
                   reachable: bool, first: nat -> Ack, second: nat -> Ack, tail: bool)
        returns (outcome: Outcome, ghost cut: Cut)
      modifies this
      ensures !outcome.Declined? && live == ApplyAll(Took(steps, cut), old(live))
      ensures Possible(steps, old(live), cut)
      ensures outcome.Failed? ==> stored == old(stored)
      ensures outcome.Applied? ==>
        && cut.count == |steps|
        && stored == Deployed(slots, Some(live.id), hash, Some(port))
    {
      cut := Cut(0, Nothing);
      if steps != [] {
        var ok;
        ok, cut := RunPlan(steps, reachable, first, second);
        if !ok { return Failed, cut; }
      }
      if !tail { return Failed, cut; }
      stored := Deployed(slots, Some(live.id), hash, Some(port));
      outcome := Applied;
    }

    /** `_async_try_inplace_command_sync`, from the gates to the store write. */
    method TryInplace(
        q: Request, baselineComplete: bool, rows: seq<(int, string)>,
        reachable: bool, first: nat -> Ack, second: nat -> Ack, tail: bool) returns (outcome: Outcome, ghost cut: Cut)
      requires Proper(q, stored)
      requires forall id, text :: (id, text) in rows <==> id in live.device.labels && live.device.labels[id] == text
      modifies this
      ensures outcome.Declined? <==> !baselineComplete || !GatesPass(old(live), old(stored), q)
      ensures outcome.Declined? ==> live == old(live)
      ensures !outcome.Applied? ==> stored == old(stored)
      ensures !outcome.Declined? ==> live == ApplyAll(Took(PlanFor(old(live), q), cut), old(live))
      ensures outcome.Applied? ==> cut.count == |PlanFor(old(live), q)| && Executable(old(live), DesiredOf(q))
      ensures outcome.Applied? ==> live == Performed(PlanFor(old(live), q), old(live))
      ensures outcome.Applied? ==> stored == Deployed(q.slots, Some(live.id), q.hash, Some(q.port))
      ensures !outcome.Declined? && !NoRecordMissing(old(live).device, DesiredOf(q)) ==>
          outcome.Failed? && live == old(live)
    {
      var plan := CheckGates(q, baselineComplete, rows);
      if plan.Fallback? { return Declined, Cut(0, Nothing); }
      ghost var before := live;
      outcome, cut := Execute(plan.steps, q.slots, q.hash, q.port, reachable, first, second, tail);
      AttemptIs(before, DesiredOf(q), OwnedOf(q, before.id), cut);
    }
  }

  lemma DriftIffNotEmpty(
      rows: seq<(int, string)>, labels: map<int, string>,
      expected: map<int, string>, desired: map<int, string>, drift: seq<int>)
    requires forall id, text :: (id, text) in rows <==> id in labels && labels[id] == text
    requires forall id :: id in drift <==>
      exists k :: 0 <= k < |rows| && rows[k].0 == id && !LabelFits(id, rows[k].1, expected, desired)
    ensures drift == [] <==> NoDrift(labels, expected, desired)
  {
    if drift == [] {
      forall id | id in labels ensures LabelFits(id, labels[id], expected, desired) {
        assert (id, labels[id]) in rows;
        var k :| 0 <= k < |rows| && rows[k] == (id, labels[id]);
        assert id !in drift;
      }
    } else {
      assert drift[0] in drift;
      var k :| 0 <= k < |rows| && rows[k].0 == drift[0] && !LabelFits(drift[0], rows[k].1, expected, desired);
      assert (rows[k].0, rows[k].1) in rows;
    }
  }

  // -------------------------------------------------------- crash, resume

  /** What is left after attempts that each stopped somewhere, each planned on what it found. */
  ghost function Interrupted(live: Live, d: Desired, o: Desired, cuts: seq<Cut>): Live
    decreases cuts
  {
    if cuts == [] then live
    else Interrupted(ApplyAll(Took(PlanSteps(live, d, o), cuts[0]), live), d, o, cuts[1..])
  }

  lemma PartIsWanted(s: Step, e: Effect, d: Desired, o: Desired)
    requires Wanted(s, d, o)
    ensures forall t :: t in Part(s, e) ==> Wanted(t, d, o) && (t == s || t.PowerConfig?)
  {
  }

  lemma TookIs(steps: seq<Step>, cut: Cut, t: Step, d: Desired, o: Desired)
    requires t in Took(steps, cut) && forall s :: s in steps ==> Wanted(s, d, o)
    ensures Wanted(t, d, o) && (t in steps || t.PowerConfig?)
  {
    if cut.count < |steps| && t !in steps[..cut.count] {
      assert steps[cut.count] in steps;
      PartIsWanted(steps[cut.count], cut.took, d, o);
    }
  }

  lemma TookIsOrdered(steps: seq<Step>, cut: Cut, f: bool, j: set<int>)
    requires Ordered(steps, f, j)
    ensures Ordered(Took(steps, cut), f, j)
  {
    if cut.count < |steps| {
      var front, s := steps[..cut.count], steps[cut.count];
      if cut.took.Whole? {
        assert front + [s] == steps[..cut.count + 1];
        OrderedPrefix(steps, cut.count + 1, f, j);
      } else {
        OrderedPrefix(steps, cut.count, f, j);
        var part := Part(s, cut.took);
        assert forall t :: t in part ==> t.PowerConfig?;
        OrderedQuiet(part, f || SetsInputs(front), j + Replayed(front));
        OrderedAppend(front, part, f, j);
      }
    }
  }

  lemma TookIsRunnable(steps: seq<Step>, cut: Cut, live: Live, d: Desired, o: Desired, j: set<int>)
    requires Runnable(steps, live, d, o, j)
    ensures Runnable(Took(steps, cut), live, d, o, j)
  {
    TookIsOrdered(steps, cut, InputsReady(d.inputs, live.device.inputs), j);
    forall t | t in Took(steps, cut) ensures Wanted(t, d, o) && NotForeign(t, live) {
      TookIs(steps, cut, t, d, o);
    }
  }

  lemma CutKeepsTarget(live: Live, d: Desired, o: Desired, cut: Cut)
    requires Ready(live, d)
    ensures var after := ApplyAll(Took(PlanSteps(live, d, o), cut), live);
      Ready(after, d) && Target(after, d, o) == Target(live, d, o)
  {
    var steps := PlanSteps(live, d, o);
    PlanIsRunnable(live, d, o);
    TookIsRunnable(steps, cut, live, d, o, KeptActivities(live, d));
    RunKeepsTarget(Took(steps, cut), live, d, o, KeptActivities(live, d));
  }

  lemma {:induction false} RunKeepsRoom(steps: seq<Step>, live: Live, d: Desired, o: Desired, a: int)
    requires forall s :: s in steps ==> Wanted(s, d, o)
    requires LastMember(ApplyAll(steps, live), d, o, a)
    ensures LastMember(live, d, o, a)
    decreases steps
  {
    if steps != [] {
      assert steps[0] in steps;
      RunKeepsRoom(steps[1..], Apply(steps[0], live), d, o, a);
    }
  }

  lemma TookIsWanted(live: Live, d: Desired, o: Desired, cut: Cut)
    requires Ready(live, d)
    ensures forall s :: s in Took(PlanSteps(live, d, o), cut) ==> Wanted(s, d, o)
  {
    PlanIsRunnable(live, d, o);
    TookIsRunnable(PlanSteps(live, d, o), cut, live, d, o, KeptActivities(live, d));
  }

  lemma RoomStays(steps: seq<Step>, live: Live, d: Desired, o: Desired)
    requires forall s :: s in steps ==> Wanted(s, d, o)
    requires PlanOf(live, d, o).Steps?
    ensures PlanOf(ApplyAll(steps, live), d, o).Steps?
  {
    var after := ApplyAll(steps, live);
    forall a | a in after.activities && LastMember(after, d, o, a)
      ensures a in live.activities && LastMember(live, d, o, a)
    {
      RunKeepsRoom(steps, live, d, o, a);
    }
  }

  lemma CutKeepsGates(live: Live, d: Desired, o: Desired, expected: map<int, string>, cut: Cut)
    requires Ready(live, d) && PlanOf(live, d, o).Steps? && NoDrift(live.device.labels, expected, d.labels)
    ensures var after := ApplyAll(Took(PlanSteps(live, d, o), cut), live);
      PlanOf(after, d, o).Steps? && NoDrift(after.device.labels, expected, d.labels)
  {
    var steps := Took(PlanSteps(live, d, o), cut);
    var after := ApplyAll(steps, live);
    TookIsWanted(live, d, o, cut);
    RunKeepsNoDrift(steps, live, d, o, expected);
    RoomStays(steps, live, d, o);
  }

  /** The attempts came to what they can come to. */
  ghost predicate Happens(live: Live, d: Desired, o: Desired, cuts: seq<Cut>)
    decreases cuts
  {
    cuts == [] ||
    (&& Possible(PlanSteps(live, d, o), live, cuts[0])
     && Happens(ApplyAll(Took(PlanSteps(live, d, o), cuts[0]), live), d, o, cuts[1..]))
  }

  lemma {:induction false} RunKeepsRecords(steps: seq<Step>, live: Live, d: Desired, o: Desired)
    requires NoRecordMissing(live.device, d) && forall s :: s in steps ==> Wanted(s, d, o)
    ensures NoRecordMissing(ApplyAll(steps, live).device, d)
    decreases steps
  {
    if steps != [] {
      assert steps[0] in steps;
      RunKeepsRecords(steps[1..], Apply(steps[0], live), d, o);
    }
  }

  /** With a record missing, no attempt ever writes or completes: there is nothing to resume. */
  lemma {:induction false} MissingRecordBlocksForGood(live: Live, d: Desired, o: Desired, cuts: seq<Cut>)
    requires !NoRecordMissing(live.device, d) && Happens(live, d, o, cuts)
    ensures Interrupted(live, d, o, cuts) == live && !RunsThrough(PlanSteps(live, d, o), live)
    decreases cuts
  {
    PlanRunsThroughIff(live, d, o);
    if cuts != [] {
      AttemptIs(live, d, o, cuts[0]);
      MissingRecordBlocksForGood(live, d, o, cuts[1..]);
    }
  }

  lemma {:induction false} ResumeKeepsRecords(live: Live, d: Desired, o: Desired, cuts: seq<Cut>)
    requires Ready(live, d) && NoRecordMissing(live.device, d)
    ensures NoRecordMissing(Interrupted(live, d, o, cuts).device, d)
    decreases cuts
  {
    if cuts != [] {
      var steps := Took(PlanSteps(live, d, o), cuts[0]);
      TookIsWanted(live, d, o, cuts[0]);
      RunKeepsRecords(steps, live, d, o);
      CutKeepsTarget(live, d, o, cuts[0]);
      ResumeKeepsRecords(ApplyAll(steps, live), d, o, cuts[1..]);
    }
  }

  /** The next attempt can be completed exactly when no record was missing at the start. */
  lemma ResumeCompletesIff(live: Live, d: Desired, o: Desired, cuts: seq<Cut>, now: Live)
    requires Ready(live, d) && Happens(live, d, o, cuts) && now == Interrupted(live, d, o, cuts) && Ready(now, d)
    ensures RunsThrough(PlanSteps(now, d, o), now) <==> NoRecordMissing(live.device, d)
  {
    PlanRunsThroughIff(now, d, o);
    if NoRecordMissing(live.device, d) {
      ResumeKeepsRecords(live, d, o, cuts);
    } else {
      MissingRecordBlocksForGood(live, d, o, cuts);
    }
  }

  lemma {:induction false} ResumedStepsReachTarget(live: Live, d: Desired, o: Desired, expected: map<int, string>,
      cuts: seq<Cut>)
    requires Ready(live, d)
    requires PlanOf(live, d, o).Steps? && NoDrift(live.device.labels, expected, d.labels)
    ensures var now := Interrupted(live, d, o, cuts);
      && Ready(now, d) && NoDrift(now.device.labels, expected, d.labels) && PlanOf(now, d, o).Steps?
      && ApplyAll(PlanSteps(now, d, o), now) == ApplyAll(PlanSteps(live, d, o), live)
    decreases cuts
  {
    if cuts != [] {
      var next := ApplyAll(Took(PlanSteps(live, d, o), cuts[0]), live);
      CutKeepsTarget(live, d, o, cuts[0]);
      CutKeepsGates(live, d, o, expected, cuts[0]);
      ResumedStepsReachTarget(next, d, o, expected, cuts[1..]);
      StepsReachTarget(next, d, o);
    }
    StepsReachTarget(live, d, o);
  }

  /** However often and wherever earlier attempts stopped, even between the two rows of a power
      step, the next one passes the drift gate and the planner, and completing it ends exactly
      where an uninterrupted run would; it can be completed if and only if no record was missing. */
  lemma ResumeReachesTarget(live: Live, d: Desired, o: Desired, expected: map<int, string>, cuts: seq<Cut>)
    requires Ready(live, d)
    requires PlanOf(live, d, o).Steps? && NoDrift(live.device.labels, expected, d.labels)
    ensures var now := Interrupted(live, d, o, cuts);
      && Ready(now, d) && NoDrift(now.device.labels, expected, d.labels) && PlanOf(now, d, o).Steps?
      && ApplyAll(PlanSteps(now, d, o), now) == ApplyAll(PlanSteps(live, d, o), live)
      && (Happens(live, d, o, cuts) ==> (RunsThrough(PlanSteps(now, d, o), now) <==> NoRecordMissing(live.device, d)))
  {
    ResumedStepsReachTarget(live, d, o, expected, cuts);
    if Happens(live, d, o, cuts) { ResumeCompletesIff(live, d, o, cuts, Interrupted(live, d, o, cuts)); }
  }

  /** The same request once its predecessor was saved under the device's id. */
  function Saved(q: Request, id: int): Request
    requires q.at < |q.records|
  {
    var r := q.records[q.at];
    q.(records := q.records[q.at :=
        r.(deployed := q.slots, deviceId := Some(id), hash := q.hash, port := Some(q.port))])
  }

  lemma SavedSnapshot(q: Request, id: int)
    requires q.at < |q.records| && |q.slots| == q.slotCount
    requires forall j :: 0 <= j < |q.records| && j != q.at ==> q.records[j].deviceId != Some(id)
    ensures Snapshot(Saved(q, id), id) == q.slots
  {
    assert Callbacks.OnlyOwner(Saved(q, id).records, q.at, id);
    Callbacks.RecordOfIff(Saved(q, id).records, id, q.at);
  }

  lemma SavedScope(q: Request, id: int)
    requires |q.slots| == q.slotCount && Snapshot(q, id) == q.slots
    ensures OwnedOf(q, id).keys == DesiredOf(q).keys && OwnedOf(q, id).activities == DesiredOf(q).activities
  {
  }

  lemma ScopedPlanStays(live: Live, d: Desired, o: Desired)
    requires o.activities == d.activities
    ensures PlanOf(live, d, o).Steps?
  {
  }

  lemma TargetHasNoDrift(live: Live, d: Desired, o: Desired)
    ensures NoDrift(Target(live, d, o).device.labels, d.labels, d.labels)
  {
  }

  lemma CompletedGates(live: Live, q: Request, done: Live)
    requires q.at < |q.records| && |q.slots| == q.slotCount > 0 && Ready(live, DesiredOf(q))
    requires forall j :: 0 <= j < |q.records| && j != q.at ==> q.records[j].deviceId != Some(live.id)
    requires done == Target(live, DesiredOf(q), OwnedOf(q, live.id))
    ensures var stored := Deployed(q.slots, Some(live.id), q.hash, Some(q.port));
      Proper(Saved(q, live.id), stored) && GatesPass(done, stored, Saved(q, live.id))
  {
    var d, o, again := DesiredOf(q), OwnedOf(q, live.id), Saved(q, live.id);
    SavedSnapshot(q, live.id);
    SavedScope(again, live.id);
    TargetHasNoDrift(live, d, o);
    ScopedPlanStays(done, d, OwnedOf(again, live.id));
  }

  /** A sync completes, given its acknowledgements, exactly when no record is missing; the next
      one then passes the gates on the snapshot just saved, and has nothing to write if and only
      if nothing had to be cleared.  Otherwise nothing was written, and the plan is due again. */
  lemma SyncAgain(live: Live, q: Request)
    requires q.at < |q.records| && |q.slots| == q.slotCount > 0 && Ready(live, DesiredOf(q))
    requires forall j :: 0 <= j < |q.records| && j != q.at ==> q.records[j].deviceId != Some(live.id)
    ensures var d, done := DesiredOf(q), Performed(PlanFor(live, q), live);
      var stored := Deployed(q.slots, Some(live.id), q.hash, Some(q.port));
      && (RunsThrough(PlanFor(live, q), live) <==> NoRecordMissing(live.device, d))
      && (NoRecordMissing(live.device, d) ==>
            && Proper(Saved(q, live.id), stored) && GatesPass(done, stored, Saved(q, live.id))
            && (PlanFor(done, Saved(q, live.id)) == [] <==> Clearable(live.device, d)))
      && (!NoRecordMissing(live.device, d) ==> done == live && PlanFor(live, q) != [])
  {
    var d, o, again := DesiredOf(q), OwnedOf(q, live.id), Saved(q, live.id);
    PlanReachesTarget(live, d, o);
    if NoRecordMissing(live.device, d) {
      CompletedGates(live, q, Performed(PlanFor(live, q), live));
      SavedSnapshot(q, live.id);
      SavedScope(again, live.id);
      NextPlanIsEmptyIff(live, d, o, OwnedOf(again, live.id));
    } else {
      MissingRecordBlocks(live, d, o);
    }
  }

  /** When the calls after the last write fail, the hub has the new brand while the store still
      has the old snapshot; the same request passes the gates again and makes up for the save,
      with nothing to write if and only if nothing had to be cleared. */
  lemma FailedTailIsMadeUp(live: Live, stored: Deployed, q: Request)
    requires Proper(q, stored) && GatesPass(live, stored, q) && Ready(live, DesiredOf(q))
    requires RunsThrough(PlanFor(live, q), live)
    ensures var done := Performed(PlanFor(live, q), live);
      && done.device.brand == q.brand && GatesPass(done, stored, q)
      && (PlanFor(done, q) == [] <==> Clearable(live.device, DesiredOf(q)))
  {
    var d, o := DesiredOf(q), OwnedOf(q, live.id);
    var steps := PlanSteps(live, d, o);
    PlanReachesTarget(live, d, o);
    CompleteRunIsAll(steps, live);
    CutKeepsGates(live, d, o, Labels(Snapshot(q, live.id), q.slotCount), Cut(|steps|, Nothing));
    NextPlanIsEmptyIff(live, d, o, o);
  }

  // ------------------------------------------------------- commit marker

  predicate Brandless(steps: seq<Step>) { forall s :: s in steps ==> !s.HeadCommit? }

  lemma {:induction false} BrandlessKeepsBrand(steps: seq<Step>, live: Live)
    requires Brandless(steps)
    ensures ApplyAll(steps, live).device.brand == live.device.brand
    decreases steps
  {
    if steps != [] {
      assert steps[0] in steps && forall s :: s in steps[1..] ==> s in steps;
      BrandlessKeepsBrand(steps[1..], Apply(steps[0], live));
    }
  }

  lemma CommitIsLast(live: Live, d: Desired, o: Desired)
    requires live.device.brand != d.brand
    ensures PlanSteps(live, d, o)
         == (DeviceSteps(live, d, o) + ActivitySteps(live, d, o)) + [HeadCommit(d.name, d.brand)]
  {
  }

  /** The run got as far as the last step's effect. */
  predicate ReachesEnd(n: nat, cut: Cut) { cut.count >= n || (cut.count == n - 1 && cut.took.Whole?) }

  lemma CommittedBrand(body: seq<Step>, name: string, brand: string, live: Live, cut: Cut)
    requires Brandless(body)
    ensures ApplyAll(Took(body + [HeadCommit(name, brand)], cut), live).device.brand
         == if ReachesEnd(|body| + 1, cut) then brand else live.device.brand
  {
    var steps := body + [HeadCommit(name, brand)];
    if ReachesEnd(|body| + 1, cut) {
      assert steps[..|body|] == body && steps[|body|] == HeadCommit(name, brand);
      assert Took(steps, cut) == steps;
      ApplySnoc(body, HeadCommit(name, brand), live);
    } else {
      assert steps[..cut.count] == body[..cut.count];
      assert Brandless(Took(steps, cut));
      BrandlessKeepsBrand(Took(steps, cut), live);
    }
  }

  /** While the brand differs, a stopped run leaves the old brand, hence the device reading out
      of step, exactly when it stopped short of the last step. */
  lemma BrandIsCommittedLast(live: Live, d: Desired, o: Desired, cut: Cut)
    requires live.device.brand != d.brand
    ensures ApplyAll(Took(PlanSteps(live, d, o), cut), live).device.brand
         == if ReachesEnd(|PlanSteps(live, d, o)|, cut) then d.brand else live.device.brand
  {
    var body := DeviceSteps(live, d, o) + ActivitySteps(live, d, o);
    CommitIsLast(live, d, o);
    BodyIsBrandless(live, d, o);
    CommittedBrand(body, d.name, d.brand, live, cut);
  }

  lemma DeviceIsBrandless(live: Live, d: Desired, o: Desired, s: Step)
    requires s in DeviceSteps(live, d, o)
    ensures !s.HeadCommit?
  {
    DeviceStepsHas(live, d, o, s);
  }

  lemma ActivityIsBrandless(live: Live, d: Desired, o: Desired, s: Step)
    requires s in ActivitySteps(live, d, o)
    ensures !s.HeadCommit?
  {
    ActivityStepsHas(live, d, o, s);
  }

  lemma BodyIsBrandless(live: Live, d: Desired, o: Desired)
    ensures Brandless(DeviceSteps(live, d, o) + ActivitySteps(live, d, o))
  {
    forall s: Step | s in DeviceSteps(live, d, o) ensures !s.HeadCommit? {
      DeviceIsBrandless(live, d, o, s);
    }
    forall s: Step | s in ActivitySteps(live, d, o) ensures !s.HeadCommit? {
      ActivityIsBrandless(live, d, o, s);
    }
    BrandlessJoins(DeviceSteps(live, d, o), ActivitySteps(live, d, o));
  }

  lemma BrandlessJoins(xs: seq<Step>, ys: seq<Step>)
    requires Brandless(xs) && Brandless(ys)
    ensures Brandless(xs + ys)
  {
  }

  // -------------------------------------------------- foreign references

  /** Reference by reference, what a complete run leaves of an activity the configuration
      names: wanted ones, and live ones unless we deployed them and want them no longer. */
  lemma ForeignReferencesSurvive(live: Live, d: Desired, o: Desired, a: int, f: Favorite, b: int)
    requires Ready(live, d) && a in d.activities
    ensures var before, after := live.activities[a], ApplyAll(PlanSteps(live, d, o), live).activities;
      && a in after && live.id in after[a].members && before.members <= after[a].members
      && OrdinalIn(after[a], live.id) == d.activities[a].ordinal
      && (f in after[a].favorites <==>
            if f.device != live.id then f in before.favorites
            else f.command in d.activities[a].favorites
                 || (f in before.favorites && f.command !in OwnedRefs(o, a).favorites))
      && (b !in d.activities[a].bindings && b in before.bindings && before.bindings[b].device != live.id ==>
            b in after[a].bindings && after[a].bindings[b] == before.bindings[b])
      && (b in d.activities[a].bindings ==>
            b in after[a].bindings && after[a].bindings[b] == Binding(live.id, d.activities[a].bindings[b]))
  {
    StepsReachTarget(live, d, o);
    if f.device == live.id { assert f == Favorite(live.id, f.command); }
  }

  /** An activity the configuration never named, then or now, is not touched at all. */
  lemma ForeignActivitiesSurvive(live: Live, d: Desired, o: Desired, a: int)
    requires Ready(live, d) && a in live.activities && a !in d.activities && a !in o.activities
    ensures var after := ApplyAll(PlanSteps(live, d, o), live).activities;
      a in after && after[a] == live.activities[a]
  {
    StepsReachTarget(live, d, o);
  }
}
