/** Event hooks of a hub: arming, the start, stop and power-off hooks of an activity
    change, and a monitor every armed trace must satisfy. */
module EventHooks {
  import opened Text

  type Activity = Option<int>

  /** A hook run handed to the event loop, in creation order. */
  datatype Hook =
    | ActivityStop(id: int) | HubStop
    | ActivityStart(id: int) | HubStart
    | PowerOff | RedundantOff

  // ----------------------------------------------------------- callbacks

  /** What the hub object keeps: the arming flag, the tracked activity, the hooks run. */
  datatype Hooks = Hooks(armed: bool, current: Activity, tasks: seq<Hook>)

  function HooksFor(now: Activity, was: Activity): seq<Hook> {
    (if was.Some? && was != now then [ActivityStop(was.value), HubStop] else [])
    + match now
      case Some(id) => [ActivityStart(id), HubStart]
      case None => if was.Some? then [PowerOff] else []
  }

  function OnChange(h: Hooks, now: Activity, was: Activity): Hooks {
    Hooks(true, now, h.tasks + if h.armed then HooksFor(now, was) else [])
  }

  /** `active` is the activity the catalogue flags as active. */
  function OnBurst(h: Hooks, ready: bool, active: Activity): Hooks {
    if ready then Hooks(true, active, h.tasks) else h
  }

  function OnListUpdate(h: Hooks, listed: bool, active: Activity): Hooks {
    if listed && active.Some? then h.(current := active) else h
  }

  function OnRedundantOff(h: Hooks): Hooks { h.(tasks := h.tasks + [RedundantOff]) }

  class EventHooks {
    var armed: bool
    var current: Activity
    var tasks: seq<Hook>

    function State(): Hooks
      reads this
    {
      Hooks(armed, current, tasks)
    }

    constructor ()
      ensures State() == Hooks(false, None, [])
    {
      armed, current, tasks := false, None, [];
    }

    method Create(hook: Hook)
      modifies this`tasks
      ensures tasks == old(tasks) + [hook]
    {
      tasks := tasks + [hook];
    }

    /** `_on_activity_change` */
    method ActivityChanged(now: Activity, was: Activity)
      modifies this
      ensures State() == OnChange(old(State()), now, was)
    {
      current := now;
      var wasArmed := armed;
      armed := true;
      if wasArmed && (now.Some? || was.Some?) {
        if was.Some? && was != now {
          Create(ActivityStop(was.value));
          Create(HubStop);
        }
        if now.Some? {
          Create(ActivityStart(now.value));
          Create(HubStart);
        } else if was.Some? {
          Create(PowerOff);
        }
      }
    }

    /** `_on_activities_burst` */
    method ActivitiesBurst(ready: bool, active: Activity)
      modifies this
      ensures State() == OnBurst(old(State()), ready, active)
    {
      if ready && !armed { armed := true; }
      if ready && active != current { current := active; }
    }

    /** `_on_activity_list_update` */
    method ActivityListUpdated(listed: bool, active: Activity)
      modifies this
      ensures State() == OnListUpdate(old(State()), listed, active)
    {
      if listed && active.Some? && active != current { current := active; }
    }

    /** `_on_redundant_off_press` */
    method RedundantOffPressed()
      modifies this
      ensures State() == OnRedundantOff(old(State()))
    {
      Create(RedundantOff);
    }
  }

  // -------------------------------------------------------------- a run

  /** The proxy tracks an activity and a hint of the next one.  `base` and `mark` record
      the tracked activity and the number of hooks at the moment of arming. */
  datatype System = System(tracked: Activity, hint: Activity, hub: Hooks, base: Activity, mark: nat)

  const START := System(None, None, Hooks(false, None, []), None, 0)

  /** A state check may be the answer to an OFF press on the remote. */
  datatype Event =
    | Hint(id: Activity)
    | Check(offPress: bool)
    | Burst(ready: bool, active: Activity)
    | ListUpdate(listed: bool, active: Activity)

  /** Callbacks carry the low byte of an activity id. */
  function Low(a: Activity): Activity {
    if a.Some? then Some(a.value % 256) else None
  }

  function OnEvent(s: System, e: Event): Hooks {
    match e
    case Hint(_) => s.hub
    case Check(offPress) =>
      if s.hint != s.tracked then OnChange(s.hub, Low(s.hint), Low(s.tracked))
      else if offPress && s.tracked.None? then OnRedundantOff(s.hub)
      else s.hub
    case Burst(ready, active) => OnBurst(s.hub, ready, active)
    case ListUpdate(listed, active) => OnListUpdate(s.hub, listed, active)
  }

  function Step(s: System, e: Event): System {
    var tracked := if e.Check? then s.hint else s.tracked;
    var hint := if e.Hint? then e.id else s.hint;
    var hub := OnEvent(s, e);
    if hub.armed && !s.hub.armed then System(tracked, hint, hub, Low(tracked), |hub.tasks|)
    else System(tracked, hint, hub, s.base, s.mark)
  }

  function Run(es: seq<Event>): System {
    if es == [] then START else Step(Run(es[..|es| - 1]), es[|es| - 1])
  }

  // ------------------------------------------------------------- monitor

  /** Where a well-behaved trace of hooks can stand. */
  datatype Mode = Off | Running(id: int) | Stopping | Stopped | Launching(id: int)

  function Next(m: Mode, h: Hook): Option<Mode> {
    match (m, h)
    case (Running(a), ActivityStop(b)) => if a == b then Some(Stopping) else None
    case (Stopping, HubStop) => Some(Stopped)
    case (Stopped, ActivityStart(b)) => Some(Launching(b))
    case (Stopped, PowerOff) => Some(Off)
    case (Off, ActivityStart(b)) => Some(Launching(b))
    case (Off, RedundantOff) => Some(Off)
    case (Launching(b), HubStart) => Some(Running(b))
    case _ => None
  }

  function Watch(m: Option<Mode>, hs: seq<Hook>): Option<Mode>
    decreases hs
  {
    if hs == [] || m.None? then m else Watch(Next(m.value, hs[0]), hs[1..])
  }

  function ModeOf(a: Activity): Mode {
    if a.Some? then Running(a.value) else Off
  }

  lemma {:induction false} WatchAppend(m: Option<Mode>, a: seq<Hook>, b: seq<Hook>)
    ensures Watch(m, a + b) == Watch(Watch(m, a), b)
    decreases a
  {
    if a == [] {
      assert a + b == b;
    } else if m.Some? {
      assert (a + b)[1..] == a[1..] + b;
      WatchAppend(Next(m.value, a[0]), a[1..], b);
    }
  }

  lemma WatchOne(m: Mode, h: Hook, rest: seq<Hook>)
    ensures Watch(Some(m), [h] + rest) == Watch(Next(m, h), rest)
  {
    assert ([h] + rest)[1..] == rest;
  }

  lemma WatchTwo(m: Mode, h: Hook, k: Hook)
    ensures Watch(Some(m), [h, k]) == if Next(m, h).Some? then Next(Next(m, h).value, k) else None
  {
    assert [h, k] == [h] + [k] && [k] == [k] + [];
    WatchOne(m, h, [k]);
    if Next(m, h).Some? { WatchOne(Next(m, h).value, k, []); }
  }

  /** The hooks of one change lead the monitor from the old activity to the new one,
      exactly when the two differ. */
  lemma ChangeIsWatched(now: Activity, was: Activity)
    requires now.Some? || was.Some?
    ensures Watch(Some(ModeOf(was)), HooksFor(now, was)) == if now == was then None else Some(ModeOf(now))
  {
    var stops := if was.Some? && was != now then [ActivityStop(was.value), HubStop] else [];
    var rest := match now
      case Some(id) => [ActivityStart(id), HubStart]
      case None => if was.Some? then [PowerOff] else [];
    assert HooksFor(now, was) == stops + rest;
    WatchAppend(Some(ModeOf(was)), stops, rest);
    if was.Some? { WatchTwo(Running(was.value), ActivityStop(was.value), HubStop); }
    var mid := if stops != [] then Stopped else ModeOf(was);
    if now.Some? {
      WatchTwo(mid, ActivityStart(now.value), HubStart);
    } else {
      WatchOne(mid, PowerOff, []);
      assert [PowerOff] == [PowerOff] + [];
    }
  }

  // --------------------------------------------------------- main theorem

  /** An armed check moves between two activities that share their low byte. */
  predicate Confused(s: System, e: Event) {
    && e.Check? && s.hub.armed && s.hint != s.tracked
    && s.hint.Some? && s.tracked.Some? && Low(s.hint) == Low(s.tracked)
  }

  predicate EverConfused(es: seq<Event>) {
    es != [] && (EverConfused(es[..|es| - 1]) || Confused(Run(es[..|es| - 1]), es[|es| - 1]))
  }

  predicate OnlyRedundant(hs: seq<Hook>) { forall h :: h in hs ==> h == RedundantOff }

  predicate Follows(s: System, confused: bool) {
    if !s.hub.armed then OnlyRedundant(s.hub.tasks)
    else
      && s.mark <= |s.hub.tasks| && OnlyRedundant(s.hub.tasks[..s.mark])
      && Watch(Some(ModeOf(s.base)), s.hub.tasks[s.mark..])
         == if confused then None else Some(ModeOf(Low(s.tracked)))
  }

  lemma ExtendTasks(s: System, confused: bool, more: seq<Hook>)
    requires s.hub.armed && Follows(s, confused)
    ensures var tasks := s.hub.tasks + more;
      && tasks[..s.mark] == s.hub.tasks[..s.mark]
      && Watch(Some(ModeOf(s.base)), tasks[s.mark..])
         == if confused then None else Watch(Some(ModeOf(Low(s.tracked))), more)
  {
    assert (s.hub.tasks + more)[s.mark..] == s.hub.tasks[s.mark..] + more;
    WatchAppend(Some(ModeOf(s.base)), s.hub.tasks[s.mark..], more);
  }

  lemma ArmedStepFollows(s: System, e: Event, confused: bool)
    requires s.hub.armed && Follows(s, confused)
    ensures Follows(Step(s, e), confused || Confused(s, e))
  {
    if e.Check? && s.hint != s.tracked {
      var now, was := Low(s.hint), Low(s.tracked);
      ExtendTasks(s, confused, HooksFor(now, was));
      ChangeIsWatched(now, was);
    } else if e.Check? && e.offPress && s.tracked.None? {
      ExtendTasks(s, confused, [RedundantOff]);
      WatchOne(Off, RedundantOff, []);
      assert [RedundantOff] + [] == [RedundantOff];
    }
  }

  lemma UnarmedStepFollows(s: System, e: Event)
    requires !s.hub.armed && OnlyRedundant(s.hub.tasks)
    ensures Follows(Step(s, e), false)
  {
    var after := Step(s, e);
    if after.hub.armed {
      assert after.hub.tasks == s.hub.tasks;
      assert after.hub.tasks[..after.mark] == after.hub.tasks && after.hub.tasks[after.mark..] == [];
    }
  }

  lemma {:induction false} NeverConfusedUnarmed(es: seq<Event>)
    requires !Run(es).hub.armed
    ensures !EverConfused(es)
  {
    if es != [] { NeverConfusedUnarmed(es[..|es| - 1]); }
  }

  /** Over every run: before arming nothing but the redundant-off hook fires; from arming
      on, stop precedes start, starts and stops alternate, power-off fires exactly on the
      way to no activity, and the trace ends at the activity the proxy tracks - if and only
      if no armed change was between two ids with the same low byte. */
  lemma {:induction false} HooksFollowActivity(es: seq<Event>)
    ensures Follows(Run(es), EverConfused(es))
  {
    if es != [] {
      var front := es[..|es| - 1];
      HooksFollowActivity(front);
      if Run(front).hub.armed {
        ArmedStepFollows(Run(front), es[|es| - 1], EverConfused(front));
      } else {
        NeverConfusedUnarmed(front);
        UnarmedStepFollows(Run(front), es[|es| - 1]);
      }
    }
  }

  /** Ids within one byte never confuse, so for them the monitor always accepts. */
  lemma {:induction false} ByteIdsNeverConfuse(es: seq<Event>)
    requires forall e :: e in es && e.Hint? && e.id.Some? ==> 0 <= e.id.value < 256
    ensures !EverConfused(es)
    ensures var s := Run(es);
      (s.hint.Some? ==> 0 <= s.hint.value < 256) && (s.tracked.Some? ==> 0 <= s.tracked.value < 256)
  {
    if es != [] {
      var front := es[..|es| - 1];
      assert forall e :: e in front ==> e in es;
      ByteIdsNeverConfuse(front);
      assert es[|es| - 1] in es;
    }
  }

  /** Ids 1 and 257 share a byte: the change between them starts activity 1 a second time
      without stopping it. */
  lemma SharedByteRestarts()
    ensures var es := [Burst(true, None), Hint(Some(1)), Check(false), Hint(Some(257)), Check(false)];
      EverConfused(es) && Run(es).hub.tasks == [ActivityStart(1), HubStart, ActivityStart(1), HubStart]
  {
    var e1 := [Burst(true, None)];
    var e2 := e1 + [Hint(Some(1))];
    var e3 := e2 + [Check(false)];
    var e4 := e3 + [Hint(Some(257))];
    RunSnoc([], Burst(true, None));
    RunSnoc(e1, Hint(Some(1)));
    RunSnoc(e2, Check(false));
    RunSnoc(e3, Hint(Some(257)));
    RunSnoc(e4, Check(false));
    assert Run(e1) == System(None, None, Hooks(true, None, []), None, 0);
    assert Run(e3) == System(Some(1), Some(1), Hooks(true, Some(1), [ActivityStart(1), HubStart]), None, 0);
    assert Run(e4) == Run(e3).(hint := Some(257));
    assert Confused(Run(e4), Check(false));
    assert e4 + [Check(false)] == [Burst(true, None), Hint(Some(1)), Check(false), Hint(Some(257)), Check(false)];
  }

  lemma RunSnoc(es: seq<Event>, e: Event)
    ensures Run(es + [e]) == Step(Run(es), e)
    ensures EverConfused(es + [e]) <==> EverConfused(es) || Confused(Run(es), e)
  {
    assert (es + [e])[..|es|] == es;
  }

  /** A burst or list update that reports the activity the proxy tracks. */
  predicate Honest(s: System, e: Event) {
    match e
    case Burst(ready, active) => ready ==> active == Low(s.tracked)
    case ListUpdate(listed, active) => listed && active.Some? ==> active == Low(s.tracked)
    case _ => true
  }

  predicate AllHonest(es: seq<Event>) {
    es == [] || (AllHonest(es[..|es| - 1]) && Honest(Run(es[..|es| - 1]), es[|es| - 1]))
  }

  /** With catalogues that agree with the proxy, the hub object always names the activity
      the trace of hooks stands at. */
  lemma {:induction false} TrackedActivityFollowsProxy(es: seq<Event>)
    requires AllHonest(es)
    ensures Run(es).hub.current == Low(Run(es).tracked)
  {
    if es != [] {
      TrackedActivityFollowsProxy(es[..|es| - 1]);
    }
  }

  // -------------------------------------------------------------- one event

  /** A complete read of the activities, or a change of the tracked one, arms the hooks. */
  predicate Arms(s: System, e: Event) {
    (e.Burst? && e.ready) || (e.Check? && s.hint != s.tracked)
  }

  predicate EverArms(es: seq<Event>) {
    es != [] && (EverArms(es[..|es| - 1]) || Arms(Run(es[..|es| - 1]), es[|es| - 1]))
  }

  /** The hooks are armed exactly when some event of the run armed them. */
  lemma {:induction false} ArmedIff(es: seq<Event>)
    ensures Run(es).hub.armed <==> EverArms(es)
  {
    if es != [] { ArmedIff(es[..|es| - 1]); }
  }

  /** What an event says is active: the new activity of a change, or what a complete read or a
      list with an active entry flags. */
  function Reported(s: System, e: Event): Option<Activity> {
    match e
    case Hint(_) => None
    case Check(_) => if s.hint == s.tracked then None else Some(Low(s.hint))
    case Burst(ready, active) => if ready then Some(active) else None
    case ListUpdate(listed, active) => if listed && active.Some? then Some(active) else None
  }

  /** Position k holds the last event that said so. */
  predicate LastReport(es: seq<Event>, k: nat) {
    && k < |es| && Reported(Run(es[..k]), es[k]).Some?
    && forall j :: k < j < |es| ==> Reported(Run(es[..j]), es[j]).None?
  }

  predicate NoReport(es: seq<Event>) {
    forall j :: 0 <= j < |es| ==> Reported(Run(es[..j]), es[j]).None?
  }

  lemma ReportStands(s: System, e: Event)
    ensures Step(s, e).hub.current == if Reported(s, e).Some? then Reported(s, e).value else s.hub.current
  {
  }

  lemma FrontReports(es: seq<Event>, k: nat)
    requires k + 1 < |es| && LastReport(es, k)
    ensures var front := es[..|es| - 1];
      LastReport(front, k) && front[..k] == es[..k] && Reported(Run(front), es[|es| - 1]).None?
  {
    var front := es[..|es| - 1];
    forall j | 0 <= j < |front| ensures front[..j] == es[..j] && front[j] == es[j] {
    }
  }

  lemma FrontIsSilent(es: seq<Event>)
    requires es != [] && NoReport(es)
    ensures NoReport(es[..|es| - 1]) && Reported(Run(es[..|es| - 1]), es[|es| - 1]).None?
  {
    var front := es[..|es| - 1];
    forall j | 0 <= j < |front| ensures Reported(Run(front[..j]), front[j]).None? {
      assert front[..j] == es[..j];
    }
  }

  lemma {:induction false} NothingReported(es: seq<Event>)
    requires NoReport(es)
    ensures Run(es).hub.current == None
  {
    if es != [] {
      FrontIsSilent(es);
      NothingReported(es[..|es| - 1]);
      ReportStands(Run(es[..|es| - 1]), es[|es| - 1]);
    }
  }

  lemma {:induction false} LastReportStands(es: seq<Event>, k: nat)
    requires LastReport(es, k)
    ensures Run(es).hub.current == Reported(Run(es[..k]), es[k]).value
  {
    var front := es[..|es| - 1];
    ReportStands(Run(front), es[|es| - 1]);
    if k + 1 < |es| {
      FrontReports(es, k);
      LastReportStands(front, k);
    }
  }

  /** The hub object names the activity last reported, and none before any report. */
  lemma CurrentIsLastReport(es: seq<Event>, k: nat)
    ensures LastReport(es, k) ==> Run(es).hub.current == Reported(Run(es[..k]), es[k]).value
    ensures NoReport(es) ==> Run(es).hub.current == None
  {
    if LastReport(es, k) { LastReportStands(es, k); }
    if NoReport(es) { NothingReported(es); }
  }

  predicate ChangesArmed(s: System, e: Event) { e.Check? && s.hint != s.tracked && s.hub.armed }

  predicate PressesOffAgain(s: System, e: Event) { e.Check? && s.hint == s.tracked && e.offPress && s.tracked.None? }

  /** The hooks one event adds: of a change, to the armed, stop, start and power-off in that order;
      of an OFF press while off, the redundant one, armed or not; of anything else none. */
  lemma EventFires(s: System, e: Event)
    ensures var fired := Step(s, e).hub.tasks;
      && |s.hub.tasks| <= |fired| && fired[..|s.hub.tasks|] == s.hub.tasks
      && var more := fired[|s.hub.tasks|..];
      if ChangesArmed(s, e) then ChangeFires(more, Low(s.tracked), Low(s.hint))
      else more == if PressesOffAgain(s, e) then [RedundantOff] else []
  {
    assert s.hub.tasks + [] == s.hub.tasks;
  }

  predicate ChangeFires(hooks: seq<Hook>, was: Activity, now: Activity) {
    match (was, now)
    case (None, None) => hooks == []
    case (None, Some(b)) => hooks == [ActivityStart(b), HubStart]
    case (Some(a), None) => hooks == [ActivityStop(a), HubStop, PowerOff]
    case (Some(a), Some(b)) =>
      hooks == if a == b then [ActivityStart(b), HubStart] else [ActivityStop(a), HubStop, ActivityStart(b), HubStart]
  }
}
