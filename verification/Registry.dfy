/** Background operations: guarded starts, progress updates, terminal results with cleanup
    timers, and the invariant all of them keep. */
module Registry {
  import opened Text

  // --------------------------------------------------------------- state

  /** `status` as it reads back; a missing or empty one is Unset. */
  datatype Status = Unset | Pending | Running | Success | Failed | Other(text: string)

  predicate Active(s: Status) { s.Pending? || s.Running? }
  predicate Terminal(s: Status) { s.Success? || s.Failed? }

  /** `timer` is the handle of the scheduled cleanup. */
  datatype Op = Op(kind: string, entry: string, status: Status, backup: bool, downloaded: bool, timer: Option<nat>)

  datatype Notice = Notice(id: nat, status: Status)

  /** Operations by creation number, live timers with the operation each will clean up,
      and the progress notices sent so far. */
  datatype Reg = Reg(ops: map<nat, Op>, next: nat, timers: map<nat, nat>, nextTimer: nat, notices: seq<Notice>)

  const EMPTY := Reg(map[], 0, map[], 0, [])

  /** What an update may carry: a status (an empty one included) and a backup bundle. */
  datatype Payload = Payload(status: Option<Status>, backup: Option<bool>)

  // ---------------------------------------------------------- operations

  function SetOp(r: Reg, id: nat, op: Op): Reg { r.(ops := r.ops[id := op]) }

  function Notify(r: Reg, id: nat): Reg
    requires id in r.ops
  {
    r.(notices := r.notices + [Notice(id, r.ops[id].status)])
  }

  function Handles(op: Op): set<nat> { if op.timer.Some? then {op.timer.value} else {} }

  function Schedule(r: Reg, id: nat): Reg
    requires id in r.ops
  {
    var op := r.ops[id];
    r.(ops := r.ops[id := op.(timer := Some(r.nextTimer))],
       timers := (r.timers - Handles(op))[r.nextTimer := id],
       nextTimer := r.nextTimer + 1)
  }

  function Drop(r: Reg, id: nat): Reg
    requires id in r.ops
  {
    r.(ops := r.ops - {id}, timers := r.timers - Handles(r.ops[id]))
  }

  predicate Stale(op: Op, entry: string, kind: string) {
    op.entry == entry && op.kind == kind && !Active(op.status)
  }

  /** Completed operations of the same entry and kind among the first n created go away. */
  function DropCompleted(r: Reg, entry: string, kind: string, n: nat): Reg {
    if n == 0 then r
    else
      var front := DropCompleted(r, entry, kind, n - 1);
      if n - 1 in front.ops && Stale(front.ops[n - 1], entry, kind) then Drop(front, n - 1) else front
  }

  function Added(r: Reg, op: Op): Reg { r.(ops := r.ops[r.next := op], next := r.next + 1) }

  function Create(r: Reg, kind: string, entry: string, status: Status): Reg {
    Added(DropCompleted(r, entry, kind, r.next), Op(kind, entry, status, false, false, None))
  }

  predicate HasRunning(r: Reg, entry: string) {
    exists id :: id in r.ops && r.ops[id].entry == entry && Active(r.ops[id].status)
  }

  /** A late active status never demotes a finished operation. */
  predicate Demotes(op: Op, p: Payload) {
    Terminal(op.status) && p.status.Some? && Active(p.status.value)
  }

  function Updated(op: Op, p: Payload): Op {
    op.(status := if p.status.Some? then p.status.value else op.status,
        backup := if p.backup.Some? then p.backup.value else op.backup)
  }

  function Update(r: Reg, id: nat, p: Payload): Reg {
    if id !in r.ops || Demotes(r.ops[id], p) then r
    else
      var told := Notify(SetOp(r, id, Updated(r.ops[id], p)), id);
      if Terminal(told.ops[id].status) then Schedule(told, id) else told
  }

  function ClearBackup(r: Reg, id: nat): Reg {
    if id !in r.ops || !r.ops[id].backup then r
    else Schedule(Notify(SetOp(r, id, r.ops[id].(backup := false, downloaded := true)), id), id)
  }

  function Dismiss(r: Reg, id: nat): Reg {
    if id !in r.ops || Active(r.ops[id].status) then r else Drop(r, id)
  }

  function FlagDownloaded(r: Reg, id: nat): Reg {
    if id !in r.ops || r.ops[id].downloaded then r
    else Notify(SetOp(r, id, r.ops[id].(downloaded := true)), id)
  }

  /** A subscriber is handed the current state at once. */
  function Subscribe(r: Reg, id: nat): Reg {
    if id in r.ops then Notify(r, id) else r
  }

  /** A timer goes off: subscribers hear of an expired bundle, then the operation goes. */
  function Fire(r: Reg, timer: nat): Reg {
    if timer !in r.timers then r
    else
      var id := r.timers[timer];
      var spent := r.(timers := r.timers - {timer});
      if id !in r.ops then spent
      else
        var told := if r.ops[id].backup then Notify(SetOp(spent, id, spent.ops[id].(backup := false)), id) else spent;
        told.(ops := told.ops - {id})
  }

  // -------------------------------------------------------------- a run

  datatype Call =
    | Start(kind: string, entry: string)      // guarded by the busy check, no await between
    | Stash(entry: string)                    // an edited bundle, finished at once
    | Progress(id: nat, payload: Payload)
    | Hear(id: nat)
    | Clear(id: nat)
    | Discard(id: nat)
    | Download(id: nat)
    | Expire(timer: nat)

  const EDITED_KIND := "backup_edited"
  const STASHED := Payload(Some(Success), Some(true))

  function Step(r: Reg, c: Call): Reg {
    match c
    case Start(kind, entry) => if HasRunning(r, entry) then r else Create(r, kind, entry, Pending)
    case Stash(entry) => Update(Create(r, EDITED_KIND, entry, Unset), r.next, STASHED)
    case Progress(id, p) => Update(r, id, p)
    case Hear(id) => Subscribe(r, id)
    case Clear(id) => ClearBackup(r, id)
    case Discard(id) => Dismiss(r, id)
    case Download(id) => FlagDownloaded(r, id)
    case Expire(t) => Fire(r, t)
  }

  // ----------------------------------------------------------- invariant

  /** Every operation is active or finished, is older than the next one, and keeps a bundle
      only once finished; a stashed one always is. */
  predicate OpsInv(r: Reg) {
    forall id :: id in r.ops ==> id < r.next && Sound(r.ops[id])
  }

  /** At most one active operation per entry, at most one operation per entry and kind. */
  predicate Exclusive(r: Reg) {
    forall a, b :: a in r.ops && b in r.ops && a != b && r.ops[a].entry == r.ops[b].entry ==>
      r.ops[a].kind != r.ops[b].kind && !(Active(r.ops[a].status) && Active(r.ops[b].status))
  }

  /** Live timers belong one to one to the finished operations. */
  predicate TimersInv(r: Reg) {
    && (forall id :: id in r.ops ==>
          && (r.ops[id].timer.Some? <==> Terminal(r.ops[id].status))
          && (r.ops[id].timer.Some? ==>
                r.ops[id].timer.value in r.timers && r.timers[r.ops[id].timer.value] == id))
    && (forall t :: t in r.timers ==>
          t < r.nextTimer && r.timers[t] in r.ops && r.ops[r.timers[t]].timer == Some(t))
  }

  /** Once a finished status was announced, no active one is, and the operation stays
      finished for as long as it exists. */
  predicate NoticesInv(r: Reg) {
    && (forall k :: 0 <= k < |r.notices| ==>
          && r.notices[k].id < r.next
          && (Terminal(r.notices[k].status) && r.notices[k].id in r.ops ==> Terminal(r.ops[r.notices[k].id].status)))
    && (forall j, k ::
          0 <= j < k < |r.notices| && r.notices[j].id == r.notices[k].id && Terminal(r.notices[j].status) ==>
          !Active(r.notices[k].status))
  }

  predicate Inv(r: Reg) { OpsInv(r) && Exclusive(r) && TimersInv(r) && NoticesInv(r) }

  /** What callers owe: no guarded start stashes a bundle; a progress payload names a
      known status or none, and carries a bundle only with a finished one. */
  predicate Proper(r: Reg, c: Call) {
    match c
    case Start(kind, entry) => HasRunning(r, entry) || kind != EDITED_KIND
    case Progress(id, p) => id in r.ops && !Demotes(r.ops[id], p) ==> Sound(Updated(r.ops[id], p))
    case _ => true
  }

  predicate Sound(op: Op) {
    && (Active(op.status) || Terminal(op.status))
    && (op.backup || op.kind == EDITED_KIND ==> Terminal(op.status))
  }

  // ------------------------------------------------- invariant, one step

  lemma NotifyKeepsInv(r: Reg, id: nat)
    requires OpsInv(r) && NoticesInv(r) && id in r.ops
    ensures NoticesInv(Notify(r, id))
  {
  }

  lemma ScheduleKeepsTimers(r: Reg, was: Op, id: nat)
    requires id in r.ops && Terminal(r.ops[id].status)
    requires TimersInv(SetOp(r, id, was)) && was.timer == r.ops[id].timer
    ensures TimersInv(Schedule(r, id))
  {
    var before := SetOp(r, id, was);
    assert before.ops[id] == was;
    forall a | a in r.ops && a != id ensures before.ops[a] == r.ops[a] {
    }
  }

  lemma DropKeepsInv(r: Reg, id: nat)
    requires Inv(r) && id in r.ops
    ensures Inv(Drop(r, id))
  {
    var after := Drop(r, id);
    forall t | t in after.timers ensures after.timers[t] in after.ops {
      assert t in r.timers;
    }
  }

  lemma {:induction false} DropCompletedKeepsInv(r: Reg, entry: string, kind: string, n: nat)
    requires Inv(r)
    ensures Inv(DropCompleted(r, entry, kind, n))
  {
    if n > 0 {
      DropCompletedKeepsInv(r, entry, kind, n - 1);
      var front := DropCompleted(r, entry, kind, n - 1);
      if n - 1 in front.ops {
        DropKeepsInv(front, n - 1);
      }
    }
  }

  /** Exactly the completed operations of that entry and kind go. */
  lemma {:induction false} DropCompletedDrops(r: Reg, entry: string, kind: string, n: nat)
    ensures var after := DropCompleted(r, entry, kind, n);
      && after.next == r.next && after.nextTimer == r.nextTimer && after.notices == r.notices
      && (forall id :: id in after.ops <==> id in r.ops && !(id < n && Stale(r.ops[id], entry, kind)))
      && (forall id :: id in after.ops ==> after.ops[id] == r.ops[id])
  {
    if n > 0 {
      DropCompletedDrops(r, entry, kind, n - 1);
    }
  }

  lemma AddKeepsInv(r: Reg, kind: string, entry: string)
    requires Inv(r) && !HasRunning(r, entry) && kind != EDITED_KIND
    requires forall id :: id in r.ops && r.ops[id].entry == entry ==> r.ops[id].kind != kind
    ensures Inv(Added(r, Op(kind, entry, Pending, false, false, None)))
  {
  }

  lemma StartKeepsInv(r: Reg, kind: string, entry: string)
    requires Inv(r) && !HasRunning(r, entry) && kind != EDITED_KIND
    ensures Inv(Create(r, kind, entry, Pending))
  {
    DropCompletedKeepsInv(r, entry, kind, r.next);
    DropCompletedDrops(r, entry, kind, r.next);
    var kept := DropCompleted(r, entry, kind, r.next);
    forall id | id in kept.ops && kept.ops[id].entry == entry ensures kept.ops[id].kind != kind {
      assert id in r.ops && !Active(r.ops[id].status);
    }
    AddKeepsInv(kept, kind, entry);
  }

  /** Rewriting one operation without changing what it is or starting it again. */
  lemma RewriteKeepsInv(r: Reg, id: nat, op: Op)
    requires OpsInv(r) && Exclusive(r) && NoticesInv(r) && id in r.ops && Sound(op)
    requires op.kind == r.ops[id].kind && op.entry == r.ops[id].entry
    requires Active(op.status) ==> Active(r.ops[id].status)
    ensures var after := SetOp(r, id, op); OpsInv(after) && Exclusive(after) && NoticesInv(after)
  {
  }

  lemma ScheduleKeepsRest(r: Reg, id: nat)
    requires OpsInv(r) && Exclusive(r) && NoticesInv(r) && id in r.ops
    ensures var after := Schedule(r, id); OpsInv(after) && Exclusive(after) && NoticesInv(after)
  {
    RewriteKeepsInv(r, id, r.ops[id].(timer := Some(r.nextTimer)));
  }

  lemma UpdateKeepsInv(r: Reg, id: nat, p: Payload)
    requires Inv(r) && id in r.ops && !Demotes(r.ops[id], p) && Sound(Updated(r.ops[id], p))
    ensures Inv(Update(r, id, p))
  {
    var op := Updated(r.ops[id], p);
    var written := SetOp(r, id, op);
    RewriteKeepsInv(r, id, op);
    NotifyKeepsInv(written, id);
    var told := Notify(written, id);
    if Terminal(op.status) {
      assert SetOp(told, id, r.ops[id]).ops == r.ops;
      ScheduleKeepsTimers(told, r.ops[id], id);
      ScheduleKeepsRest(told, id);
    }
  }

  lemma ClearKeepsInv(r: Reg, id: nat)
    requires Inv(r)
    ensures Inv(ClearBackup(r, id))
  {
    if id in r.ops && r.ops[id].backup {
      var op := r.ops[id].(backup := false, downloaded := true);
      var written := SetOp(r, id, op);
      RewriteKeepsInv(r, id, op);
      NotifyKeepsInv(written, id);
      var told := Notify(written, id);
      assert SetOp(told, id, r.ops[id]).ops == r.ops;
      ScheduleKeepsTimers(told, r.ops[id], id);
      ScheduleKeepsRest(told, id);
    }
  }

  lemma DownloadKeepsInv(r: Reg, id: nat)
    requires Inv(r)
    ensures Inv(FlagDownloaded(r, id))
  {
    if id in r.ops && !r.ops[id].downloaded {
      var op := r.ops[id].(downloaded := true);
      RewriteKeepsInv(r, id, op);
      NotifyKeepsInv(SetOp(r, id, op), id);
    }
  }

  /** A live timer belongs to a finished operation; firing it removes that one. */
  lemma FireKeepsInv(r: Reg, t: nat)
    requires Inv(r)
    ensures Inv(Fire(r, t))
  {
    if t in r.timers {
      var id := r.timers[t];
      DropKeepsInv(r, id);
      assert Fire(r, t).ops == Drop(r, id).ops && Fire(r, t).timers == Drop(r, id).timers;
    }
  }

  /** A stashed bundle enters finished, with its own timer. */
  function WithStashed(r: Reg, entry: string): Reg {
    Reg(r.ops[r.next := Op(EDITED_KIND, entry, Success, true, false, Some(r.nextTimer))], r.next + 1,
        r.timers[r.nextTimer := r.next], r.nextTimer + 1, r.notices + [Notice(r.next, Success)])
  }

  /** A first update that finishes an operation, seen field by field. */
  lemma FinishFresh(r: Reg, id: nat, p: Payload)
    requires id in r.ops && r.ops[id].timer.None? && !Terminal(r.ops[id].status)
    requires p.status.Some? && Terminal(p.status.value)
    ensures Update(r, id, p)
         == Reg(r.ops[id := Updated(r.ops[id], p).(timer := Some(r.nextTimer))], r.next,
                r.timers[r.nextTimer := id], r.nextTimer + 1, r.notices + [Notice(id, p.status.value)])
  {
    var told := Notify(SetOp(r, id, Updated(r.ops[id], p)), id);
    assert told.timers - {} == told.timers;
    assert told.ops[id := Updated(r.ops[id], p).(timer := Some(r.nextTimer))]
        == r.ops[id := Updated(r.ops[id], p).(timer := Some(r.nextTimer))];
  }

  lemma StashAddsFinished(r: Reg, entry: string)
    ensures Step(r, Stash(entry))
         == WithStashed(DropCompleted(r, entry, EDITED_KIND, r.next), entry)
  {
    DropCompletedDrops(r, entry, EDITED_KIND, r.next);
    StashOn(DropCompleted(r, entry, EDITED_KIND, r.next), entry);
  }

  lemma StashOn(kept: Reg, entry: string)
    ensures var unset := Op(EDITED_KIND, entry, Unset, false, false, None);
      Update(Added(kept, unset), kept.next, STASHED) == WithStashed(kept, entry)
  {
    var unset := Op(EDITED_KIND, entry, Unset, false, false, None);
    var made := Added(kept, unset);
    FinishFresh(made, kept.next, STASHED);
    assert made.ops[kept.next := Updated(unset, STASHED).(timer := Some(kept.nextTimer))]
        == WithStashed(kept, entry).ops;
  }

  lemma WithStashedTimers(r: Reg, entry: string)
    requires OpsInv(r) && TimersInv(r)
    ensures TimersInv(WithStashed(r, entry))
  {
  }

  lemma WithStashedRest(r: Reg, entry: string)
    requires OpsInv(r) && Exclusive(r) && NoticesInv(r)
    requires forall id :: id in r.ops && r.ops[id].entry == entry ==> r.ops[id].kind != EDITED_KIND
    ensures var after := WithStashed(r, entry); OpsInv(after) && Exclusive(after) && NoticesInv(after)
  {
  }

  lemma StashKeepsInv(r: Reg, entry: string)
    requires Inv(r)
    ensures Inv(Step(r, Stash(entry)))
  {
    StashAddsFinished(r, entry);
    DropCompletedKeepsInv(r, entry, EDITED_KIND, r.next);
    NoStashLeft(r, entry);
    var kept := DropCompleted(r, entry, EDITED_KIND, r.next);
    WithStashedTimers(kept, entry);
    WithStashedRest(kept, entry);
  }

  lemma NoStashLeft(r: Reg, entry: string)
    requires OpsInv(r)
    ensures var kept := DropCompleted(r, entry, EDITED_KIND, r.next);
      forall id :: id in kept.ops && kept.ops[id].entry == entry ==> kept.ops[id].kind != EDITED_KIND
  {
    DropCompletedDrops(r, entry, EDITED_KIND, r.next);
    var kept := DropCompleted(r, entry, EDITED_KIND, r.next);
    forall id | id in kept.ops && kept.ops[id].entry == entry ensures kept.ops[id].kind != EDITED_KIND {
      assert Sound(r.ops[id]);
    }
  }

  // --------------------------------------------------------- main results

  /** One proper call keeps the invariant. */
  lemma StepKeepsInv(r: Reg, c: Call)
    requires Inv(r) && Proper(r, c)
    ensures Inv(Step(r, c))
  {
    match c
    case Start(kind, entry) =>
      if !HasRunning(r, entry) { StartKeepsInv(r, kind, entry); }
    case Stash(entry) => StashKeepsInv(r, entry);
    case Progress(id, p) =>
      if id in r.ops && !Demotes(r.ops[id], p) { UpdateKeepsInv(r, id, p); }
    case Hear(id) =>
      if id in r.ops { NotifyKeepsInv(r, id); }
    case Clear(id) => ClearKeepsInv(r, id);
    case Discard(id) =>
      if id in r.ops { DropKeepsInv(r, id); }
    case Download(id) => DownloadKeepsInv(r, id);
    case Expire(t) => FireKeepsInv(r, t);
  }

  function Run(r: Reg, cs: seq<Call>): Reg
    decreases cs
  {
    if cs == [] then r else Run(Step(r, cs[0]), cs[1..])
  }

  predicate RunProper(r: Reg, cs: seq<Call>)
    decreases cs
  {
    cs == [] || (Proper(r, cs[0]) && RunProper(Step(r, cs[0]), cs[1..]))
  }

  /** Any sequence of proper calls keeps the invariant. */
  lemma {:induction false} RunKeepsInv(r: Reg, cs: seq<Call>)
    requires Inv(r) && RunProper(r, cs)
    ensures Inv(Run(r, cs))
    decreases cs
  {
    if cs != [] {
      StepKeepsInv(r, cs[0]);
      RunKeepsInv(Step(r, cs[0]), cs[1..]);
    }
  }

  // ------------------------------------------- what an improper call costs

  /** What the registry promises: exclusive operations, timers one to one with finished ones,
      no active notice after a finished one. */
  predicate Promises(r: Reg) { Exclusive(r) && TimersInv(r) && NoticesInv(r) }

  /** Whatever proper calls follow, the promises hold. */
  ghost predicate HoldsFromHere(r: Reg) {
    forall cs :: RunProper(r, cs) ==> Promises(Run(r, cs))
  }

  lemma RunOne(r: Reg, c: Call)
    ensures Run(r, [c]) == Step(r, c) && (RunProper(r, [c]) <==> Proper(r, c))
  {
    assert [c][1..] == [];
  }

  lemma RunTwo(r: Reg, c: Call, d: Call)
    ensures Run(r, [c, d]) == Step(Step(r, c), d)
    ensures RunProper(r, [c, d]) <==> Proper(r, c) && Proper(Step(r, c), d)
  {
    assert [c, d][1..] == [d];
    RunOne(Step(r, c), d);
  }

  /** A guarded start of a stash: the next stash is a second one beside it. */
  lemma StartedStashBreaks(r: Reg, entry: string)
    requires OpsInv(r) && !HasRunning(r, entry)
    ensures !Exclusive(Step(Step(r, Start(EDITED_KIND, entry)), Stash(entry)))
  {
    var started := Step(r, Start(EDITED_KIND, entry));
    DropCompletedDrops(r, entry, EDITED_KIND, r.next);
    assert started.ops[r.next].status == Pending;
    StashAddsFinished(started, entry);
    DropCompletedDrops(started, entry, EDITED_KIND, started.next);
    var after := Step(started, Stash(entry));
    assert r.next in after.ops && started.next in after.ops;
  }

  /** A bundle on an active operation: clearing it sets a timer. */
  lemma EarlyBundleBreaks(r: Reg, id: nat)
    requires id in r.ops && r.ops[id].backup && !Terminal(r.ops[id].status)
    ensures !TimersInv(Step(r, Clear(id)))
  {
    assert Step(r, Clear(id)).ops[id].timer.Some?;
  }

  /** A kind that is not this one and no stash. */
  function AnotherKind(kind: string): (other: string)
    ensures other != kind && other != EDITED_KIND
  {
    if kind == "restore" then "backup" else "restore"
  }

  const RESUMED := Payload(Some(Running), Some(false))

  /** An operation whose status is unknown is neither active, so that another may start, nor
      finished, so that it may itself go on. */
  lemma UnknownStatusBreaks(r: Reg, id: nat)
    requires id in r.ops && id < r.next && !Active(r.ops[id].status) && !Terminal(r.ops[id].status)
    requires !HasRunning(r, r.ops[id].entry) && r.ops[id].kind != EDITED_KIND
    ensures var start := Start(AnotherKind(r.ops[id].kind), r.ops[id].entry);
      && Proper(r, start) && Proper(Step(r, start), Progress(id, RESUMED))
      && !Exclusive(Step(Step(r, start), Progress(id, RESUMED)))
  {
    var kind, entry := AnotherKind(r.ops[id].kind), r.ops[id].entry;
    DropCompletedDrops(r, entry, kind, r.next);
    var started := Step(r, Start(kind, entry));
    assert id in started.ops && started.ops[id] == r.ops[id] && r.next in started.ops;
    var after := Step(started, Progress(id, RESUMED));
    assert Active(after.ops[id].status) && Active(after.ops[r.next].status);
  }

  lemma ImproperProgressBreaks(r: Reg, id: nat, p: Payload) returns (cs: seq<Call>)
    requires Inv(r) && !Proper(r, Progress(id, p))
    ensures var after := Step(r, Progress(id, p)); RunProper(after, cs) && !Promises(Run(after, cs))
  {
    var op, after := r.ops[id], Step(r, Progress(id, p));
    assert Sound(op) && after.ops[id] == Updated(op, p) && after.next == r.next;
    if Active(after.ops[id].status) {
      cs := [Clear(id)];
      RunOne(after, Clear(id));
      EarlyBundleBreaks(after, id);
    } else if Terminal(op.status) {
      cs := [];
      assert after.ops[id].timer.Some? && !Terminal(after.ops[id].status);
    } else {
      var start := Start(AnotherKind(op.kind), op.entry);
      cs := [start, Progress(id, RESUMED)];
      RunTwo(after, start, Progress(id, RESUMED));
      NobodyElseRuns(r, id, after);
      UnknownStatusBreaks(after, id);
    }
  }

  lemma NobodyElseRuns(r: Reg, id: nat, after: Reg)
    requires Exclusive(r) && id in r.ops && Active(r.ops[id].status)
    requires id in after.ops && !Active(after.ops[id].status) && after.ops == r.ops[id := after.ops[id]]
    ensures !HasRunning(after, r.ops[id].entry)
  {
  }

  lemma ImproperBreaks(r: Reg, c: Call) returns (cs: seq<Call>)
    requires Inv(r) && !Proper(r, c)
    ensures RunProper(Step(r, c), cs) && !Promises(Run(Step(r, c), cs))
  {
    if c.Start? {
      cs := [Stash(c.entry)];
      RunOne(Step(r, c), Stash(c.entry));
      StartedStashBreaks(r, c.entry);
    } else {
      cs := ImproperProgressBreaks(r, c.id, c.payload);
    }
  }

  /** The callers' side is exactly what the promises need: after a proper call every run of
      proper calls keeps them, and after any other call some run of proper calls breaks one. */
  lemma PromisesHoldIff(r: Reg, c: Call)
    requires Inv(r)
    ensures HoldsFromHere(Step(r, c)) <==> Proper(r, c)
  {
    if Proper(r, c) {
      StepKeepsInv(r, c);
      forall cs | RunProper(Step(r, c), cs) ensures Promises(Run(Step(r, c), cs)) {
        RunKeepsInv(Step(r, c), cs);
      }
    } else {
      var cs := ImproperBreaks(r, c);
    }
  }

  lemma EmptyIsInv()
    ensures Inv(EMPTY)
  {
  }

  /** The promises hold from the start: every run of proper calls on a new registry keeps them. */
  lemma PromisesHoldFromStart()
    ensures HoldsFromHere(EMPTY)
  {
    EmptyIsInv();
    forall cs | RunProper(EMPTY, cs) ensures Promises(Run(EMPTY, cs)) {
      RunKeepsInv(EMPTY, cs);
    }
  }

  /** The operation is still there and is still what it was. */
  predicate Survives(r: Reg, after: Reg, id: nat)
    requires id in r.ops
  {
    id in after.ops && after.ops[id].kind == r.ops[id].kind && after.ops[id].entry == r.ops[id].entry
  }

  lemma StartSpares(r: Reg, kind: string, entry: string, id: nat)
    requires OpsInv(r) && id in r.ops && Active(r.ops[id].status)
    ensures Survives(r, Step(r, Start(kind, entry)), id)
  {
    DropCompletedDrops(r, entry, kind, r.next);
  }

  lemma StashSpares(r: Reg, entry: string, id: nat)
    requires OpsInv(r) && id in r.ops && Active(r.ops[id].status)
    ensures Survives(r, Step(r, Stash(entry)), id)
  {
    StashAddsFinished(r, entry);
    DropCompletedDrops(r, entry, EDITED_KIND, r.next);
  }

  lemma UpdateSpares(r: Reg, other: nat, p: Payload, id: nat)
    requires id in r.ops
    ensures Survives(r, Update(r, other, p), id)
  {
  }

  lemma RemovalSpares(r: Reg, other: nat, timer: nat, id: nat)
    requires TimersInv(r) && id in r.ops && Active(r.ops[id].status)
    ensures Survives(r, Dismiss(r, other), id) && Survives(r, Fire(r, timer), id)
  {
  }

  /** No cleanup, dismissal or start ever removes an active operation: whatever a call
      removes was finished. */
  lemma ActiveOperationsSurvive(r: Reg, c: Call, id: nat)
    requires Inv(r) && id in r.ops && Active(r.ops[id].status)
    ensures Survives(r, Step(r, c), id)
  {
    match c
    case Start(kind, entry) => StartSpares(r, kind, entry, id);
    case Stash(entry) => StashSpares(r, entry, id);
    case Progress(other, p) => UpdateSpares(r, other, p, id);
    case Discard(other) => RemovalSpares(r, other, 0, id);
    case Expire(timer) => RemovalSpares(r, 0, timer, id);
    case Hear(_) =>
    case Clear(_) =>
    case Download(_) =>
  }

  /** A finished operation never becomes active again. */
  lemma FinishedStaysFinished(r: Reg, c: Call, id: nat)
    requires Inv(r) && Proper(r, c) && id in r.ops && Terminal(r.ops[id].status) && id in Step(r, c).ops
    ensures Terminal(Step(r, c).ops[id].status)
  {
    match c
    case Start(kind, entry) => DropCompletedDrops(r, entry, kind, r.next);
    case Stash(entry) =>
      StashAddsFinished(r, entry);
      DropCompletedDrops(r, entry, EDITED_KIND, r.next);
    case _ =>
  }

  // ------------------------------------------------------------- lookups

  /** The newest matching operation among the first n; `None` for the kind means any. */
  function LatestBelow(r: Reg, entry: string, kind: Option<string>, n: nat): (l: Option<nat>) {
    if n == 0 then None
    else if n - 1 in r.ops && r.ops[n - 1].entry == entry && (kind.None? || r.ops[n - 1].kind == kind.value)
    then Some(n - 1) else LatestBelow(r, entry, kind, n - 1)
  }

  lemma {:induction false} LatestBelowIs(r: Reg, entry: string, kind: Option<string>, n: nat)
    ensures var l := LatestBelow(r, entry, kind, n);
      && (l.Some? ==> l.value < n && l.value in r.ops && r.ops[l.value].entry == entry
                      && (kind.Some? ==> r.ops[l.value].kind == kind.value))
      && (forall id :: id < n && id in r.ops && r.ops[id].entry == entry && (kind.None? || r.ops[id].kind == kind.value)
            ==> l.Some? && id <= l.value)
  {
    if n > 0 { LatestBelowIs(r, entry, kind, n - 1); }
  }

  /** Asking for one kind, the latest operation is the only one. */
  lemma LatestIsTheOnlyOne(r: Reg, entry: string, kind: string, id: nat)
    requires Inv(r)
    ensures LatestBelow(r, entry, Some(kind), r.next) == Some(id)
       <==> id in r.ops && r.ops[id].entry == entry && r.ops[id].kind == kind
  {
    LatestBelowIs(r, entry, Some(kind), r.next);
  }

  // ------------------------------------------------------------ the class

  /** `_BackupOperationRegistry`.  `dict` order is creation order, so loops over the
      operations run over creation numbers. */
  class OperationRegistry {
    var ops: map<nat, Op>
    var next: nat
    var timers: map<nat, nat>
    var nextTimer: nat
    var notices: seq<Notice>

    function State(): Reg
      reads this
    {
      Reg(ops, next, timers, nextTimer, notices)
    }

    predicate Valid()
      reads this
    {
      forall id :: id in ops ==> id < next
    }

    constructor ()
      ensures Valid() && State() == EMPTY
    {
      ops, next, timers, nextTimer, notices := map[], 0, map[], 0, [];
    }

    method HasRunningForEntry(entry: string) returns (running: bool)
      requires Valid()
      ensures running <==> HasRunning(State(), entry)
    {
      for id := 0 to next
        invariant forall k :: k in ops && k < id && ops[k].entry == entry ==> !Active(ops[k].status)
      {
        if id in ops && ops[id].entry == entry && Active(ops[id].status) { return true; }
      }
      running := false;
    }

    method LatestForEntry(entry: string, kind: Option<string>) returns (latest: Option<nat>)
      ensures latest == LatestBelow(State(), entry, kind, next)
    {
      var id: nat := next;
      while id > 0
        invariant id <= next && LatestBelow(State(), entry, kind, id) == LatestBelow(State(), entry, kind, next)
      {
        id := id - 1;
        if id in ops && ops[id].entry == entry && (kind.None? || ops[id].kind == kind.value) { return Some(id); }
      }
      latest := None;
    }

    method Cancel(id: nat)
      requires id in ops
      modifies this`timers
      ensures timers == old(timers) - Handles(ops[id])
    {
      if ops[id].timer.Some? {
        timers := timers - {ops[id].timer.value};
      } else {
        assert timers - {} == timers;
      }
    }

    method ScheduleCleanup(id: nat)
      requires Valid() && id in ops
      modifies this`ops, this`timers, this`nextTimer
      ensures Valid() && State() == Schedule(old(State()), id)
    {
      Cancel(id);
      timers := timers[nextTimer := id];
      ops := ops[id := ops[id].(timer := Some(nextTimer))];
      nextTimer := nextTimer + 1;
    }

    method NotifyAll(id: nat)
      requires id in ops
      modifies this`notices
      ensures State() == Notify(old(State()), id)
    {
      notices := notices + [Notice(id, ops[id].status)];
    }

    method Remove(id: nat)
      requires Valid() && id in ops
      modifies this`ops, this`timers
      ensures Valid() && State() == Drop(old(State()), id)
    {
      Cancel(id);
      ops := ops - {id};
    }

    method DropCompletedForEntry(entry: string, kind: string)
      requires Valid()
      modifies this`ops, this`timers
      ensures Valid() && State() == DropCompleted(old(State()), entry, kind, next)
    {
      for id := 0 to next
        invariant Valid() && State() == DropCompleted(old(State()), entry, kind, id)
      {
        if id in ops && Stale(ops[id], entry, kind) { Remove(id); }
      }
    }

    method CreateOperation(kind: string, entry: string, status: Status) returns (id: nat)
      requires Valid()
      modifies this
      ensures Valid() && id == old(next) && State() == Create(old(State()), kind, entry, status)
    {
      DropCompletedForEntry(entry, kind);
      id := next;
      ops := ops[id := Op(kind, entry, status, false, false, None)];
      next := next + 1;
    }

    method UpdateOperation(id: nat, p: Payload)
      requires Valid()
      modifies this
      ensures Valid() && State() == Update(old(State()), id, p)
    {
      if id !in ops { return; }
      if Demotes(ops[id], p) { return; }
      ops := ops[id := Updated(ops[id], p)];
      NotifyAll(id);
      if Terminal(ops[id].status) { ScheduleCleanup(id); }
    }

    method SubscribeTo(id: nat) returns (found: bool)
      requires Valid()
      modifies this
      ensures Valid() && found == (id in ops) && State() == Subscribe(old(State()), id)
    {
      found := id in ops;
      if found { NotifyAll(id); }
    }

    method ClearBackupResult(id: nat) returns (cleared: bool)
      requires Valid()
      modifies this
      ensures Valid() && cleared == old(id in ops && ops[id].backup)
      ensures State() == ClearBackup(old(State()), id)
    {
      if id !in ops || !ops[id].backup { return false; }
      ops := ops[id := ops[id].(backup := false, downloaded := true)];
      NotifyAll(id);
      ScheduleCleanup(id);
      cleared := true;
    }

    method DismissOperation(id: nat) returns (dismissed: bool)
      requires Valid()
      modifies this
      ensures Valid() && dismissed == old(id in ops && !Active(ops[id].status))
      ensures State() == Dismiss(old(State()), id)
    {
      if id !in ops || Active(ops[id].status) { return false; }
      Remove(id);
      dismissed := true;
    }

    method FlagBackupDownloaded(id: nat) returns (found: bool)
      requires Valid()
      modifies this
      ensures Valid() && found == old(id in ops) && State() == FlagDownloaded(old(State()), id)
    {
      if id !in ops { return false; }
      if ops[id].downloaded { return true; }
      ops := ops[id := ops[id].(downloaded := true)];
      NotifyAll(id);
      found := true;
    }

    /** A cleanup timer goes off. */
    method Cleanup(timer: nat)
      requires Valid()
      modifies this
      ensures Valid() && State() == Fire(old(State()), timer)
    {
      if timer !in timers { return; }
      var id := timers[timer];
      timers := timers - {timer};
      if id !in ops { return; }
      if ops[id].backup {
        ops := ops[id := ops[id].(backup := false)];
        NotifyAll(id);
      }
      ops := ops - {id};
    }

    /** The check-then-create section every guarded start shares. */
    method StartOperation(kind: string, entry: string) returns (id: Option<nat>)
      requires Valid()
      modifies this
      ensures Valid() && State() == Step(old(State()), Start(kind, entry))
      ensures id == if HasRunning(old(State()), entry) then None else Some(old(next))
    {
      var busy := HasRunningForEntry(entry);
      if busy { return None; }
      var made := CreateOperation(kind, entry, Pending);
      id := Some(made);
    }

    method StashEdited(entry: string) returns (id: nat)
      requires Valid()
      modifies this
      ensures Valid() && id == old(next) && State() == Step(old(State()), Stash(entry))
    {
      id := CreateOperation(EDITED_KIND, entry, Unset);
      UpdateOperation(id, STASHED);
    }
  }

  // ----------------------------------------------------- counterexamples

  /** An empty status written over a finished one lets a late progress update revive the
      operation while its cleanup timer is live, and the timer then removes it running. */
  lemma EmptyStatusRevives()
    ensures var cs := [Start("backup_export", "hub"), Progress(0, Payload(Some(Success), None)),
                       Progress(0, Payload(Some(Unset), None)), Progress(0, Payload(Some(Running), None))];
      var r := Run(EMPTY, cs);
      && 0 in r.ops && r.ops[0].status == Running && r.ops[0].timer == Some(0)
      && 0 !in Step(r, Expire(0)).ops
  {
    var r1 := Step(EMPTY, Start("backup_export", "hub"));
    var op := Op("backup_export", "hub", Pending, false, false, None);
    assert r1 == Reg(map[0 := op], 1, map[], 0, []);
    var r2 := Step(r1, Progress(0, Payload(Some(Success), None)));
    assert r2.ops[0] == op.(status := Success, timer := Some(0)) && r2.timers == map[0 := 0];
    var r3 := Step(r2, Progress(0, Payload(Some(Unset), None)));
    assert r3.ops[0] == op.(status := Unset, timer := Some(0)) && r3.timers == map[0 := 0];
    var r4 := Step(r3, Progress(0, Payload(Some(Running), None)));
    assert r4.ops[0] == op.(status := Running, timer := Some(0)) && r4.timers == map[0 := 0];
    FourCalls(EMPTY, Start("backup_export", "hub"), Progress(0, Payload(Some(Success), None)),
              Progress(0, Payload(Some(Unset), None)), Progress(0, Payload(Some(Running), None)));
  }

  lemma RunCons(r: Reg, c: Call, rest: seq<Call>)
    ensures Run(r, [c] + rest) == Run(Step(r, c), rest)
  {
    assert ([c] + rest)[1..] == rest;
  }

  lemma FourCalls(r: Reg, a: Call, b: Call, c: Call, d: Call)
    ensures Run(r, [a, b, c, d]) == Step(Step(Step(Step(r, a), b), c), d)
  {
    assert [a, b, c, d] == [a] + [b, c, d] && [b, c, d] == [b] + [c, d] && [c, d] == [c] + [d] && [d] == [d] + [];
    RunCons(r, a, [b, c, d]);
    RunCons(Step(r, a), b, [c, d]);
    RunCons(Step(Step(r, a), b), c, [d]);
    RunCons(Step(Step(Step(r, a), b), c), d, []);
  }
}
