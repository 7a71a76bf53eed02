/** What each call on the registry does, operation by operation and timer by timer. */
module RegistryCalls {
  import opened Text
  import opened Registry

  predicate IsActive(s: Status) { s == Pending || s == Running }
  predicate IsFinished(s: Status) { s == Success || s == Failed }

  /** Every operation but one is as before. */
  ghost predicate OthersKept(r: Reg, after: Reg, id: nat) {
    forall x :: x != id ==> (x in after.ops <==> x in r.ops) && (x in r.ops ==> after.ops[x] == r.ops[x])
  }

  /** The operation has a new timer in place of any it had. */
  predicate Rescheduled(r: Reg, after: Reg, id: nat)
    requires id in r.ops && id in after.ops
  {
    && after.ops[id].timer == Some(r.nextTimer) && after.nextTimer == r.nextTimer + 1
    && var rest := if r.ops[id].timer.Some? then r.timers - {r.ops[id].timer.value} else r.timers;
    && after.timers == rest[r.nextTimer := id]
  }

  predicate SameTimers(r: Reg, after: Reg) { after.timers == r.timers && after.nextTimer == r.nextTimer }

  predicate Told(r: Reg, after: Reg, id: nat)
    requires id in after.ops
  {
    after.notices == r.notices + [Notice(id, after.ops[id].status)]
  }

  /** A progress update is told to the subscribers and takes over what it carries, unless it would
      make a finished operation active again; a finished status sets a new cleanup timer. */
  lemma ProgressDoes(r: Reg, id: nat, p: Payload)
    ensures var after := Step(r, Progress(id, p));
      if id !in r.ops || (IsFinished(r.ops[id].status) && p.status.Some? && IsActive(p.status.value)) then after == r
      else
        var was := r.ops[id];
        && id in after.ops
        && var now := after.ops[id];
        && now.status == (if p.status.Some? then p.status.value else was.status)
        && now.backup == (if p.backup.Some? then p.backup.value else was.backup)
        && (now.kind, now.entry, now.downloaded) == (was.kind, was.entry, was.downloaded)
        && OthersKept(r, after, id) && Told(r, after, id) && after.next == r.next
        && if IsFinished(now.status) then Rescheduled(r, after, id) else SameTimers(r, after) && now.timer == was.timer
  {
  }

  /** Completed operations of the entry and kind. */
  predicate Leftover(op: Op, kind: string, entry: string) {
    op.entry == entry && op.kind == kind && !IsActive(op.status)
  }

  /** The operations once a new one of this kind has replaced the completed ones. */
  ghost predicate Replaced(r: Reg, after: Reg, kind: string, entry: string) {
    && after.next == r.next + 1
    && forall x :: x != r.next ==>
         && (x in after.ops <==> x in r.ops && !Leftover(r.ops[x], kind, entry))
         && (x in after.ops ==> after.ops[x] == r.ops[x])
  }

  /** A start is refused while the entry has an active operation; otherwise the new one is pending
      and replaces the completed ones of its kind, without a word to the subscribers. */
  lemma StartDoes(r: Reg, kind: string, entry: string)
    requires OpsInv(r)
    ensures var after := Step(r, Start(kind, entry));
      if exists x :: x in r.ops && r.ops[x].entry == entry && IsActive(r.ops[x].status) then after == r
      else
        && r.next in after.ops && after.ops[r.next] == Op(kind, entry, Pending, false, false, None)
        && Replaced(r, after, kind, entry)
        && after.notices == r.notices && after.nextTimer == r.nextTimer
  {
    DropCompletedDrops(r, entry, kind, r.next);
  }

  /** A stashed bundle replaces the completed ones of its kind and enters as a success with its
      bundle and a timer, and is told once. */
  lemma StashDoes(r: Reg, entry: string)
    requires OpsInv(r)
    ensures var after := Step(r, Stash(entry));
      && r.next in after.ops
      && after.ops[r.next] == Op("backup_edited", entry, Success, true, false, Some(r.nextTimer))
      && Replaced(r, after, "backup_edited", entry) && Told(r, after, r.next)
      && after.nextTimer == r.nextTimer + 1 && r.nextTimer in after.timers && after.timers[r.nextTimer] == r.next
  {
    StashAddsFinished(r, entry);
    DropCompletedDrops(r, entry, EDITED_KIND, r.next);
  }

  /** A subscriber hears the current status; nothing else happens. */
  lemma HearDoes(r: Reg, id: nat)
    ensures var after := Step(r, Hear(id));
      if id in r.ops then after == r.(notices := r.notices + [Notice(id, r.ops[id].status)]) else after == r
  {
  }

  /** Clearing a bundle drops it, marks it downloaded, tells the subscribers and sets a new timer;
      without a bundle nothing happens. */
  lemma ClearDoes(r: Reg, id: nat)
    ensures var after := Step(r, Clear(id));
      if id !in r.ops || !r.ops[id].backup then after == r
      else
        && id in after.ops
        && after.ops[id] == r.ops[id].(backup := false, downloaded := true, timer := Some(r.nextTimer))
        && OthersKept(r, after, id) && Told(r, after, id) && Rescheduled(r, after, id) && after.next == r.next
  {
  }

  /** A dismissal takes a finished operation away with its timer, untold; an active one stays. */
  lemma DiscardDoes(r: Reg, id: nat)
    ensures var after := Step(r, Discard(id));
      if id !in r.ops || IsActive(r.ops[id].status) then after == r
      else
        && id !in after.ops && OthersKept(r, after, id) && after.next == r.next
        && after.timers == (if r.ops[id].timer.Some? then r.timers - {r.ops[id].timer.value} else r.timers)
        && after.notices == r.notices && after.nextTimer == r.nextTimer
  {
  }

  /** A download is marked and told once. */
  lemma DownloadDoes(r: Reg, id: nat)
    ensures var after := Step(r, Download(id));
      if id !in r.ops || r.ops[id].downloaded then after == r
      else
        && id in after.ops && after.ops[id] == r.ops[id].(downloaded := true)
        && OthersKept(r, after, id) && Told(r, after, id) && SameTimers(r, after) && after.next == r.next
  {
  }

  /** A timer that goes off takes its operation away; only the loss of a bundle is told. */
  lemma ExpireDoes(r: Reg, t: nat)
    ensures var after := Step(r, Expire(t));
      if t !in r.timers then after == r
      else
        var id := r.timers[t];
        && after.timers == r.timers - {t} && after.nextTimer == r.nextTimer && after.next == r.next
        && id !in after.ops && OthersKept(r, after, id)
        && after.notices
           == if id in r.ops && r.ops[id].backup then r.notices + [Notice(id, r.ops[id].status)] else r.notices
  {
  }
}
