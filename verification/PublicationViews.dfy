/** When a view comes and goes, what each hook leaves in its session, and what a new job captures. */
module PublicationViews {
  import opened Texts
  import opened Publication
  import opened PublicationProof

  // ------------------------------------------------------------------------- the queue

  /** There is room for one more job: 32 jobs and 8 MiB of queued bytes are not exceeded. */
  ghost predicate Room(s: State, bytes: nat) {
    !s.disposed && |s.queue| + |s.running| < 32 && s.queuedBytes + bytes <= 8388608
  }

  ghost predicate SameBut(s: State, next: State) {
    next.mapped == s.mapped && next.disposed == s.disposed && next.layered == s.layered && next.mode == s.mode
  }

  /** The first `k` jobs of the queue start, as many as there are permits for, and nothing else changes. */
  ghost predicate PumpedBy(s: State, next: State, k: nat) {
    && k <= |s.queue| && next.queue == s.queue[k..] && next.queuedBytes == s.queuedBytes - TotalBytes(s.queue[..k])
    && next.running == s.running + JobsTo(s.queue, k)
    && (k > 0 ==> !s.disposed && |next.running| <= 2) && (s.disposed || |next.running| >= 2 || next.queue == [])
    && next.sessions == s.sessions && next.jobs == s.jobs && SameBut(s, next)
  }

  ghost predicate Pumped(s: State, next: State) {
    exists k :: PumpedBy(s, next, k)
  }

  lemma {:induction false} PumpedPump(s: State)
    ensures Pumped(s, Pump(s))
    decreases |s.queue|
  {
    if !s.disposed && |s.running| < MAX_ACTIVE && s.queue != [] {
      PumpedPump(Start(s));
      var k: nat :| PumpedBy(Start(s), Pump(s), k);
      StartedFirst(s, Pump(s), k);
      assert PumpedBy(s, Pump(s), k + 1);
    } else {
      assert PumpedBy(s, s, 0);
    }
  }

  lemma StartedFirst(s: State, next: State, k: nat)
    requires !s.disposed && |s.running| < 2 && s.queue != [] && PumpedBy(Start(s), next, k)
    ensures PumpedBy(s, next, k + 1)
  {
    FirstOff(s.queue, k);
    FirstJobs(s.queue, k);
    assert s.running + {s.queue[0].job} + JobsTo(s.queue[1..], k) == s.running + JobsTo(s.queue, k + 1);
    assert k == 0 ==> next.running == s.running + {s.queue[0].job};
  }

  lemma FirstOff(queue: seq<Item>, k: nat)
    requires k < |queue|
    ensures queue[1..][k..] == queue[k + 1..]
    ensures TotalBytes(queue[..k + 1]) == queue[0].bytes + TotalBytes(queue[1..][..k])
  {
    assert queue[..k + 1][1..] == queue[1..][..k];
    FirstBytes(queue[..k + 1]);
  }

  lemma FirstJobs(queue: seq<Item>, k: nat)
    requires k < |queue|
    ensures JobsTo(queue, k + 1) == {queue[0].job} + JobsTo(queue[1..], k)
  {
    forall i | 0 < i < k + 1
      ensures queue[i].job in JobsTo(queue[1..], k)
    {
      assert queue[1..][i - 1] == queue[i];
    }
  }

  /** The first `k` jobs of a queue. */
  ghost function JobsTo(queue: seq<Item>, k: nat): set<JobId>
    requires k <= |queue|
  {
    set i | 0 <= i < k :: queue[i].job
  }

  /** A job joins the end of the queue if there is room for it, and nothing happens otherwise. */
  ghost predicate Enqueued(s: State, id: JobId, job: Job, bytes: nat, next: State) {
    if Room(s, bytes) then
      Pumped(s.(jobs := s.jobs[id := job], queue := s.queue + [Item(id, bytes)], queuedBytes := s.queuedBytes + bytes), next)
    else next == s
  }

  lemma EnqueueIs(s: State, id: JobId, job: Job, bytes: nat)
    ensures Enqueued(s, id, job, bytes, Enqueue(s, id, job, bytes))
  {
    if Room(s, bytes) {
      var grown := s.(jobs := s.jobs[id := job], queue := s.queue + [Item(id, bytes)], queuedBytes := s.queuedBytes + bytes);
      PumpedPump(grown);
      assert Enqueue(s, id, job, bytes) == Pump(grown);
    }
  }

  // --------------------------------------------------------------------- message events

  /** The view lists its sources, and the event may concern one of them. */
  ghost predicate ViewNamed(session: Session, message: Option<Text>) {
    && session.view.Some? && session.view.value.sources.Some?
    && (message.None? || message.value in session.view.value.sources.value)
  }

  /** A message of the history that plans are made from: under the layered strategy none of the streaming tail. */
  ghost predicate Watched(layered: bool, entries: seq<Entry>, id: Text) {
    exists i :: 0 <= i < |entries| && entries[i].id == id && (layered ==> !Streaming(entries, i))
  }

  /** Some message is the user's, and none from place `i` on. */
  ghost predicate Streaming(entries: seq<Entry>, i: nat) {
    (exists j :: 0 <= j < |entries| && entries[j].user) && forall j :: i <= j < |entries| ==> !entries[j].user
  }

  ghost predicate SnapshotNamed(layered: bool, session: Session, message: Option<Text>) {
    session.snapshot.Some? && (message.None? || Watched(layered, session.snapshot.value, message.value))
  }

  lemma {:induction false} PrefixEndIs(entries: seq<Entry>)
    ensures var end := PrefixEnd(entries);
            (end > 0 ==> entries[end - 1].user) && forall i :: end <= i < |entries| ==> !entries[i].user
  {
    if entries != [] && !entries[|entries| - 1].user {
      PrefixEndIs(entries[..|entries| - 1]);
    }
  }

  lemma SnapshotNamedIs(layered: bool, session: Session, message: Option<Text>)
    ensures AffectsSnapshot(layered, session, message) <==> SnapshotNamed(layered, session, message)
  {
    if session.snapshot.Some? && message.Some? {
      WatchedIs(layered, session.snapshot.value, message.value);
    }
  }

  lemma WatchedIs(layered: bool, entries: seq<Entry>, id: Text)
    ensures id in Ids(PlanSources(layered, entries)) <==> Watched(layered, entries, id)
  {
    PrefixEndIs(entries);
    var end, sources := PrefixEnd(entries), PlanSources(layered, entries);
    if id in Ids(sources) {
      var i :| 0 <= i < |sources| && Ids(sources)[i] == id;
      assert entries[i].id == id;
      assert layered && end > 0 ==> entries[end - 1].user && i <= end - 1;
    }
    if Watched(layered, entries, id) {
      var i :| 0 <= i < |entries| && entries[i].id == id && (layered ==> !Streaming(entries, i));
      assert layered && end > 0 ==> entries[end - 1].user;
      assert Ids(sources)[i] == id;
    }
  }

  // --------------------------------------------------------------------- what hooks leave

  /** Another compaction epoch than the one the session was in. */
  ghost predicate NewEpoch(session: Session, epoch: Text) {
    session.epoch.Some? && session.epoch.value != epoch
  }

  ghost predicate Cleared(session: Session, next: Session) {
    next == session.(view := None, generation := session.generation + 1)
  }

  /** The session after a hook, where `session` is what it was before. */
  ghost predicate Hooked(layered: bool, session: Session, e: Event, next: Session) {
    match e
    case Delete(_, _) => Cleared(session, next)
    case Clear(_, _) => Cleared(session, next)
    case Snapshot(_, epoch, entries, _) =>
      var seen := session.(snapshot := Some(entries), epoch := Some(epoch));
      if NewEpoch(session, epoch) then Cleared(seen, next) else next == seen
    case ModelChange(_) => next == session.(generation := session.generation + 1)
    case MessageEvent(_, message, _) =>
      if ViewNamed(session, message) then Cleared(session.(snapshot := None), next)
      else if SnapshotNamed(layered, session, message) then next == session.(snapshot := None, generation := session.generation + 1)
      else next == session
    case Compacting(_) => next == session.(paused := true, generation := session.generation + 1)
    case Compacted(_, _) => Cleared(session.(paused := false, snapshot := None), next)
    case Resume(_) => next == session.(paused := false)
    case _ => next == session
  }

  /** Each hook changes its own session, as told, and no other. */
  lemma HooksExactly(s: State, e: Event)
    requires OfSession(e) && Possible(s, e) && !e.Open?
    ensures var next := Step(s, e);
            && e.st in next.sessions && Hooked(s.layered, s.sessions[e.st], e, next.sessions[e.st])
            && next.sessions == s.sessions[e.st := next.sessions[e.st]]
  {
    SessionStep(s, e);
    if e.MessageEvent? {
      SnapshotNamedIs(s.layered, s.sessions[e.st], e.message);
    }
  }

  /** The view of `session` goes, the generation moves on, and in mode on a job is queued that clears the durable copy. */
  ghost predicate ClearedAs(s: State, st: StateId, session: Session, job: JobId, next: State) {
    var cleared := s.(sessions := s.sessions[st := session.(view := None, generation := session.generation + 1)]);
    if s.mode.On? then Enqueued(cleared, job, PlainJob, 0, next) else next == cleared
  }

  ghost predicate Observed(s: State, st: StateId, epoch: Text, entries: seq<Entry>, job: JobId, next: State)
    requires st in s.sessions
  {
    var seen := s.sessions[st].(snapshot := Some(entries), epoch := Some(epoch));
    if NewEpoch(s.sessions[st], epoch) then ClearedAs(s, st, seen, job, next) else next == s.(sessions := s.sessions[st := seen])
  }

  ghost predicate Edited(s: State, st: StateId, message: Option<Text>, job: JobId, next: State)
    requires st in s.sessions
  {
    var session := s.sessions[st];
    if ViewNamed(session, message) then ClearedAs(s, st, session.(snapshot := None), job, next)
    else if SnapshotNamed(s.layered, session, message) then
      next == s.(sessions := s.sessions[st := session.(snapshot := None, generation := session.generation + 1)])
    else next == s
  }

  lemma ClearIs(s: State, st: StateId, session: Session, job: JobId)
    ensures ClearedAs(s, st, session, job, ClearAs(s, st, session, job))
  {
    EnqueueIs(Update(s, st, Bumped(session).(view := None)), job, PlainJob, 0);
  }

  lemma ObserveIs(s: State, st: StateId, epoch: Text, entries: seq<Entry>, job: JobId)
    requires st in s.sessions
    ensures Observed(s, st, epoch, entries, job, Observe(s, st, epoch, entries, job))
  {
    ClearIs(s, st, s.sessions[st].(snapshot := Some(entries), epoch := Some(epoch)), job);
  }

  lemma EditIs(s: State, st: StateId, message: Option<Text>, job: JobId)
    requires st in s.sessions
    ensures Edited(s, st, message, job, MessageEdit(s, st, message, job))
  {
    SnapshotNamedIs(s.layered, s.sessions[st], message);
    ClearIs(s, st, s.sessions[st].(snapshot := None), job);
  }

  // ------------------------------------------------------------------------- new jobs

  /** A planning job may be queued: none lives, nothing is being restored, and there is a history to plan for. */
  ghost predicate Plannable(s: State, st: StateId, bytes: nat)
    requires st in s.sessions
  {
    var session := s.sessions[st];
    && !s.mode.Off? && !session.hydrating && !session.paused && !session.busy && session.snapshot.Some? && Room(s, bytes)
  }

  ghost predicate Restorable(s: State, st: StateId)
    requires st in s.sessions
  {
    !s.mode.Off? && !s.sessions[st].hydrated && Room(s, 0)
  }

  /** The planning job captures the generation and the snapshot of this moment. */
  ghost predicate Scheduled(s: State, st: StateId, job: JobId, bytes: nat, next: State)
    requires st in s.sessions
  {
    var session := s.sessions[st];
    if Plannable(s, st, bytes) then
      Enqueued(s.(sessions := s.sessions[st := session.(busy := true)]), job,
               PlanJob(st, session.generation, session.snapshot.value), bytes, next)
    else next == s
  }

  ghost predicate Hydrating(s: State, st: StateId, job: JobId, next: State)
    requires st in s.sessions
  {
    var session := s.sessions[st];
    if Restorable(s, st) then
      Enqueued(s.(sessions := s.sessions[st := session.(hydrated := true, hydrating := true)]), job,
               HydrateJob(st, session.generation), 0, next)
    else next == s
  }

  lemma ScheduleIs(s: State, st: StateId, job: JobId, bytes: nat)
    requires st in s.sessions
    ensures Scheduled(s, st, job, bytes, Schedule(s, st, job, bytes))
  {
    if Plannable(s, st, bytes) {
      EnqueueIs(Update(s, st, s.sessions[st].(busy := true)), job, PlanOf(st, s.sessions[st]), bytes);
    }
  }

  lemma HydrateIs(s: State, st: StateId, job: JobId)
    requires st in s.sessions
    ensures Hydrating(s, st, job, Hydrate(s, st, job))
  {
    if Restorable(s, st) {
      EnqueueIs(Update(s, st, s.sessions[st].(hydrated := true, hydrating := true)), job, HydrateJob(st, s.sessions[st].generation), 0);
    }
  }

  /** A poll captures the generation and the view of the moment it starts, and waits in no queue. */
  lemma PollCaptures(s: State, st: StateId, job: JobId)
    requires st in s.sessions && job !in s.jobs && s.sessions[st].view.Some?
    ensures var next, session := Step(s, PollRequest(st, job)), s.sessions[st];
            && next.jobs == s.jobs[job := PollJob(st, session.generation, session.view.value)]
            && next.queue == s.queue && next.running == s.running && next.sessions == s.sessions
  {
  }

  // ------------------------------------------------------------------ views come and go

  /**
   * The event installs `view` in session `st`: a plan unless the session is paused or another generation; a
   * restored view into an empty session of the same generation and epoch; an enhanced one only over the
   * history that the view it was made from is for.
   */
  ghost predicate Lands(s: State, e: Event, st: StateId, view: View)
    requires st in s.sessions
  {
    var session := s.sessions[st];
    !s.disposed &&
    match e
    case PlanEnd(id, result) =>
      && id in s.jobs && s.jobs[id].PlanJob? && s.jobs[id].state == st && result == Some(view)
      && s.mode.On? && !session.paused && s.jobs[id].generation == session.generation
    case HydrateEnd(id, result, failed, _, _) =>
      && id in s.jobs && s.jobs[id].HydrateJob? && s.jobs[id].state == st && result == Some(view)
      && !failed && session.view.None? && s.jobs[id].generation == session.generation
      && view.epoch == (if session.epoch.Some? then session.epoch.value else [])
    case PollEnd(id, result) =>
      && id in s.jobs && s.jobs[id].PollJob? && s.jobs[id].state == st && result == Some(view)
      && !session.paused && s.jobs[id].generation == session.generation
      && session.view.Some? && session.view.value.historyHash == s.jobs[id].base.historyHash
    case _ => false
  }

  /** The event drops the view of session `st`. */
  ghost predicate Drops(s: State, e: Event, st: StateId)
    requires st in s.sessions
  {
    match e
    case Delete(t, _) => t == st
    case Clear(t, _) => t == st
    case Snapshot(t, epoch, _, _) => t == st && NewEpoch(s.sessions[st], epoch)
    case MessageEvent(t, message, _) => t == st && ViewNamed(s.sessions[st], message)
    case Compacted(t, _) => t == st
    case _ => false
  }

  ghost predicate ViewMoves(s: State, e: Event, st: StateId, view: Option<View>)
    requires st in s.sessions
  {
    && (forall landed :: Lands(s, e, st, landed) ==> view == Some(landed))
    && (Drops(s, e, st) ==> view == None)
    && ((forall landed :: !Lands(s, e, st, landed)) && !Drops(s, e, st) ==> view == s.sessions[st].view)
  }

  /** A session's view is what a step installs, gone when the step drops it, and otherwise the view before. */
  lemma ViewsExactly(s: State, e: Event, st: StateId)
    requires Possible(s, e) && st in s.sessions
    ensures st in Step(s, e).sessions && ViewMoves(s, e, st, Step(s, e).sessions[st].view)
  {
    if OfSession(e) {
      SessionStep(s, e);
    } else {
      JobStep(s, e, st);
      JobMoves(s, e, st);
    }
  }

  lemma PlanMoves(s: State, id: JobId, result: Option<View>, st: StateId)
    requires Possible(s, PlanEnd(id, result)) && st in s.sessions
    ensures ViewMoves(s, PlanEnd(id, result), st, PlanEnds(s, id, result).sessions[st].view)
  {
    var e, job := PlanEnd(id, result), s.jobs[id];
    assert result.Some? ==> (PlanInstalls(s, job, result) <==> Lands(s, e, job.state, result.value));
  }

  lemma PollMoves(s: State, id: JobId, result: Option<View>, st: StateId)
    requires Possible(s, PollEnd(id, result)) && st in s.sessions
    ensures ViewMoves(s, PollEnd(id, result), st, PollEnds(s, id, result).sessions[st].view)
  {
    var e, job := PollEnd(id, result), s.jobs[id];
    assert result.Some? && job.state == st ==> (PollInstalls(s, job, result) <==> Lands(s, e, st, result.value));
  }

  lemma HydrateMoves(s: State, id: JobId, result: Option<View>, failed: bool, more: JobId, bytes: nat, st: StateId)
    requires Possible(s, HydrateEnd(id, result, failed, more, bytes)) && st in s.sessions
    requires st in HydrateEnds(s, id, result, failed, more, bytes).sessions
    ensures ViewMoves(s, HydrateEnd(id, result, failed, more, bytes), st, HydrateEnds(s, id, result, failed, more, bytes).sessions[st].view)
  {
    var e, job := HydrateEnd(id, result, failed, more, bytes), s.jobs[id];
    HydrateEndViews(s, id, result, failed, more, bytes, st);
    assert !failed && result.Some? ==> (HydrateInstalls(s, job, result) <==> Lands(s, e, job.state, result.value));
  }

  lemma JobMoves(s: State, e: Event, st: StateId)
    requires !OfSession(e) && Possible(s, e) && st in s.sessions && st in Step(s, e).sessions
    ensures ViewMoves(s, e, st, Step(s, e).sessions[st].view)
  {
    match e
    case PlanEnd(id, result) => PlanMoves(s, id, result, st);
    case PollEnd(id, result) => PollMoves(s, id, result, st);
    case HydrateEnd(id, result, failed, more, bytes) => HydrateMoves(s, id, result, failed, more, bytes, st);
    case HydrateRequest(t, id) =>
      EnqueueSessions(Update(s, t, s.sessions[t].(hydrated := true, hydrating := true)), id, HydrateJob(t, s.sessions[t].generation), 0);
    case ScheduleRequest(t, id, bytes) => ScheduleViews(s, t, id, bytes, st);
    case PermitReturns(id) => PumpSessions(s.(jobs := s.jobs - {id}, running := s.running - {id}));
    case _ =>
  }

  lemma AllMove(s: State, e: Event)
    requires Possible(s, e)
    ensures forall st :: st in s.sessions ==> st in Step(s, e).sessions && ViewMoves(s, e, st, Step(s, e).sessions[st].view)
  {
    forall st | st in s.sessions
      ensures st in Step(s, e).sessions && ViewMoves(s, e, st, Step(s, e).sessions[st].view)
    {
      ViewsExactly(s, e, st);
    }
  }

  /** Nothing is queued any more, and every session that is still reachable has a new generation. */
  ghost predicate Disposed(s: State, next: State) {
    && next.disposed && next.queue == [] && next.queuedBytes == 0 && next.running == s.running
    && (forall id :: id in next.jobs <==> id in s.jobs && !IsQueued(s.queue, id))
    && (forall id :: id in next.jobs ==> next.jobs[id] == s.jobs[id])
    && next.sessions.Keys == s.sessions.Keys
    && forall st :: st in s.sessions ==>
         next.sessions[st] == s.sessions[st].(generation := s.sessions[st].generation + if st in s.mapped then 1 else 0)
  }

  lemma DisposeIs(s: State)
    ensures Disposed(s, Dispose(s))
  {
    var queued := set item | item in s.queue :: item.job;
    forall id
      ensures id in queued <==> IsQueued(s.queue, id)
    {
      if IsQueued(s.queue, id) {
        var i :| 0 <= i < |s.queue| && s.queue[i].job == id;
        assert s.queue[i] in s.queue;
      }
    }
  }
}
