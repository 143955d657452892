/** What every interleaving of plugin steps keeps, and why no stale view is ever installed. */
module PublicationProof {
  import opened Texts
  import opened Publication

  // ---------------------------------------------------------------------- the invariant

  function TotalBytes(queue: seq<Item>): nat {
    if queue == [] then 0 else TotalBytes(queue[..|queue| - 1]) + queue[|queue| - 1].bytes
  }

  predicate IsQueued(queue: seq<Item>, id: JobId) {
    exists i :: 0 <= i < |queue| && queue[i].job == id
  }

  ghost predicate OnceQueued(queue: seq<Item>) {
    forall i, j :: 0 <= i < j < |queue| ==> queue[i].job != queue[j].job
  }

  /** Two permits, at most 32 jobs, and a byte counter that is the sum over the queue. */
  ghost predicate QueueValid(s: State) {
    && OnceQueued(s.queue)
    && (forall id :: IsQueued(s.queue, id) ==> id in s.jobs && id !in s.running && !s.jobs[id].PollJob?)
    && (forall id :: id in s.running ==> id in s.jobs && !s.jobs[id].PollJob?)
    && |s.running| <= MAX_ACTIVE && |s.queue| + |s.running| <= MAX_JOBS
    && s.queuedBytes == TotalBytes(s.queue) <= MAX_QUEUED_BYTES
    && (s.disposed ==> s.queue == [])
  }

  /** No permit idles while a job waits. */
  predicate Busy(s: State) {
    s.disposed || |s.running| >= MAX_ACTIVE || s.queue == []
  }

  /**
   * A job belongs to a known state object and captured a generation no newer than its current one; while a
   * plan's generation is current its session has a snapshot.
   */
  ghost predicate JobValid(s: State, job: Job) {
    !job.PlainJob? ==>
      && job.state in s.sessions && job.generation <= s.sessions[job.state].generation
      && (job.PlanJob? && job.generation == s.sessions[job.state].generation ==> s.sessions[job.state].snapshot.Some?)
  }

  /** A session is busy exactly while its one planning job lives. */
  ghost predicate PlansValid(s: State) {
    && (forall id :: id in s.jobs ==> JobValid(s, s.jobs[id]))
    && (forall id :: id in s.jobs && s.jobs[id].PlanJob? ==> s.sessions[s.jobs[id].state].busy)
    && (forall a, b :: a in s.jobs && b in s.jobs && a != b && s.jobs[a].PlanJob? && s.jobs[b].PlanJob? ==>
          s.jobs[a].state != s.jobs[b].state)
    && (forall st :: st in s.sessions && s.sessions[st].busy && !s.disposed ==>
          exists id :: id in s.jobs && s.jobs[id].PlanJob? && s.jobs[id].state == st)
  }

  ghost predicate Valid(s: State) {
    QueueValid(s) && Busy(s) && PlansValid(s)
  }

  // ---------------------------------------------------------------------- queue lemmas

  lemma {:induction false} FirstBytes(queue: seq<Item>)
    requires queue != []
    ensures TotalBytes(queue) == queue[0].bytes + TotalBytes(queue[1..])
  {
    if |queue| > 1 {
      FirstBytes(queue[..|queue| - 1]);
      assert queue[1..][..|queue| - 2] == queue[..|queue| - 1][1..];
    } else {
      assert queue[..0] == [] && queue[1..] == [];
    }
  }

  lemma {:induction false} TailQueue(queue: seq<Item>)
    requires queue != [] && OnceQueued(queue)
    ensures OnceQueued(queue[1..])
    ensures forall id :: IsQueued(queue[1..], id) <==> IsQueued(queue, id) && id != queue[0].job
    ensures IsQueued(queue, queue[0].job)
  {
    assert forall i :: 0 <= i < |queue| - 1 ==> queue[1..][i] == queue[i + 1];
    forall id
      ensures IsQueued(queue[1..], id) <==> IsQueued(queue, id) && id != queue[0].job
    {
      if IsQueued(queue, id) && id != queue[0].job {
        var i :| 0 <= i < |queue| && queue[i].job == id;
        assert queue[1..][i - 1].job == id;
      }
    }
  }

  lemma {:induction false} PushQueue(queue: seq<Item>, item: Item)
    ensures forall id :: IsQueued(queue + [item], id) <==> IsQueued(queue, id) || id == item.job
    ensures OnceQueued(queue) && !IsQueued(queue, item.job) ==> OnceQueued(queue + [item])
    ensures TotalBytes(queue + [item]) == TotalBytes(queue) + item.bytes
  {
    var all := queue + [item];
    assert all[..|queue|] == queue;
    forall id
      ensures IsQueued(all, id) <==> IsQueued(queue, id) || id == item.job
    {
      assert all[|queue|] == item && forall i :: 0 <= i < |queue| ==> all[i] == queue[i];
    }
  }

  /** What the pump leaves alone. */
  ghost predicate OnlyQueue(s: State, next: State) {
    && next.sessions == s.sessions && next.mapped == s.mapped && next.jobs == s.jobs && next.disposed == s.disposed
  }

  lemma {:induction false} StartValid(s: State)
    requires QueueValid(s) && s.queue != [] && |s.running| < MAX_ACTIVE
    ensures QueueValid(Start(s))
  {
    TailQueue(s.queue);
    FirstBytes(s.queue);
    assert |s.running + {s.queue[0].job}| == |s.running| + 1;
  }

  lemma {:induction false} PumpValid(s: State)
    requires QueueValid(s)
    ensures QueueValid(Pump(s)) && Busy(Pump(s)) && OnlyQueue(s, Pump(s)) && s.running <= Pump(s).running
    decreases |s.queue|
  {
    if !s.disposed && |s.running| < MAX_ACTIVE && s.queue != [] {
      StartValid(s);
      PumpValid(Start(s));
    }
  }

  lemma {:induction false} PushedValid(s: State, id: JobId, job: Job, bytes: nat)
    requires QueueValid(s) && id !in s.jobs && !job.PollJob? && Accepts(s, bytes)
    ensures QueueValid(s.(jobs := s.jobs[id := job], queue := s.queue + [Item(id, bytes)], queuedBytes := s.queuedBytes + bytes))
  {
    PushQueue(s.queue, Item(id, bytes));
  }

  /** Adding or retiring jobs that are neither queued nor running keeps the queue. */
  lemma {:induction false} EnqueueValid(s: State, id: JobId, job: Job, bytes: nat)
    requires QueueValid(s) && Busy(s) && id !in s.jobs && !job.PollJob?
    ensures QueueValid(Enqueue(s, id, job, bytes)) && Busy(Enqueue(s, id, job, bytes))
    ensures Enqueue(s, id, job, bytes).sessions == s.sessions && Enqueue(s, id, job, bytes).mapped == s.mapped
    ensures Enqueue(s, id, job, bytes).disposed == s.disposed && s.running <= Enqueue(s, id, job, bytes).running
    ensures Enqueue(s, id, job, bytes).jobs == if Accepts(s, bytes) then s.jobs[id := job] else s.jobs
  {
    if Accepts(s, bytes) {
      PushedValid(s, id, job, bytes);
      PumpValid(s.(jobs := s.jobs[id := job], queue := s.queue + [Item(id, bytes)], queuedBytes := s.queuedBytes + bytes));
    }
  }

  lemma {:induction false} FinishValid(s: State, id: JobId)
    requires QueueValid(s) && id in s.running
    ensures QueueValid(Finish(s, id)) && Busy(Finish(s, id))
    ensures Finish(s, id).sessions == s.sessions && Finish(s, id).jobs == s.jobs - {id} && Finish(s, id).disposed == s.disposed
  {
    assert |s.running - {id}| == |s.running| - 1;
    PumpValid(s.(jobs := s.jobs - {id}, running := s.running - {id}));
  }

  // --------------------------------------------------------------------- session lemmas

  /** The snapshot goes only when the generation moves. */
  predicate KeepsSnapshot(session: Session, next: Session) {
    next.generation > session.generation || (next.generation == session.generation && (session.snapshot.Some? ==> next.snapshot.Some?))
  }

  /** Replacing a session by one that is as busy and no older keeps everything. */
  lemma {:induction false} UpdateValid(s: State, st: StateId, session: Session)
    requires Valid(s) && st in s.sessions
    requires session.busy == s.sessions[st].busy && KeepsSnapshot(s.sessions[st], session)
    ensures Valid(Update(s, st, session))
  {
    var next := Update(s, st, session);
    forall id | id in next.jobs
      ensures JobValid(next, next.jobs[id])
    {
      assert JobValid(s, s.jobs[id]);
    }
  }

  lemma {:induction false} ClearValid(s: State, st: StateId, session: Session, job: JobId)
    requires Valid(s) && st in s.sessions && job !in s.jobs
    requires session.generation == s.sessions[st].generation && session.busy == s.sessions[st].busy
    ensures Valid(ClearAs(s, st, session, job))
    ensures ClearAs(s, st, session, job).sessions == s.sessions[st := Bumped(session).(view := None)]
  {
    var cleared := Update(s, st, Bumped(session).(view := None));
    UpdateValid(s, st, Bumped(session).(view := None));
    if s.mode.On? {
      EnqueueValid(cleared, job, PlainJob, 0);
      PlainAdded(cleared, Enqueue(cleared, job, PlainJob, 0), job);
    }
  }

  lemma ObserveValid(s: State, st: StateId, epoch: Text, entries: seq<Entry>, job: JobId)
    requires Valid(s) && st in s.sessions && job !in s.jobs
    ensures Valid(Observe(s, st, epoch, entries, job))
  {
    var seen := s.sessions[st].(snapshot := Some(entries), epoch := Some(epoch));
    if EpochChanges(s.sessions[st], epoch) {
      ClearValid(s, st, seen, job);
    } else {
      UpdateValid(s, st, seen);
    }
  }

  lemma MessageEditValid(s: State, st: StateId, id: Option<Text>, job: JobId)
    requires Valid(s) && st in s.sessions && job !in s.jobs
    ensures Valid(MessageEdit(s, st, id, job))
  {
    var session := s.sessions[st];
    if AffectsView(session, id) {
      ClearValid(s, st, session.(snapshot := None), job);
    } else if AffectsSnapshot(s.layered, session, id) {
      UpdateValid(s, st, Bumped(session).(snapshot := None));
    }
  }

  lemma {:induction false} PlainAdded(s: State, next: State, job: JobId)
    requires PlansValid(s) && job !in s.jobs && next.sessions == s.sessions && next.disposed == s.disposed
    requires next.jobs == s.jobs || next.jobs == s.jobs[job := PlainJob]
    ensures PlansValid(next)
  {
    forall id | id in next.jobs
      ensures JobValid(next, next.jobs[id])
    {
      if id != job {
        assert JobValid(s, s.jobs[id]);
      }
    }
    forall st | st in next.sessions && next.sessions[st].busy && !next.disposed
      ensures exists id :: id in next.jobs && next.jobs[id].PlanJob? && next.jobs[id].state == st
    {
      var id :| id in s.jobs && s.jobs[id].PlanJob? && s.jobs[id].state == st;
      assert id in next.jobs;
    }
  }

  lemma {:induction false} PlanAdded(s: State, next: State, st: StateId, job: JobId)
    requires PlansValid(s) && job !in s.jobs && st in s.sessions && !Blocked(s.sessions[st]) && next.disposed == s.disposed
    requires next.sessions == s.sessions[st := s.sessions[st].(busy := true)]
    requires next.jobs == s.jobs[job := PlanOf(st, s.sessions[st])]
    ensures PlansValid(next)
  {
    forall id | id in next.jobs
      ensures JobValid(next, next.jobs[id])
    {
      if id != job {
        assert JobValid(s, s.jobs[id]);
      }
    }
    forall t | t in next.sessions && next.sessions[t].busy && !next.disposed
      ensures exists id :: id in next.jobs && next.jobs[id].PlanJob? && next.jobs[id].state == t
    {
      if t == st {
        assert job in next.jobs;
      } else {
        var id :| id in s.jobs && s.jobs[id].PlanJob? && s.jobs[id].state == t;
        assert id in next.jobs;
      }
    }
  }

  lemma {:induction false} ScheduleValid(s: State, st: StateId, job: JobId, bytes: nat)
    requires Valid(s) && st in s.sessions && job !in s.jobs
    ensures Valid(Schedule(s, st, job, bytes)) && OnlyBusy(s, Schedule(s, st, job, bytes), st)
  {
    if !s.mode.Off? && !Blocked(s.sessions[st]) && Accepts(s, bytes) {
      var marked := Update(s, st, s.sessions[st].(busy := true));
      EnqueueValid(marked, job, PlanOf(st, s.sessions[st]), bytes);
      PlanAdded(s, Schedule(s, st, job, bytes), st, job);
    }
  }

  /** Only the busy flag of one session may have changed. */
  ghost predicate OnlyBusy(s: State, next: State, st: StateId) {
    && st in s.sessions && next.mapped == s.mapped && next.disposed == s.disposed
    && (next.sessions == s.sessions || next.sessions == s.sessions[st := s.sessions[st].(busy := true)])
    && (forall id :: id in s.jobs ==> id in next.jobs && next.jobs[id] == s.jobs[id])
  }

  lemma {:induction false} HydrateValid(s: State, st: StateId, job: JobId)
    requires Valid(s) && st in s.sessions && job !in s.jobs
    ensures Valid(Hydrate(s, st, job))
  {
    if !s.mode.Off? && !s.sessions[st].hydrated && Accepts(s, 0) {
      var marked := Update(s, st, s.sessions[st].(hydrated := true, hydrating := true));
      UpdateValid(s, st, s.sessions[st].(hydrated := true, hydrating := true));
      EnqueueValid(marked, job, HydrateJob(st, s.sessions[st].generation), 0);
      OtherAdded(marked, Hydrate(s, st, job), job, HydrateJob(st, s.sessions[st].generation));
    }
  }

  lemma {:induction false} OtherAdded(s: State, next: State, id: JobId, job: Job)
    requires PlansValid(s) && id !in s.jobs && next.sessions == s.sessions && next.disposed == s.disposed
    requires next.jobs == s.jobs[id := job] && !job.PlanJob? && JobValid(s, job)
    ensures PlansValid(next)
  {
    forall x | x in next.jobs
      ensures JobValid(next, next.jobs[x])
    {
      if x != id {
        assert JobValid(s, s.jobs[x]);
      }
    }
    forall st | st in next.sessions && next.sessions[st].busy && !next.disposed
      ensures exists x :: x in next.jobs && next.jobs[x].PlanJob? && next.jobs[x].state == st
    {
      var x :| x in s.jobs && s.jobs[x].PlanJob? && s.jobs[x].state == st;
      assert x in next.jobs;
    }
  }

  /** A job that stops concerning a view, its session freed if it was the session's planning job. */
  lemma {:induction false} RetireValid(s: State, id: JobId, session: Session)
    requires Valid(s) && id in s.jobs && id in s.running && !s.jobs[id].PlainJob? && !s.jobs[id].PollJob?
    requires KeepsSnapshot(s.sessions[s.jobs[id].state], session)
    requires session.busy == (!s.jobs[id].PlanJob? && s.sessions[s.jobs[id].state].busy)
    ensures Valid(Settled(Update(s, s.jobs[id].state, session), id))
  {
    var st := s.jobs[id].state;
    var next := Settled(Update(s, st, session), id);
    assert JobValid(s, s.jobs[id]);
    forall x | x in next.jobs
      ensures JobValid(next, next.jobs[x])
    {
      assert JobValid(s, s.jobs[x]);
    }
    forall t | t in next.sessions && next.sessions[t].busy && !next.disposed
      ensures exists x :: x in next.jobs && next.jobs[x].PlanJob? && next.jobs[x].state == t
    {
      var x :| x in s.jobs && s.jobs[x].PlanJob? && s.jobs[x].state == t;
      assert x != id && next.jobs[x] == s.jobs[x];
    }
  }

  lemma {:induction false} PlanEndsValid(s: State, id: JobId, result: Option<View>)
    requires Valid(s) && id in s.running && id in s.jobs && s.jobs[id].PlanJob? && s.jobs[id].state in s.sessions
    ensures Valid(PlanEnds(s, id, result))
  {
    var installed, st := Install(s, s.jobs[id], result), s.jobs[id].state;
    RetireValid(s, id, installed.sessions[st].(busy := false));
    assert PlanEnds(s, id, result) == Settled(Update(s, st, installed.sessions[st].(busy := false)), id);
  }

  lemma {:induction false} HydrateEndsValid(s: State, id: JobId, result: Option<View>, failed: bool, next: JobId, bytes: nat)
    requires Valid(s) && id in s.running && id in s.jobs && s.jobs[id].HydrateJob? && s.jobs[id].state in s.sessions
    requires next !in s.jobs
    ensures Valid(HydrateEnds(s, id, result, failed, next, bytes))
  {
    var session := HydratedSession(s, id, result, failed);
    var ready := Settled(Update(s, s.jobs[id].state, session), id);
    RetireValid(s, id, session);
    ScheduleValid(ready, s.jobs[id].state, next, bytes);
    HydrateEndsIs(s, id, result, failed, next, bytes);
  }

  /** The session a hydration leaves behind. */
  function HydratedSession(s: State, id: JobId, result: Option<View>, failed: bool): Session
    requires id in s.jobs && s.jobs[id].HydrateJob? && s.jobs[id].state in s.sessions
  {
    var session := s.sessions[s.jobs[id].state];
    session.(view := if !failed && Installs(s, s.jobs[id], result) then result else session.view,
             hydrated := session.hydrated && !failed, hydrating := false)
  }

  lemma HydrateEndsIs(s: State, id: JobId, result: Option<View>, failed: bool, next: JobId, bytes: nat)
    requires id in s.jobs && s.jobs[id].HydrateJob? && s.jobs[id].state in s.sessions
    ensures var st := s.jobs[id].state;
            var ready := Settled(Update(s, st, HydratedSession(s, id, result, failed)), id);
            HydrateEnds(s, id, result, failed, next, bytes)
            == if !ready.disposed && st in ready.mapped && ready.sessions[st].hydrated then Schedule(ready, st, next, bytes) else ready
  {
    var installed, st := if failed then s else Install(s, s.jobs[id], result), s.jobs[id].state;
    var session := HydratedSession(s, id, result, failed);
    assert installed.sessions[st := session] == s.sessions[st := session];
    assert Update(installed, st, session) == Update(s, st, session);
  }

  lemma {:induction false} PollEndsValid(s: State, id: JobId, result: Option<View>)
    requires Valid(s) && id in s.jobs && s.jobs[id].PollJob?
    ensures Valid(PollEnds(s, id, result))
  {
    var installed := Install(s, s.jobs[id], result);
    if Installs(s, s.jobs[id], result) {
      UpdateValid(s, s.jobs[id].state, installed.sessions[s.jobs[id].state]);
    }
    Dropped(installed, installed.(jobs := installed.jobs - {id}), id);
  }

  lemma {:induction false} Dropped(s: State, next: State, id: JobId)
    requires PlansValid(s) && id in s.jobs && !s.jobs[id].PlanJob? && next.sessions == s.sessions && next.disposed == s.disposed
    requires next.jobs == s.jobs - {id}
    ensures PlansValid(next)
  {
    forall x | x in next.jobs
      ensures JobValid(next, next.jobs[x])
    {
      assert JobValid(s, s.jobs[x]);
    }
    forall st | st in next.sessions && next.sessions[st].busy && !next.disposed
      ensures exists x :: x in next.jobs && next.jobs[x].PlanJob? && next.jobs[x].state == st
    {
      var x :| x in s.jobs && s.jobs[x].PlanJob? && s.jobs[x].state == st;
      assert x != id && x in next.jobs;
    }
  }

  lemma {:induction false} PermitValid(s: State, id: JobId)
    requires Valid(s) && id in s.running && id in s.jobs && s.jobs[id].PlainJob?
    ensures Valid(Finish(s, id))
  {
    FinishValid(s, id);
    Dropped(s, Finish(s, id), id);
  }

  lemma {:induction false} DisposeValid(s: State)
    requires Valid(s)
    ensures Valid(Dispose(s))
  {
    var next := Dispose(s);
    assert next.queue == [] && TotalBytes([]) == 0;
    forall id | id in next.running
      ensures id in next.jobs && !next.jobs[id].PollJob?
    {
      assert forall item :: item in s.queue ==> IsQueued(s.queue, item.job);
    }
    forall id | id in next.jobs
      ensures JobValid(next, next.jobs[id])
    {
      assert JobValid(s, s.jobs[id]);
    }
  }

  lemma {:induction false} OpenValid(s: State, st: StateId)
    requires Valid(s) && st !in s.sessions
    ensures Valid(Update(s, st, NEW_SESSION).(mapped := s.mapped + {st}))
  {
    var next := Update(s, st, NEW_SESSION);
    forall id | id in next.jobs
      ensures JobValid(next, next.jobs[id])
    {
      assert JobValid(s, s.jobs[id]);
    }
    forall id | id in next.jobs && next.jobs[id].PlanJob?
      ensures next.sessions[next.jobs[id].state].busy
    {
      assert JobValid(s, s.jobs[id]);
    }
  }

  lemma {:induction false} PollRequestValid(s: State, st: StateId, job: JobId)
    requires Valid(s) && st in s.sessions && job !in s.jobs && s.sessions[st].view.Some?
    ensures Valid(s.(jobs := s.jobs[job := PollJob(st, s.sessions[st].generation, s.sessions[st].view.value)]))
  {
    var poll := PollJob(st, s.sessions[st].generation, s.sessions[st].view.value);
    OtherAdded(s, s.(jobs := s.jobs[job := poll]), job, poll);
  }

  // ------------------------------------------------------------------------ every run

  lemma {:induction false} InitialValid()
    ensures forall layered, mode :: Valid(Initial(layered, mode))
  {
  }

  lemma {:induction false} UnmapValid(s: State, st: StateId)
    requires Valid(s)
    ensures Valid(s.(mapped := s.mapped - {st}))
  {
    var next := s.(mapped := s.mapped - {st});
    forall id | id in next.jobs
      ensures JobValid(next, next.jobs[id])
    {
      assert JobValid(s, s.jobs[id]);
    }
  }

  lemma DeleteValid(s: State, st: StateId, job: JobId)
    requires Valid(s) && st in s.sessions && job !in s.jobs
    ensures Valid(ClearView(s, st, job).(mapped := ClearView(s, st, job).mapped - {st}))
  {
    ClearValid(s, st, s.sessions[st], job);
    UnmapValid(ClearView(s, st, job), st);
  }

  /** Events that create, forget or invalidate one session. */
  predicate OfSession(e: Event) {
    e.Open? || e.Evict? || e.Delete? || e.Snapshot? || e.Clear? || e.ModelChange? || e.MessageEvent? || e.Compacting? || e.Compacted? || e.Resume?
  }

  lemma {:induction false} SessionStepValid(s: State, e: Event)
    requires Valid(s) && Possible(s, e) && OfSession(e)
    ensures Valid(Step(s, e))
  {
    match e
    case Open(st) => OpenValid(s, st);
    case Evict(st) => UnmapValid(s, st);
    case Delete(st, job) => DeleteValid(s, st, job);
    case Snapshot(st, epoch, entries, job) => ObserveValid(s, st, epoch, entries, job);
    case Clear(st, job) => ClearValid(s, st, s.sessions[st], job);
    case ModelChange(st) => UpdateValid(s, st, Bumped(s.sessions[st]));
    case MessageEvent(st, message, job) => MessageEditValid(s, st, message, job);
    case Compacted(st, job) => ClearValid(s, st, s.sessions[st].(paused := false, snapshot := None), job);
    case Compacting(st) => UpdateValid(s, st, Bumped(s.sessions[st]).(paused := true));
    case Resume(st) => UpdateValid(s, st, s.sessions[st].(paused := false));
  }

  lemma {:induction false} JobStepValid(s: State, e: Event)
    requires Valid(s) && Possible(s, e) && !OfSession(e)
    ensures Valid(Step(s, e))
  {
    match e
    case HydrateRequest(st, job) => HydrateValid(s, st, job);
    case ScheduleRequest(st, job, bytes) => ScheduleValid(s, st, job, bytes);
    case PollRequest(st, job) => PollRequestValid(s, st, job);
    case PlanEnd(id, result) => PlanEndsValid(s, id, result);
    case HydrateEnd(id, result, failed, next, bytes) => HydrateEndsValid(s, id, result, failed, next, bytes);
    case PollEnd(id, result) => PollEndsValid(s, id, result);
    case PermitReturns(id) => PermitValid(s, id);
    case DisposeAll => DisposeValid(s);
  }

  lemma StepValid(s: State, e: Event)
    requires Valid(s)
    ensures Valid(Step(s, e))
  {
    if Possible(s, e) {
      if OfSession(e) {
        SessionStepValid(s, e);
      } else {
        JobStepValid(s, e);
      }
    }
  }

  lemma {:induction false} FollowsValid(s: State, e: Event, next: State)
    requires Valid(s) && Follows(s, e, next)
    ensures Valid(next)
  {
    assert next == Step(s, e);
    StepValid(s, e);
  }

  /**
   * In every interleaving at most one planning job lives per session state, at most two jobs run and 32 are
   * queued or running, and the byte counter is the sum over the queue.
   */
  lemma {:induction false} ExecutionValid(states: seq<State>, events: seq<Event>, n: nat)
    requires Execution(states, events) && Valid(states[0]) && n <= |events|
    ensures Valid(states[n])
  {
    if n > 0 {
      ExecutionValid(states, events, n - 1);
      FollowsValid(states[n - 1], events[n - 1], states[n]);
    }
  }

  // ------------------------------------------------------------------- no stale view

  /**
   * A view clear, a new epoch, a model change, an edit of the view's or the snapshot's sources, a compaction
   * or its pause, a deletion or the disposal.
   */
  predicate Invalidates(s: State, e: Event, st: StateId) {
    match e
    case Clear(t, _) => t == st && Possible(s, e)
    case Delete(t, _) => t == st && Possible(s, e)
    case ModelChange(t) => t == st && Possible(s, e)
    case Snapshot(t, epoch, _, _) => t == st && Possible(s, e) && EpochChanges(s.sessions[t], epoch)
    case MessageEvent(t, message, _) =>
      t == st && Possible(s, e) && (AffectsView(s.sessions[t], message) || AffectsSnapshot(s.layered, s.sessions[t], message))
    case Compacted(t, _) => t == st && Possible(s, e)
    case Compacting(t) => t == st && Possible(s, e)
    case DisposeAll => st in s.mapped && Possible(s, e)
    case _ => false
  }

  function GenerationOf(s: State, st: StateId): nat {
    if st in s.sessions then s.sessions[st].generation else 0
  }

  lemma {:induction false} PumpSessions(s: State)
    ensures Pump(s).sessions == s.sessions && Pump(s).jobs == s.jobs
    decreases |s.queue|
  {
    if !s.disposed && |s.running| < MAX_ACTIVE && s.queue != [] {
      PumpSessions(Start(s));
    }
  }

  lemma EnqueueSessions(s: State, id: JobId, job: Job, bytes: nat)
    ensures Enqueue(s, id, job, bytes).sessions == s.sessions
  {
    if Accepts(s, bytes) {
      PumpSessions(s.(jobs := s.jobs[id := job], queue := s.queue + [Item(id, bytes)], queuedBytes := s.queuedBytes + bytes));
    }
  }

  /** An accepted job is known, and the bounds the acceptance tests stand for hold. */
  lemma EnqueueKeeps(s: State, id: JobId, job: Job, bytes: nat)
    ensures Enqueue(s, id, job, bytes).jobs == if Accepts(s, bytes) then s.jobs[id := job] else s.jobs
    ensures QueueValid(s) && Busy(s) && id !in s.jobs && !job.PollJob? ==> QueueValid(Enqueue(s, id, job, bytes))
  {
    if QueueValid(s) && Busy(s) && id !in s.jobs && !job.PollJob? {
      EnqueueValid(s, id, job, bytes);
    }
    PumpSessions(s.(jobs := s.jobs[id := job], queue := s.queue + [Item(id, bytes)], queuedBytes := s.queuedBytes + bytes));
  }

  lemma ScheduleSessions(s: State, t: StateId, job: JobId, bytes: nat, st: StateId)
    requires t in s.sessions
    ensures GenerationOf(Schedule(s, t, job, bytes), st) == GenerationOf(s, st)
    ensures st in s.sessions ==>
              && st in Schedule(s, t, job, bytes).sessions
              && Schedule(s, t, job, bytes).sessions[st].snapshot == s.sessions[st].snapshot
  {
    if !Blocked(s.sessions[t]) {
      EnqueueSessions(Update(s, t, s.sessions[t].(busy := true)), job, PlanOf(t, s.sessions[t]), bytes);
    }
  }

  lemma HydrateSessions(s: State, t: StateId, job: JobId, st: StateId)
    requires t in s.sessions
    ensures GenerationOf(Hydrate(s, t, job), st) == GenerationOf(s, st)
    ensures st in s.sessions ==>
              && st in Hydrate(s, t, job).sessions
              && Hydrate(s, t, job).sessions[st].snapshot == s.sessions[st].snapshot
  {
    EnqueueSessions(Update(s, t, s.sessions[t].(hydrated := true, hydrating := true)), job, HydrateJob(t, s.sessions[t].generation), 0);
  }

  lemma HydrateEndSessions(s: State, id: JobId, result: Option<View>, failed: bool, next: JobId, bytes: nat, st: StateId)
    requires id in s.jobs && s.jobs[id].HydrateJob? && s.jobs[id].state in s.sessions
    ensures GenerationOf(HydrateEnds(s, id, result, failed, next, bytes), st) == GenerationOf(s, st)
    ensures st in s.sessions ==>
              && st in HydrateEnds(s, id, result, failed, next, bytes).sessions
              && HydrateEnds(s, id, result, failed, next, bytes).sessions[st].snapshot == s.sessions[st].snapshot
  {
    HydrateEndsIs(s, id, result, failed, next, bytes);
    var ready := Settled(Update(s, s.jobs[id].state, HydratedSession(s, id, result, failed)), id);
    ScheduleSessions(ready, s.jobs[id].state, next, bytes, st);
  }

  lemma ClearSessions(s: State, t: StateId, session: Session, job: JobId)
    ensures ClearAs(s, t, session, job).sessions == s.sessions[t := Bumped(session).(view := None)]
  {
    EnqueueSessions(Update(s, t, Bumped(session).(view := None)), job, PlainJob, 0);
  }

  lemma MessageEditSessions(s: State, t: StateId, message: Option<Text>, job: JobId)
    requires t in s.sessions
    ensures MessageEdit(s, t, message, job).sessions ==
            if AffectsView(s.sessions[t], message) then s.sessions[t := Bumped(s.sessions[t]).(view := None, snapshot := None)]
            else if AffectsSnapshot(s.layered, s.sessions[t], message) then s.sessions[t := Bumped(s.sessions[t]).(snapshot := None)]
            else s.sessions
  {
    ClearSessions(s, t, s.sessions[t].(snapshot := None), job);
  }

  lemma ObserveSessions(s: State, t: StateId, epoch: Text, entries: seq<Entry>, job: JobId)
    requires t in s.sessions
    ensures var seen := s.sessions[t].(snapshot := Some(entries), epoch := Some(epoch));
            Observe(s, t, epoch, entries, job).sessions ==
            s.sessions[t := if EpochChanges(s.sessions[t], epoch) then Bumped(seen).(view := None) else seen]
  {
    ClearSessions(s, t, s.sessions[t].(snapshot := Some(entries), epoch := Some(epoch)), job);
  }

  /** The session a hook leaves behind. */
  function SessionAfter(s: State, e: Event): Session
    requires OfSession(e) && Possible(s, e)
  {
    match e
    case Open(_) => NEW_SESSION
    case Evict(st) => s.sessions[st]
    case Snapshot(st, epoch, entries, _) =>
      var seen := s.sessions[st].(snapshot := Some(entries), epoch := Some(epoch));
      if EpochChanges(s.sessions[st], epoch) then Bumped(seen).(view := None) else seen
    case ModelChange(st) => Bumped(s.sessions[st])
    case MessageEvent(st, message, _) =>
      if AffectsView(s.sessions[st], message) then Bumped(s.sessions[st]).(view := None, snapshot := None)
      else if AffectsSnapshot(s.layered, s.sessions[st], message) then Bumped(s.sessions[st]).(snapshot := None)
      else s.sessions[st]
    case Compacting(st) => Bumped(s.sessions[st]).(paused := true)
    case Compacted(st, _) => Bumped(s.sessions[st]).(paused := false, snapshot := None, view := None)
    case Resume(st) => s.sessions[st].(paused := false)
    case _ => Bumped(s.sessions[e.st]).(view := None)
  }

  lemma SessionStep(s: State, e: Event)
    requires OfSession(e) && Possible(s, e)
    ensures Step(s, e).sessions == s.sessions[e.st := SessionAfter(s, e)]
  {
    match e
    case Delete(t, job) => ClearSessions(s, t, s.sessions[t], job);
    case Clear(t, job) => ClearSessions(s, t, s.sessions[t], job);
    case Snapshot(t, epoch, entries, job) => ObserveSessions(s, t, epoch, entries, job);
    case MessageEvent(t, message, job) => MessageEditSessions(s, t, message, job);
    case Compacted(t, job) => ClearSessions(s, t, s.sessions[t].(paused := false, snapshot := None), job);
    case Evict(t) => assert s.sessions[t := s.sessions[t]] == s.sessions;
    case _ =>
  }

  /** The end of a job and its start leave generations and snapshots alone; the disposal moves generations. */
  lemma JobStep(s: State, e: Event, st: StateId)
    requires !OfSession(e) && Possible(s, e) && st in s.sessions
    ensures var next := Step(s, e);
            && st in next.sessions && next.sessions[st].snapshot == s.sessions[st].snapshot
            && GenerationOf(next, st) == GenerationOf(s, st) + if e.DisposeAll? && st in s.mapped then 1 else 0
  {
    match e
    case HydrateRequest(t, job) => HydrateSessions(s, t, job, st);
    case ScheduleRequest(t, job, bytes) => ScheduleSessions(s, t, job, bytes, st);
    case HydrateEnd(id, result, failed, more, bytes) => HydrateEndSessions(s, id, result, failed, more, bytes, st);
    case PermitReturns(id) => PumpSessions(s.(jobs := s.jobs - {id}, running := s.running - {id}));
    case _ =>
  }

  /** A session's generation never falls, and rises with every invalidation. */
  lemma {:induction false} GenerationMoves(s: State, e: Event, next: State, st: StateId)
    requires Follows(s, e, next) && st in s.sessions
    ensures st in next.sessions && GenerationOf(next, st) >= GenerationOf(s, st) + if Invalidates(s, e, st) then 1 else 0
  {
    assert next == Step(s, e);
    if Possible(s, e) {
      if OfSession(e) {
        SessionStep(s, e);
      } else {
        JobStep(s, e, st);
      }
    }
  }

  lemma {:induction false} GenerationGrows(states: seq<State>, events: seq<Event>, st: StateId, m: nat, n: nat)
    requires Execution(states, events) && m <= n <= |events| && st in states[m].sessions
    ensures st in states[n].sessions && GenerationOf(states[n], st) >= GenerationOf(states[m], st)
  {
    if m < n {
      GenerationGrows(states, events, st, m, n - 1);
      GenerationMoves(states[n - 1], events[n - 1], states[n], st);
    }
  }

  /**
   * A view is installed only if nothing invalidated its session since the job that brings it was requested:
   * no view clear, new epoch, model change, compaction, edit of its sources, deletion or disposal lies between.
   */
  lemma NoStaleInstall(states: seq<State>, events: seq<Event>, job: Job, result: Option<View>, m: nat, k: nat, n: nat)
    requires Execution(states, events) && m <= k < n <= |events|
    requires !job.PlainJob? && job.state in states[m].sessions && job.generation <= GenerationOf(states[m], job.state)
    requires Installs(states[n], job, result)
    ensures !Invalidates(states[k], events[k], job.state)
  {
    GenerationGrows(states, events, job.state, m, k);
    GenerationMoves(states[k], events[k], states[k + 1], job.state);
    GenerationGrows(states, events, job.state, k + 1, n);
  }

  /** The same for a job that exists at `m`: what it captured then decides what it may install at `n`. */
  lemma NoStaleInstallOf(states: seq<State>, events: seq<Event>, id: JobId, result: Option<View>, m: nat, k: nat, n: nat)
    requires Execution(states, events) && Valid(states[0]) && m <= k < n <= |events|
    requires id in states[m].jobs && !states[m].jobs[id].PlainJob? && Installs(states[n], states[m].jobs[id], result)
    ensures !Invalidates(states[k], events[k], states[m].jobs[id].state)
  {
    ExecutionValid(states, events, m);
    assert JobValid(states[m], states[m].jobs[id]);
    NoStaleInstall(states, events, states[m].jobs[id], result, m, k, n);
  }

  function ViewOf(s: State, st: StateId): Option<View> {
    if st in s.sessions then s.sessions[st].view else None
  }

  /** The event is the end of this job, bringing this view. */
  predicate Brings(s: State, e: Event, job: Job, result: Option<View>) {
    match e
    case PlanEnd(id, r) => id in s.jobs && s.jobs[id] == job && r == result
    case HydrateEnd(id, r, failed, _, _) => id in s.jobs && s.jobs[id] == job && r == result && !failed
    case PollEnd(id, r) => id in s.jobs && s.jobs[id] == job && r == result
    case _ => false
  }

  lemma ScheduleViews(s: State, t: StateId, job: JobId, bytes: nat, st: StateId)
    requires t in s.sessions
    ensures ViewOf(Schedule(s, t, job, bytes), st) == ViewOf(s, st)
  {
    if !Blocked(s.sessions[t]) {
      EnqueueSessions(Update(s, t, s.sessions[t].(busy := true)), job, PlanOf(t, s.sessions[t]), bytes);
    }
  }

  lemma HydrateEndViews(s: State, id: JobId, result: Option<View>, failed: bool, next: JobId, bytes: nat, st: StateId)
    requires id in s.jobs && s.jobs[id].HydrateJob? && s.jobs[id].state in s.sessions
    ensures ViewOf(HydrateEnds(s, id, result, failed, next, bytes), st)
         == if st == s.jobs[id].state && !failed && Installs(s, s.jobs[id], result) then result else ViewOf(s, st)
  {
    HydrateEndsIs(s, id, result, failed, next, bytes);
    var ready := Settled(Update(s, s.jobs[id].state, HydratedSession(s, id, result, failed)), id);
    ScheduleViews(ready, s.jobs[id].state, next, bytes, st);
  }

  lemma JobViews(s: State, e: Event, st: StateId) returns (job: Job)
    requires !OfSession(e) && Possible(s, e)
    requires ViewOf(Step(s, e), st).Some? && ViewOf(Step(s, e), st) != ViewOf(s, st)
    ensures !job.PlainJob? && job.state == st
    ensures Brings(s, e, job, ViewOf(Step(s, e), st)) && Installs(s, job, ViewOf(Step(s, e), st))
  {
    match e
    case PlanEnd(id, result) => job := s.jobs[id];
    case PollEnd(id, result) => job := s.jobs[id];
    case HydrateEnd(id, result, failed, more, bytes) =>
      job := s.jobs[id];
      HydrateEndViews(s, id, result, failed, more, bytes, st);
    case HydrateRequest(t, id) =>
      EnqueueSessions(Update(s, t, s.sessions[t].(hydrated := true, hydrating := true)), id, HydrateJob(t, s.sessions[t].generation), 0);
    case ScheduleRequest(t, id, bytes) => ScheduleViews(s, t, id, bytes, st);
    case PermitReturns(id) => PumpSessions(s.(jobs := s.jobs - {id}, running := s.running - {id}));
    case _ =>
  }

  /** There is no other way to a new view: it is brought by the end of a job that passes the last test. */
  lemma ViewsAreInstalled(s: State, e: Event, next: State, st: StateId) returns (job: Job)
    requires Follows(s, e, next) && ViewOf(next, st).Some? && ViewOf(next, st) != ViewOf(s, st)
    ensures !job.PlainJob? && job.state == st
    ensures Brings(s, e, job, ViewOf(next, st)) && Installs(s, job, ViewOf(next, st))
  {
    assert next == Step(s, e);
    if OfSession(e) {
      SessionStep(s, e);
    } else {
      job := JobViews(s, e, st);
    }
  }
}
