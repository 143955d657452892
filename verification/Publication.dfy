/** The plugin runtime's job queue and its generation-guarded view publication, as a state machine. */
module Publication {
  import opened Texts

  type JobId = nat

  /** One session state object; the same session may get a new one after an eviction. */
  type StateId = nat

  const MAX_ACTIVE := 2
  const MAX_JOBS := 32
  const MAX_QUEUED_BYTES := 8 * 1024 * 1024

  /** A published plan, and the ids of the messages it was made from, as far as it lists them. */
  datatype View = View(historyHash: Digest, epoch: Text, sources: Option<seq<Text>>)

  /** What a snapshot tells about one message: its id, and whether the user wrote it. */
  datatype Entry = Entry(id: Text, user: bool)

  datatype Session = Session(
    generation: nat, view: Option<View>, epoch: Option<Text>, paused: bool, hydrated: bool, hydrating: bool, busy: bool,
    snapshot: Option<seq<Entry>>)

  const NEW_SESSION := Session(0, None, None, false, false, false, false, None)

  /** What was captured when the job was requested; `PlainJob` concerns no view, or no longer does. */
  datatype Job =
    | PlanJob(state: StateId, generation: nat, raw: seq<Entry>)
    | HydrateJob(state: StateId, generation: nat)
    | PollJob(state: StateId, generation: nat, base: View)
    | PlainJob

  /** Plans are made in the modes shadow and on, and published only in the latter. */
  datatype Mode = Off | Shadow | On

  datatype Item = Item(job: JobId, bytes: nat)

  /**
   * `sessions` holds every state object ever made, `mapped` those still reachable by their session id;
   * `layered` is the configured strategy, `mode` the configured mode.
   */
  datatype State = State(
    sessions: map<StateId, Session>, mapped: set<StateId>, jobs: map<JobId, Job>, queue: seq<Item>, queuedBytes: int,
    running: set<JobId>, disposed: bool, layered: bool, mode: Mode)

  function Initial(layered: bool, mode: Mode): State { State(map[], {}, map[], [], 0, {}, false, layered, mode) }

  // -------------------------------------------------------------------------- the queue

  function Start(s: State): State
    requires s.queue != []
  {
    s.(queue := s.queue[1..], queuedBytes := s.queuedBytes - s.queue[0].bytes, running := s.running + {s.queue[0].job})
  }

  function Pump(s: State): State
    decreases |s.queue|
  {
    if !s.disposed && |s.running| < MAX_ACTIVE && s.queue != [] then Pump(Start(s)) else s
  }

  predicate Accepts(s: State, bytes: nat) {
    !s.disposed && |s.queue| + |s.running| < MAX_JOBS && s.queuedBytes + bytes <= MAX_QUEUED_BYTES
  }

  function Enqueue(s: State, id: JobId, job: Job, bytes: nat): State {
    if !Accepts(s, bytes) then s
    else Pump(s.(jobs := s.jobs[id := job], queue := s.queue + [Item(id, bytes)], queuedBytes := s.queuedBytes + bytes))
  }

  /** A permit comes back. */
  function Finish(s: State, id: JobId): State {
    Pump(s.(jobs := s.jobs - {id}, running := s.running - {id}))
  }

  // ------------------------------------------------------------------- session updates

  function Update(s: State, st: StateId, session: Session): State {
    s.(sessions := s.sessions[st := session])
  }

  function Bumped(session: Session): Session {
    session.(generation := session.generation + 1)
  }

  /** `clearView`: the view goes, the generation moves on, and in mode on a job clears the durable copy. */
  function ClearAs(s: State, st: StateId, session: Session, job: JobId): State {
    var cleared := Update(s, st, Bumped(session).(view := None));
    if s.mode.On? then Enqueue(cleared, job, PlainJob, 0) else cleared
  }

  function ClearView(s: State, st: StateId, job: JobId): State
    requires st in s.sessions
  {
    ClearAs(s, st, s.sessions[st], job)
  }

  predicate EpochChanges(session: Session, epoch: Text) {
    session.epoch.Some? && session.epoch.value != epoch
  }

  /** A transform keeps the messages it was given; a new compaction epoch clears the view. */
  function Observe(s: State, st: StateId, epoch: Text, entries: seq<Entry>, job: JobId): State
    requires st in s.sessions
  {
    var seen := s.sessions[st].(snapshot := Some(entries), epoch := Some(epoch));
    if EpochChanges(s.sessions[st], epoch) then ClearAs(s, st, seen, job) else Update(s, st, seen)
  }

  // -------------------------------------------------------------------- message events

  /** Where the streaming tail after the last user message starts; 0 without a user message. */
  function PrefixEnd(entries: seq<Entry>): (end: nat)
    ensures end <= |entries|
  {
    if entries == [] then 0
    else if entries[|entries| - 1].user then |entries|
    else PrefixEnd(entries[..|entries| - 1])
  }

  /** The messages whose edits invalidate plans: layered plans never reach the streaming tail. */
  function PlanSources(layered: bool, entries: seq<Entry>): seq<Entry> {
    if layered && PrefixEnd(entries) > 0 then entries[..PrefixEnd(entries)] else entries
  }

  function Ids(entries: seq<Entry>): seq<Text> {
    seq(|entries|, i requires 0 <= i < |entries| => entries[i].id)
  }

  /** An event without a message id affects every list of sources. */
  predicate Affects(sources: Option<seq<Text>>, id: Option<Text>) {
    sources.Some? && (id.None? || id.value in sources.value)
  }

  predicate AffectsView(session: Session, id: Option<Text>) {
    session.view.Some? && Affects(session.view.value.sources, id)
  }

  predicate AffectsSnapshot(layered: bool, session: Session, id: Option<Text>) {
    session.snapshot.Some? && Affects(Some(Ids(PlanSources(layered, session.snapshot.value))), id)
  }

  /** A message or a part of one changed or went away, and not just metadata that no projection shows. */
  function MessageEdit(s: State, st: StateId, id: Option<Text>, job: JobId): State
    requires st in s.sessions
  {
    var session := s.sessions[st];
    if AffectsView(session, id) then ClearAs(s, st, session.(snapshot := None), job)
    else if AffectsSnapshot(s.layered, session, id) then Update(s, st, Bumped(session).(snapshot := None))
    else s
  }

  // ------------------------------------------------------------------------ new jobs

  predicate Blocked(session: Session) {
    session.hydrating || session.paused || session.busy || session.snapshot.None?
  }

  /** The planning job of a session captures its generation and its snapshot. */
  function PlanOf(st: StateId, session: Session): Job
    requires !Blocked(session)
  {
    PlanJob(st, session.generation, session.snapshot.value)
  }

  /** `schedule`: mark the session busy and queue its planning job. */
  function Schedule(s: State, st: StateId, job: JobId, bytes: nat): State
    requires st in s.sessions
  {
    if s.mode.Off? || Blocked(s.sessions[st]) || !Accepts(s, bytes) then s
    else Enqueue(Update(s, st, s.sessions[st].(busy := true)), job, PlanOf(st, s.sessions[st]), bytes)
  }

  function Hydrate(s: State, st: StateId, job: JobId): State
    requires st in s.sessions
  {
    if s.mode.Off? || s.sessions[st].hydrated || !Accepts(s, 0) then s
    else Enqueue(Update(s, st, s.sessions[st].(hydrated := true, hydrating := true)), job,
                 HydrateJob(st, s.sessions[st].generation), 0)
  }

  // ----------------------------------------------------------------------- publication

  /** The last test before a planned view is installed. */
  predicate PlanInstalls(s: State, job: Job, result: Option<View>) {
    && job.PlanJob? && result.Some? && job.state in s.sessions && s.mode.On?
    && !s.disposed && !s.sessions[job.state].paused && job.generation == s.sessions[job.state].generation
  }

  predicate HydrateInstalls(s: State, job: Job, result: Option<View>) {
    && job.HydrateJob? && result.Some? && job.state in s.sessions
    && var session := s.sessions[job.state];
       !s.disposed && session.view.None? && job.generation == session.generation
       && result.value.epoch == (if session.epoch.Some? then session.epoch.value else [])
  }

  /** An enhanced candidate replaces only the view it was made from. */
  predicate PollInstalls(s: State, job: Job, result: Option<View>) {
    && job.PollJob? && result.Some? && job.state in s.sessions
    && var session := s.sessions[job.state];
       !s.disposed && !session.paused && job.generation == session.generation
       && session.view.Some? && session.view.value.historyHash == job.base.historyHash
  }

  predicate Installs(s: State, job: Job, result: Option<View>) {
    PlanInstalls(s, job, result) || HydrateInstalls(s, job, result) || PollInstalls(s, job, result)
  }

  function Install(s: State, job: Job, result: Option<View>): State {
    if Installs(s, job, result) then Update(s, job.state, s.sessions[job.state].(view := result)) else s
  }

  function Settled(s: State, id: JobId): State {
    s.(jobs := s.jobs[id := PlainJob])
  }

  /** The body of a planning job ends, however it ends; its session is free again, its permit comes back later. */
  function PlanEnds(s: State, id: JobId, result: Option<View>): State
    requires id in s.jobs && s.jobs[id].PlanJob? && s.jobs[id].state in s.sessions
  {
    var installed := Install(s, s.jobs[id], result);
    var st := s.jobs[id].state;
    Settled(Update(installed, st, installed.sessions[st].(busy := false)), id)
  }

  /** The body of a hydration ends; unless it failed, its session is scheduled at once. */
  function HydrateEnds(s: State, id: JobId, result: Option<View>, failed: bool, next: JobId, bytes: nat): State
    requires id in s.jobs && s.jobs[id].HydrateJob? && s.jobs[id].state in s.sessions
  {
    var installed := if failed then s else Install(s, s.jobs[id], result);
    var st := s.jobs[id].state;
    var session := installed.sessions[st];
    var ready := Settled(Update(installed, st, session.(hydrated := session.hydrated && !failed, hydrating := false)), id);
    if !ready.disposed && st in ready.mapped && ready.sessions[st].hydrated then Schedule(ready, st, next, bytes) else ready
  }

  function PollEnds(s: State, id: JobId, result: Option<View>): State
    requires id in s.jobs && s.jobs[id].PollJob?
  {
    var installed := Install(s, s.jobs[id], result);
    installed.(jobs := installed.jobs - {id})
  }

  function BumpAll(sessions: map<StateId, Session>, mapped: set<StateId>): map<StateId, Session> {
    map st | st in sessions :: if st in mapped then Bumped(sessions[st]) else sessions[st]
  }

  function Dispose(s: State): State {
    s.(disposed := true, queue := [], queuedBytes := 0, jobs := s.jobs - (set item | item in s.queue :: item.job),
       sessions := BumpAll(s.sessions, s.mapped))
  }

  // ------------------------------------------------------------------------------ runs

  /** Each event is one uninterrupted stretch of a hook or of a job between two awaits. */
  datatype Event =
    | Open(st: StateId)
    | Evict(st: StateId)
    | Delete(st: StateId, job: JobId)
    | Snapshot(st: StateId, epoch: Text, entries: seq<Entry>, job: JobId)
    | Clear(st: StateId, job: JobId)
    | ModelChange(st: StateId)
    | MessageEvent(st: StateId, message: Option<Text>, job: JobId)
    | Compacting(st: StateId)
    | Compacted(st: StateId, job: JobId)
    | Resume(st: StateId)
    | HydrateRequest(st: StateId, job: JobId)
    | ScheduleRequest(st: StateId, job: JobId, bytes: nat)
    | PollRequest(st: StateId, job: JobId)
    | PlanEnd(id: JobId, result: Option<View>)
    | HydrateEnd(id: JobId, result: Option<View>, failed: bool, next: JobId, bytes: nat)
    | PollEnd(id: JobId, result: Option<View>)
    | PermitReturns(id: JobId)
    | DisposeAll

  predicate Possible(s: State, e: Event) {
    match e
    case Open(st) => st !in s.sessions
    case Evict(st) => st in s.mapped && st in s.sessions && !s.sessions[st].busy
    case Delete(st, job) => st in s.sessions && job !in s.jobs
    case Snapshot(st, _, _, job) => st in s.sessions && job !in s.jobs && !s.disposed && !s.mode.Off?
    case Compacting(st) => st in s.sessions && !s.mode.Off?
    case Clear(st, job) => st in s.sessions && job !in s.jobs
    case MessageEvent(st, _, job) => st in s.sessions && job !in s.jobs
    case Compacted(st, job) => st in s.sessions && job !in s.jobs
    case HydrateRequest(st, job) => st in s.sessions && job !in s.jobs
    case ScheduleRequest(st, job, _) => st in s.sessions && job !in s.jobs
    case PollRequest(st, job) => st in s.sessions && job !in s.jobs && s.sessions[st].view.Some?
    case PlanEnd(id, _) => id in s.running && id in s.jobs && s.jobs[id].PlanJob? && s.jobs[id].state in s.sessions
    case HydrateEnd(id, _, _, next, _) =>
      id in s.running && id in s.jobs && s.jobs[id].HydrateJob? && s.jobs[id].state in s.sessions && next !in s.jobs
    case PollEnd(id, _) => id in s.jobs && s.jobs[id].PollJob?
    case PermitReturns(id) => id in s.running && id in s.jobs && s.jobs[id].PlainJob?
    case DisposeAll => !s.disposed
    case _ => e.st in s.sessions
  }

  function Step(s: State, e: Event): State {
    if !Possible(s, e) then s else
    match e
    case Open(st) => Update(s, st, NEW_SESSION).(mapped := s.mapped + {st})
    case Evict(st) => s.(mapped := s.mapped - {st})
    case Delete(st, job) =>
      var cleared := ClearView(s, st, job);
      cleared.(mapped := cleared.mapped - {st})
    case Snapshot(st, epoch, entries, job) => Observe(s, st, epoch, entries, job)
    case Clear(st, job) => ClearView(s, st, job)
    case ModelChange(st) => Update(s, st, Bumped(s.sessions[st]))
    case MessageEvent(st, message, job) => MessageEdit(s, st, message, job)
    case Compacting(st) => Update(s, st, Bumped(s.sessions[st]).(paused := true))
    case Compacted(st, job) => ClearAs(s, st, s.sessions[st].(paused := false, snapshot := None), job)
    case Resume(st) => Update(s, st, s.sessions[st].(paused := false))
    case HydrateRequest(st, job) => Hydrate(s, st, job)
    case ScheduleRequest(st, job, bytes) => Schedule(s, st, job, bytes)
    case PollRequest(st, job) => s.(jobs := s.jobs[job := PollJob(st, s.sessions[st].generation, s.sessions[st].view.value)])
    case PlanEnd(id, result) => PlanEnds(s, id, result)
    case HydrateEnd(id, result, failed, next, bytes) => HydrateEnds(s, id, result, failed, next, bytes)
    case PollEnd(id, result) => PollEnds(s, id, result)
    case PermitReturns(id) => Finish(s, id)
    case DisposeAll => Dispose(s)
  }

  ghost predicate Follows(s: State, e: Event, next: State) {
    forall f :: f == e ==> next == Step(s, f)
  }

  ghost predicate Execution(states: seq<State>, events: seq<Event>) {
    && |states| == |events| + 1
    && forall i, j :: 0 <= i < |events| && j == i + 1 ==> Follows(states[i], events[i], states[j])
  }
}
