/** `EnhancementManager` as a state machine: what each entry point and each settled wait does. */
module Enhancement {
  import opened Texts

  type Id = Text

  const MAX_RUNNING := 2
  const MAX_QUEUED := 16
  const MAX_SESSIONS := 128
  const MAX_JOBS := 512
  const MAX_CACHED := 128
  const MAX_ENVELOPE_BYTES := 131072

  datatype Tokens = Tokens(input: int, output: int) {
    function Plus(t: Tokens): Tokens { Tokens(input + t.input, output + t.output) }
    function Minus(t: Tokens): Tokens { Tokens(input - t.input, output - t.output) }
    predicate AtMost(t: Tokens) { input <= t.input && output <= t.output }
  }

  const NOTHING := Tokens(0, 0)

  function Max(a: int, b: int): int { if a >= b then a else b }

  function Larger(a: Tokens, b: Tokens): Tokens { Tokens(Max(a.input, b.input), Max(a.output, b.output)) }

  /** `request` is reserved in full for each job; `session` bounds what one session may spend in all. */
  datatype Config = Config(enabled: bool, request: Tokens, session: Tokens)

  ghost predicate ConfigValid(c: Config) {
    NOTHING.AtMost(c.request) && NOTHING.AtMost(c.session)
  }

  datatype Namespace = Namespace(projectId: Text, sessionId: Text)

  datatype Session = Session(spend: Tokens, active: Option<Id>)

  datatype Status = Queued | Running | Completed | Rejected | Failed | Cancelled

  datatype Reason =
    | Disposed | Disabled | InvalidSource | InputBudget | InvalidInput | SessionBusy | QueueFull | SessionCapacity
    | SessionBudget | StaleSource | WasCancelled | ProviderBudget | BadEntries | TimedOut | ProviderError

  /** `published` says that the job carries a result and entries. */
  datatype Job = Job(status: Status, sourceKey: Text, reason: Option<Reason>, published: bool)

  /** What a provider reports; an absent or malformed count is unknown. */
  datatype Usage = Usage(input: Option<nat>, output: Option<nat>)

  const UNKNOWN := Usage(None, None)

  /** A pending job; `settled` once its race with the abort signal is over and only clean-up remains. */
  datatype Work = Work(session: Namespace, cacheKey: Digest, aborted: bool, settled: bool, usage: Usage)

  datatype Cached = Cached(key: Digest, id: Id)

  /**
   * `order` lists every job ever created, oldest first: the iteration order of the job and pending maps.
   * `cache` is in insertion order.
   */
  datatype State = State(
    sessions: map<Namespace, Session>, jobs: map<Id, Job>, order: seq<Id>, cache: seq<Cached>,
    pending: map<Id, Work>, queue: seq<Id>, running: int, disposed: bool)

  const INITIAL := State(map[], map[], [], [], map[], [], 0, false)

  // ----------------------------------------------------------------- small updates

  function Drop(queue: seq<Id>, id: Id): seq<Id> {
    if queue == [] then [] else if queue[0] == id then queue[1..] else [queue[0]] + Drop(queue[1..], id)
  }

  function WithoutJob(cache: seq<Cached>, id: Id): seq<Cached> {
    if cache == [] then []
    else if cache[0].id == id then WithoutJob(cache[1..], id)
    else [cache[0]] + WithoutJob(cache[1..], id)
  }

  function Lookup(cache: seq<Cached>, key: Digest): Option<Id> {
    if cache == [] then None else if cache[0].key == key then Some(cache[0].id) else Lookup(cache[1..], key)
  }

  /** An insertion-ordered map keeps a key's place when its value is replaced. */
  function Put(cache: seq<Cached>, key: Digest, id: Id): seq<Cached> {
    if cache == [] then [Cached(key, id)]
    else if cache[0].key == key then [Cached(key, id)] + cache[1..]
    else [cache[0]] + Put(cache[1..], key, id)
  }

  function Newest(cache: seq<Cached>): seq<Cached> {
    if |cache| > MAX_CACHED then cache[|cache| - MAX_CACHED..] else cache
  }

  function Mark(jobs: map<Id, Job>, id: Id, status: Status, reason: Option<Reason>): map<Id, Job> {
    if id in jobs then jobs[id := jobs[id].(status := status, reason := reason)] else jobs
  }

  function Charge(sessions: map<Namespace, Session>, key: Namespace, extra: Tokens): map<Namespace, Session> {
    if key in sessions then sessions[key := sessions[key].(spend := sessions[key].spend.Plus(extra))] else sessions
  }

  function Deactivate(sessions: map<Namespace, Session>, key: Namespace): map<Namespace, Session> {
    if key in sessions then sessions[key := sessions[key].(active := None)] else sessions
  }

  // --------------------------------------------------------------------- the steps

  function Start(s: State): State
    requires s.queue != []
  {
    s.(queue := s.queue[1..], running := s.running + 1, jobs := Mark(s.jobs, s.queue[0], Running, None))
  }

  function Pump(s: State): State
    decreases |s.queue|
  {
    if !s.disposed && s.running < MAX_RUNNING && s.queue != [] then Pump(Start(s)) else s
  }

  function Release(s: State, id: Id): State
    requires id in s.pending
  {
    s.(sessions := Deactivate(s.sessions, s.pending[id].session), pending := s.pending - {id})
  }

  /** A queued job is cancelled: its whole reservation comes back. */
  function Withdraw(c: Config, s: State, id: Id): State
    requires id in s.pending
  {
    Release(s.(
        jobs := Mark(s.jobs, id, Cancelled, Some(WasCancelled)),
        queue := Drop(s.queue, id),
        sessions := Charge(s.sessions, s.pending[id].session, NOTHING.Minus(c.request))), id)
  }

  /** A running job is cancelled: its signal fires, and its permit and reservation stay. */
  function Abort(s: State, id: Id): State
    requires id in s.pending
  {
    s.(jobs := Mark(s.jobs, id, Cancelled, Some(WasCancelled)), pending := s.pending[id := s.pending[id].(aborted := true)])
  }

  predicate Cancellable(s: State, id: Id) {
    id in s.pending && id in s.jobs && s.jobs[id].status != Completed
  }

  function Cancel(c: Config, s: State, id: Id): State {
    if !Cancellable(s, id) then s
    else if id in s.queue then Pump(Withdraw(c, s, id))
    else Abort(s, id)
  }

  predicate Deletable(s: State, id: Id) {
    id in s.jobs && id !in s.pending && s.jobs[id].status != Queued && s.jobs[id].status != Running
  }

  function Delete(s: State, id: Id): State {
    s.(jobs := s.jobs - {id}, cache := WithoutJob(s.cache, id))
  }

  function TrimFrom(s: State, i: nat): State
    decreases |s.order| - i
  {
    if i >= |s.order| || |s.jobs| <= MAX_JOBS then s
    else if Deletable(s, s.order[i]) then TrimFrom(Delete(s, s.order[i]), i + 1)
    else TrimFrom(s, i + 1)
  }

  function Trim(s: State): State {
    var trimmed := TrimFrom(s, 0);
    trimmed.(cache := Newest(trimmed.cache))
  }

  /** What `submit` derives from its input before it looks at any state. */
  datatype Prepared =
    | Unpreparable
    | Prepared(envelopeBytes: nat, envelopeTokens: nat, cacheKey: Digest)

  datatype Submission = Submission(namespace: Namespace, sourceKey: Text, sourceIds: seq<Text>, prepared: Prepared)

  datatype Reply = Accepted(id: Id) | Known(id: Id) | Refused(reason: Reason)

  predicate SourceValid(input: Submission) {
    && 0 < |input.sourceKey| <= 256
    && 0 < |input.namespace.projectId| <= 4096 && 0 < |input.namespace.sessionId| <= 4096
    && 0 < |input.sourceIds| <= 4096
    && (forall i :: 0 <= i < |input.sourceIds| ==> 0 < |input.sourceIds[i]| <= 4096)
    && (forall i, j :: 0 <= i < j < |input.sourceIds| ==> input.sourceIds[i] != input.sourceIds[j])
  }

  function SpendOf(s: State, key: Namespace): Tokens {
    if key in s.sessions then s.sessions[key].spend else NOTHING
  }

  function ActiveOf(s: State, key: Namespace): Option<Id> {
    if key in s.sessions then s.sessions[key].active else None
  }

  /** The answer `submit` gives without creating a job, if any. */
  function Answered(c: Config, s: State, input: Submission): Option<Reply> {
    if s.disposed then Some(Refused(Disposed))
    else if !c.enabled then Some(Refused(Disabled))
    else if !SourceValid(input) then Some(Refused(InvalidSource))
    else if input.prepared.Unpreparable? then Some(Refused(InvalidInput))
    else if input.prepared.envelopeBytes > MAX_ENVELOPE_BYTES || input.prepared.envelopeTokens > c.request.input
    then Some(Refused(InputBudget))
    else
      var hit, active := Lookup(s.cache, input.prepared.cacheKey), ActiveOf(s, input.namespace);
      if hit.Some? && hit.value in s.jobs then Some(Known(hit.value))
      else if active.Some? then
        if active.value in s.pending && s.pending[active.value].cacheKey == input.prepared.cacheKey
        then Some(Known(active.value)) else Some(Refused(SessionBusy))
      else if |s.queue| >= MAX_QUEUED then Some(Refused(QueueFull))
      else if input.namespace !in s.sessions && |s.sessions| >= MAX_SESSIONS then Some(Refused(SessionCapacity))
      else if !SpendOf(s, input.namespace).Plus(c.request).AtMost(c.session) then Some(Refused(SessionBudget))
      else None
  }

  function Admit(c: Config, s: State, input: Submission, id: Id): State
    requires input.prepared.Prepared?
  {
    s.(
      sessions := s.sessions[input.namespace := Session(SpendOf(s, input.namespace).Plus(c.request), Some(id))],
      jobs := s.jobs[id := Job(Queued, input.sourceKey, None, false)],
      order := s.order + [id],
      pending := s.pending[id := Work(input.namespace, input.prepared.cacheKey, false, false, UNKNOWN)],
      queue := s.queue + [id])
  }

  function Submit(c: Config, s: State, input: Submission, id: Id): State {
    if Answered(c, s, input).None? then Trim(Admit(c, s, input, id)) else s
  }

  function Stale(s: State, id: Id): State {
    s.(jobs := if id in s.jobs then s.jobs[id := s.jobs[id].(status := Rejected, reason := Some(StaleSource), published := false)]
               else s.jobs,
       cache := WithoutJob(s.cache, id))
  }

  /** `get` with the caller's current source: a job of another source is cancelled and unpublished. */
  function Get(c: Config, s: State, id: Id, source: Option<Text>): State {
    if id in s.jobs && source.Some? && s.jobs[id].sourceKey != source.value then Stale(Cancel(c, s, id), id) else s
  }

  /** What the checks of a delivered result found. */
  datatype Verdict = Sound | Flawed | Threw

  /** How the race between a provider and the abort signal ended. */
  datatype Outcome =
    | Delivered(usage: Usage, verdict: Verdict)
    | Rejection(usage: Usage)
    | Signalled
    | Expired

  function OrElse(count: Option<nat>, otherwise: int): int { if count.Some? then count.value else otherwise }

  function Actual(c: Config, usage: Usage): Tokens {
    Tokens(OrElse(usage.input, c.request.input), OrElse(usage.output, c.request.output))
  }

  predicate OverBudget(c: Config, usage: Usage) {
    OrElse(usage.input, 0) > c.request.input || OrElse(usage.output, 0) > c.request.output
  }

  function UsageAfter(outcome: Outcome): Usage {
    match outcome
    case Delivered(usage, _) => usage
    case Rejection(usage) => usage
    case Signalled => UNKNOWN
    case Expired => UNKNOWN
  }

  function Publish(s: State, id: Id): State
    requires id in s.pending
  {
    Trim(s.(jobs := if id in s.jobs then s.jobs[id := s.jobs[id].(status := Completed, published := true)] else s.jobs,
            cache := Put(s.cache, s.pending[id].cacheKey, id)))
  }

  /** The catch clause: only a job still running fails. */
  function Fail(s: State, id: Id, reason: Reason): State {
    if id in s.jobs && s.jobs[id].status == Running then s.(jobs := Mark(s.jobs, id, Failed, Some(reason))) else s
  }

  function Noted(s: State, id: Id, outcome: Outcome): State
    requires id in s.pending
  {
    s.(pending := s.pending[id := s.pending[id].(
         settled := true, usage := UsageAfter(outcome), aborted := s.pending[id].aborted || outcome.Expired?)])
  }

  /** The race is over: the job's fate is decided, its permit is still held. */
  function Settle(c: Config, s: State, id: Id, outcome: Outcome): State
    requires id in s.pending
  {
    var s1 := Noted(s, id, outcome);
    match outcome
    case Delivered(usage, verdict) =>
      if s.pending[id].aborted then s1
      else if OverBudget(c, usage) then s1.(jobs := Mark(s1.jobs, id, Rejected, Some(ProviderBudget)))
      else if verdict.Flawed? then s1.(jobs := Mark(s1.jobs, id, Rejected, Some(BadEntries)))
      else if verdict.Threw? then Fail(s1, id, ProviderError)
      else Publish(s1, id)
    case Rejection(_) => Fail(s1, id, ProviderError)
    case Signalled => Fail(s1, id, ProviderError)
    case Expired => Fail(s1, id, TimedOut)
  }

  /** The provider itself settled: actual usage replaces the reservation and the permit is returned. */
  function Finish(c: Config, s: State, id: Id, late: Option<Usage>): State
    requires id in s.pending
  {
    var usage := if late.Some? then late.value else s.pending[id].usage;
    Pump(Release(s.(sessions := Charge(s.sessions, s.pending[id].session, Actual(c, usage).Minus(c.request)),
                    running := s.running - 1), id))
  }

  function Restore(s: State, key: Namespace, usage: Tokens): State {
    if key in s.sessions
    then s.(sessions := s.sessions[key := s.sessions[key].(spend := Larger(s.sessions[key].spend, usage))])
    else s.(sessions := s.sessions[key := Session(usage, None)])
  }

  /** Cancel every job of a list; ids that are not pending change nothing. */
  function CancelAll(c: Config, s: State, ids: seq<Id>): State
    decreases |ids|
  {
    if ids == [] then s else CancelAll(c, Cancel(c, s, ids[0]), ids[1..])
  }

  function Dispose(c: Config, s: State): State {
    CancelAll(c, s.(disposed := true), s.order).(cache := [])
  }

  // ---------------------------------------------------------------------- the runs

  datatype Event =
    | SubmitEvent(input: Submission, id: Id)
    | GetEvent(id: Id, source: Option<Text>)
    | CancelEvent(id: Id)
    | PumpEvent
    | SettleEvent(id: Id, outcome: Outcome)
    | FinishEvent(id: Id, late: Option<Usage>)
    | RestoreEvent(key: Namespace, usage: Tokens)
    | DisposeEvent

  /** Running and still racing. */
  predicate Racing(s: State, id: Id) {
    id in s.pending && id !in s.queue && !s.pending[id].settled
  }

  predicate CleaningUp(s: State, id: Id) {
    id in s.pending && s.pending[id].settled
  }

  /**
   * When an event can happen. A new job id was never used before; the abort signal ends a race only once
   * it fired; a restore that throws changes nothing and is not an event.
   */
  predicate Possible(s: State, e: Event) {
    match e
    case SubmitEvent(_, id) => id !in s.order
    case SettleEvent(id, outcome) => Racing(s, id) && (outcome.Signalled? ==> s.pending[id].aborted)
    case FinishEvent(id, _) => CleaningUp(s, id)
    case RestoreEvent(key, usage) =>
      !s.disposed && NOTHING.AtMost(usage) && (key in s.sessions || |s.sessions| < MAX_SESSIONS)
    case _ => true
  }

  /** An event that cannot happen changes nothing. */
  function Step(c: Config, s: State, e: Event): State {
    if !Possible(s, e) then s else
    match e
    case SubmitEvent(input, id) => Submit(c, s, input, id)
    case GetEvent(id, source) => Get(c, s, id, source)
    case CancelEvent(id) => Cancel(c, s, id)
    case PumpEvent => Pump(s)
    case SettleEvent(id, outcome) => Settle(c, s, id, outcome)
    case FinishEvent(id, late) => Finish(c, s, id, late)
    case RestoreEvent(key, usage) => Restore(s, key, usage)
    case DisposeEvent => Dispose(c, s)
  }

  /** `next` is what `e` makes of `s`; stated through a quantifier so that whole runs do not unfold their steps. */
  ghost predicate Follows(c: Config, s: State, e: Event, next: State) {
    forall f :: f == e ==> next == Step(c, s, f)
  }

  /** `states[i]` is reached before the `i`-th event. */
  ghost predicate Execution(c: Config, states: seq<State>, events: seq<Event>) {
    && |states| == |events| + 1
    && forall i, j :: 0 <= i < |events| && j == i + 1 ==> Follows(c, states[i], events[i], states[j])
  }
}
