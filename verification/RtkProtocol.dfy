/** The serialized request protocol of `RtkClient` as a state machine. */
module RtkProtocol {
  import opened Texts

  type Id = Text

  const MAX_PENDING := 32
  const MAX_QUEUED_BYTES := 8 * 1024 * 1024
  const LATE_REPLY_RING := 64
  const STREAK_LIMIT := 3

  datatype Failure = TimedOut | Crashed | Protocol | Unready | Overloaded | ShutDown

  /** How a request's promise was settled. */
  datatype Outcome = Resolved | ServerRefused | Failed(failure: Failure)

  datatype Waiting = Waiting(id: Id, bytes: nat)

  datatype QueuedJob = QueuedJob(id: Id, child: nat)

  /**
   * `pending` is in insertion order; `late` is the ring of timed-out ids, oldest first; `settled` records
   * every promise that was settled, and how. A child process is named by its spawn number.
   */
  datatype State = State(
    child: Option<nat>, spawns: nat, ready: bool, spawning: bool, breakerOpen: bool, shuttingDown: bool,
    restartAttempt: nat, streak: nat, late: seq<Id>, pending: seq<Waiting>, queuedBytes: int, queue: seq<QueuedJob>,
    inFlight: Option<Id>, settled: map<Id, Outcome>)

  const INITIAL := State(None, 0, false, false, false, false, 0, 0, [], [], 0, [], None, map[])

  // ------------------------------------------------------------------------ lists

  function IdsOf(pending: seq<Waiting>): seq<Id> {
    seq(|pending|, i requires 0 <= i < |pending| => pending[i].id)
  }

  predicate IsPending(pending: seq<Waiting>, id: Id) {
    exists i :: 0 <= i < |pending| && pending[i].id == id
  }

  predicate IsQueued(queue: seq<QueuedJob>, id: Id) {
    exists i :: 0 <= i < |queue| && queue[i].id == id
  }

  function BytesOf(pending: seq<Waiting>, id: Id): nat {
    if pending == [] then 0 else if pending[0].id == id then pending[0].bytes else BytesOf(pending[1..], id)
  }

  function TotalBytes(pending: seq<Waiting>): nat {
    if pending == [] then 0 else pending[0].bytes + TotalBytes(pending[1..])
  }

  function Without(pending: seq<Waiting>, id: Id): seq<Waiting> {
    if pending == [] then [] else if pending[0].id == id then pending[1..] else [pending[0]] + Without(pending[1..], id)
  }

  function Unqueue(queue: seq<QueuedJob>, id: Id): (r: seq<QueuedJob>)
    ensures |r| <= |queue|
  {
    if queue == [] then [] else if queue[0].id == id then queue[1..] else [queue[0]] + Unqueue(queue[1..], id)
  }

  function Forget(late: seq<Id>, id: Id): seq<Id> {
    if late == [] then [] else if late[0] == id then late[1..] else [late[0]] + Forget(late[1..], id)
  }

  // ------------------------------------------------------------------------ steps

  /** Settling removes the request everywhere; a request that is no longer pending stays as it is. */
  function Settle(s: State, id: Id, outcome: Outcome): State {
    if !IsPending(s.pending, id) then s
    else s.(
      queuedBytes := s.queuedBytes - BytesOf(s.pending, id),
      pending := Without(s.pending, id),
      queue := Unqueue(s.queue, id),
      settled := s.settled[id := outcome])
  }

  /** What time and the pipe decide while the queue is drained. */
  datatype Luck = Luck(expired: set<Id>, writeFails: bool)

  function Drain(s: State, luck: Luck): State
    decreases |s.queue|
  {
    if s.inFlight.Some? || s.queue == [] then s
    else
      var job, s1 := s.queue[0], s.(queue := s.queue[1..]);
      if !IsPending(s.pending, job.id) then Drain(s1, luck)
      else if job.id in luck.expired then Drain(Settle(s1, job.id, Failed(TimedOut)), luck)
      else if s.child != Some(job.child) || !s.ready || s.shuttingDown then Drain(Settle(s1, job.id, Failed(Unready)), luck)
      else if luck.writeFails then Settle(s1, job.id, Failed(Crashed))
      else s1.(inFlight := Some(job.id))
  }

  /** What a new request meets before it is queued. */
  function Refusal(s: State, bytes: nat): Option<Failure> {
    if s.shuttingDown then Some(ShutDown)
    else if !s.ready || s.child.None? || s.breakerOpen || s.spawning then Some(Unready)
    else if |s.pending| >= MAX_PENDING || s.queuedBytes + bytes > MAX_QUEUED_BYTES then Some(Overloaded)
    else None
  }

  function Admit(s: State, id: Id, bytes: nat): State
    requires s.child.Some?
  {
    s.(queuedBytes := s.queuedBytes + bytes, pending := s.pending + [Waiting(id, bytes)],
       queue := s.queue + [QueuedJob(id, s.child.value)])
  }

  function Request(s: State, id: Id, bytes: nat, luck: Luck): State {
    match Refusal(s, bytes)
    case Some(failure) => s.(settled := s.settled[id := Failed(failure)])
    case None => Drain(Admit(s, id, bytes), luck)
  }

  function Remember(late: seq<Id>, id: Id): seq<Id> {
    var grown := if id in late then late else late + [id];
    if |grown| > LATE_REPLY_RING then grown[1..] else grown
  }

  /** A request's timer fires. */
  function Expire(s: State, id: Id): State {
    Settle(if s.inFlight == Some(id) then s.(late := Remember(s.late, id)) else s, id, Failed(TimedOut))
  }

  /** Three protocol failures in a row kill the child; its exit is a later event. */
  function Struck(s: State): State {
    var streak := s.streak + 1;
    s.(streak := if streak >= STREAK_LIMIT && !s.shuttingDown && !s.breakerOpen && s.child.Some? then 0 else streak)
  }

  datatype Frame =
    | Garbage
    | Refused(id: Id)
    | Reply(id: Id, valid: bool)

  /** A reply to the frame in flight frees the pipe, whoever still waits for it. */
  function Land(s: State, id: Id): State {
    if s.inFlight == Some(id) then s.(inFlight := None) else s
  }

  function Receive(s: State, frame: Frame): State {
    match frame
    case Garbage => Struck(s)
    case Refused(id) => Settle(Land(s, id), id, ServerRefused).(streak := 0)
    case Reply(id, valid) =>
      var landed := Land(s, id);
      if !IsPending(s.pending, id) then
        if id in s.late then landed.(late := Forget(s.late, id)) else Struck(landed)
      else if !valid then Struck(Settle(landed, id, Failed(Protocol)))
      else Settle(landed.(streak := 0), id, Resolved)
  }

  function FailAll(s: State, ids: seq<Id>, failure: Failure): State
    decreases |ids|
  {
    if ids == [] then s else FailAll(Settle(s, ids[0], Failed(failure)), ids[1..], failure)
  }

  /** A failed restart attempt counts; too many open the breaker. */
  function CountRestart(s: State, maxRestarts: nat): State {
    if s.breakerOpen || s.shuttingDown then s
    else if s.restartAttempt + 1 > maxRestarts then s.(breakerOpen := true, restartAttempt := 0)
    else s.(restartAttempt := s.restartAttempt + 1)
  }

  /** The child's exit fails whatever waits, unless the spawner or the shutdown owns the clean-up. */
  function Exit(s: State, child: nat, maxRestarts: nat): State {
    if s.child != Some(child) then s
    else
      var down := s.(child := None, inFlight := None, ready := false);
      if s.shuttingDown || s.spawning then down
      else CountRestart(FailAll(down, IdsOf(s.pending), Crashed), maxRestarts)
  }

  function Shutdown(s: State): State {
    FailAll(s.(shuttingDown := true), IdsOf(s.pending), ShutDown).(ready := false, child := None)
  }

  // ------------------------------------------------------------------------- runs

  datatype Event =
    | RequestEvent(id: Id, bytes: nat, luck: Luck)
    | DrainEvent(luck: Luck)
    | ExpireEvent(id: Id)
    | FrameEvent(frame: Frame)
    | ExitEvent(child: nat)
    | SpawnEvent
    | GreetedEvent
    | SpawnFailedEvent
    | ShutdownEvent

  /** Request ids are never used twice; a timer lives as long as its request; frames come from the current child. */
  predicate Possible(s: State, e: Event) {
    match e
    case RequestEvent(id, _, _) => !IsPending(s.pending, id) && id !in s.settled
    case ExpireEvent(id) => IsPending(s.pending, id)
    case FrameEvent(_) => s.child.Some?
    case SpawnEvent => !s.shuttingDown && !s.spawning && s.child.None?
    case GreetedEvent => s.spawning && s.child.Some? && !s.shuttingDown
    case SpawnFailedEvent => s.spawning
    case ShutdownEvent => !s.shuttingDown
    case _ => true
  }

  function Step(maxRestarts: nat, s: State, e: Event): State {
    if !Possible(s, e) then s else
    match e
    case RequestEvent(id, bytes, luck) => Request(s, id, bytes, luck)
    case DrainEvent(luck) => Drain(s, luck)
    case ExpireEvent(id) => Expire(s, id)
    case FrameEvent(frame) => Receive(s, frame)
    case ExitEvent(child) => Exit(s, child, maxRestarts)
    case SpawnEvent => s.(spawning := true, child := Some(s.spawns), spawns := s.spawns + 1)
    case GreetedEvent =>
      s.(ready := true, spawning := false, restartAttempt := 0, streak := 0, late := [], breakerOpen := false)
    case SpawnFailedEvent => CountRestart(s.(spawning := false, child := None), maxRestarts)
    case ShutdownEvent => Shutdown(s)
  }

  ghost predicate Follows(maxRestarts: nat, s: State, e: Event, next: State) {
    forall f :: f == e ==> next == Step(maxRestarts, s, f)
  }

  ghost predicate Execution(maxRestarts: nat, states: seq<State>, events: seq<Event>) {
    && |states| == |events| + 1
    && forall i, j :: 0 <= i < |events| && j == i + 1 ==> Follows(maxRestarts, states[i], events[i], states[j])
  }
}
