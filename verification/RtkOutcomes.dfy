/** How each request of the client ends, and which event decides it. */
module RtkOutcomes {
  import opened Texts
  import opened RtkProtocol
  import opened RtkProof

  /** A queued request that the drain does not write: it is too old, or its child is not the ready one any more. */
  ghost predicate Passed(s: State, luck: Luck, job: QueuedJob) {
    job.id in luck.expired || s.child != Some(job.child) || !s.ready || s.shuttingDown
  }

  /** The drain comes to place `i` of the queue. */
  ghost predicate Reached(s: State, luck: Luck, i: nat)
    requires i <= |s.queue|
  {
    s.inFlight.None? && forall j :: 0 <= j < i ==> Passed(s, luck, s.queue[j])
  }

  /** What becomes of a request that the drain comes to; no outcome means that it is written. */
  ghost predicate Judged(s: State, luck: Luck, job: QueuedJob, outcome: Option<Outcome>) {
    if job.id in luck.expired then outcome == Some(Failed(TimedOut))
    else if s.child == Some(job.child) && s.ready && !s.shuttingDown then
      outcome == if luck.writeFails then Some(Failed(Crashed)) else None
    else outcome == Some(Failed(Unready))
  }

  ghost predicate DrainJudges(s: State, luck: Luck, id: Id, outcome: Option<Outcome>) {
    exists i :: 0 <= i < |s.queue| && s.queue[i].id == id && Reached(s, luck, i) && Judged(s, luck, s.queue[i], outcome)
  }

  /** Settled now with this outcome, and not before. */
  ghost predicate Newly(s: State, next: State, id: Id, outcome: Outcome) {
    id !in s.settled && id in next.settled && next.settled[id] == outcome
  }

  // -------------------------------------------------------------------- draining

  lemma {:induction false} NotUnqueued(queue: seq<QueuedJob>, id: Id)
    ensures !IsQueued(queue, id) ==> Unqueue(queue, id) == queue
  {
    if queue != [] && !IsQueued(queue, id) {
      assert queue == [queue[0]] + queue[1..];
      ConsQueued(queue[0], queue[1..]);
      NotUnqueued(queue[1..], id);
    }
  }

  /** What comes behind the first job of the queue, once that one is passed over. */
  lemma {:induction false} PassedOver(s: State, next: State, luck: Luck, id: Id, outcome: Option<Outcome>)
    requires s.queue != [] && next.queue == s.queue[1..] && DistinctQueue(s.queue) && id != s.queue[0].id
    requires s.inFlight.None? && next.inFlight.None? && SameChild(s, next) && Passed(s, luck, s.queue[0])
    ensures DrainJudges(s, luck, id, outcome) <==> DrainJudges(next, luck, id, outcome)
  {
    if DrainJudges(s, luck, id, outcome) {
      var i :| 0 <= i < |s.queue| && s.queue[i].id == id && Reached(s, luck, i) && Judged(s, luck, s.queue[i], outcome);
      assert next.queue[i - 1] == s.queue[i];
      assert forall j :: 0 <= j < i - 1 ==> next.queue[j] == s.queue[j + 1];
      assert Reached(next, luck, i - 1);
    }
    if DrainJudges(next, luck, id, outcome) {
      var i :| 0 <= i < |next.queue| && next.queue[i].id == id && Reached(next, luck, i) && Judged(next, luck, next.queue[i], outcome);
      assert s.queue[i + 1] == next.queue[i];
      assert forall j :: 0 < j < i + 1 ==> s.queue[j] == next.queue[j - 1];
      assert Reached(s, luck, i + 1);
    }
  }

  /** The first job of the queue is judged by itself. */
  lemma FirstJudged(s: State, luck: Luck, outcome: Option<Outcome>)
    requires s.queue != [] && s.inFlight.None? && DistinctQueue(s.queue)
    ensures DrainJudges(s, luck, s.queue[0].id, outcome) <==> Judged(s, luck, s.queue[0], outcome)
  {
    assert Reached(s, luck, 0);
  }

  /** Behind a job that is not passed over nothing is judged. */
  lemma LastJudged(s: State, luck: Luck, id: Id, outcome: Option<Outcome>)
    requires s.queue != [] && s.inFlight.None? && !Passed(s, luck, s.queue[0]) && id != s.queue[0].id
    ensures !DrainJudges(s, luck, id, outcome)
  {
  }

  /** Draining settles or writes the requests it comes to, each as its turn finds it, and no other. */
  lemma {:induction false} DrainSettles(s: State, luck: Luck, id: Id, outcome: Outcome)
    requires Core(s, None)
    ensures Newly(s, Drain(s, luck), id, outcome) <==> DrainJudges(s, luck, id, Some(outcome))
    ensures s.inFlight.None? ==> (Drain(s, luck).inFlight == Some(id) <==> DrainJudges(s, luck, id, None))
    decreases |s.queue|
  {
    if s.inFlight.None? && s.queue != [] {
      var job, s1 := s.queue[0], s.(queue := s.queue[1..]);
      Shifted(s);
      FirstJudged(s, luck, Some(outcome));
      FirstJudged(s, luck, None);
      NotUnqueued(s1.queue, job.id);
      if job.id in luck.expired {
        PassedSettles(s, s1, Failed(TimedOut), luck, id, outcome);
      } else if s.child != Some(job.child) || !s.ready || s.shuttingDown {
        PassedSettles(s, s1, Failed(Unready), luck, id, outcome);
      } else if id != job.id {
        LastJudged(s, luck, id, Some(outcome));
        LastJudged(s, luck, id, None);
      }
    }
  }

  lemma {:induction false} PassedSettles(s: State, s1: State, how: Outcome, luck: Luck, id: Id, outcome: Outcome)
    requires Core(s, None) && s.inFlight.None? && s.queue != [] && s1 == s.(queue := s.queue[1..])
    requires Passed(s, luck, s.queue[0]) && Judged(s, luck, s.queue[0], Some(how))
    ensures var next := Drain(Settle(s1, s.queue[0].id, how), luck);
            && (Newly(s, next, id, outcome) <==> DrainJudges(s, luck, id, Some(outcome)))
            && (next.inFlight == Some(id) <==> DrainJudges(s, luck, id, None))
    decreases |s.queue|, 0
  {
    var job := s.queue[0];
    Shifted(s);
    NotUnqueued(s1.queue, job.id);
    SettleCore(s1, job.id, how);
    SettleKeeps(s1, job.id, how);
    var settled := Settle(s1, job.id, how);
    DrainSettles(settled, luck, id, outcome);
    DrainCoreKeeps(settled, luck);
    FirstJudged(s, luck, Some(outcome));
    FirstJudged(s, luck, None);
    if id == job.id {
      NotQueuedNotJudged(settled, luck, id);
    } else {
      PassedOver(s, settled, luck, id, Some(outcome));
      PassedOver(s, settled, luck, id, None);
    }
  }

  lemma NotQueuedNotJudged(s: State, luck: Luck, id: Id)
    requires !IsQueued(s.queue, id)
    ensures forall outcome :: !DrainJudges(s, luck, id, outcome)
  {
  }

  lemma DrainCoreKeeps(s: State, luck: Luck)
    requires Core(s, None) && s.inFlight.None?
    ensures Keeps(s, Drain(s, luck))
  {
    DrainCore(s, luck);
  }

  // -------------------------------------------------------------------- every event

  ghost predicate Waits(s: State, id: Id) {
    exists i :: 0 <= i < |s.pending| && s.pending[i].id == id
  }

  /** A request that a new one joins at the end of the queue. */
  ghost predicate Joins(s: State, id: Id, bytes: nat, joined: State) {
    && s.child.Some? && joined.queue == s.queue + [QueuedJob(id, s.child.value)]
    && joined.inFlight == s.inFlight && SameChild(s, joined)
  }

  /** The client takes a request: it is up, and 32 requests and 8 MiB are not exceeded. */
  ghost predicate Takes(s: State, bytes: nat) {
    && !s.shuttingDown && s.ready && s.child.Some? && !s.breakerOpen && !s.spawning
    && |s.pending| < 32 && s.queuedBytes + bytes <= 8388608
  }

  /** Event `e` gives request `id` this outcome. */
  ghost predicate Decides(s: State, e: Event, id: Id, outcome: Outcome) {
    match e
    case FrameEvent(Reply(named, valid)) => named == id && Waits(s, id) && outcome == if valid then Resolved else Failed(Protocol)
    case FrameEvent(Refused(named)) => named == id && Waits(s, id) && outcome == ServerRefused
    case ExpireEvent(named) => named == id && Waits(s, id) && outcome == Failed(TimedOut)
    case ExitEvent(child) =>
      s.child == Some(child) && !s.shuttingDown && !s.spawning && Waits(s, id) && outcome == Failed(Crashed)
    case ShutdownEvent => Waits(s, id) && outcome == Failed(ShutDown)
    case DrainEvent(luck) => DrainJudges(s, luck, id, Some(outcome))
    case RequestEvent(named, bytes, luck) =>
      if Takes(s, bytes) then exists joined :: Joins(s, named, bytes, joined) && DrainJudges(joined, luck, id, Some(outcome))
      else
        && named == id
        && outcome == Failed(if s.shuttingDown then ShutDown
                             else if !s.ready || s.child.None? || s.breakerOpen || s.spawning then Unready
                             else Overloaded)
    case _ => false
  }

  lemma {:induction false} FailAllSettles(s: State, exempt: Option<Id>, ids: seq<Id>, failure: Failure, id: Id, outcome: Outcome)
    requires Core(s, exempt)
    ensures Newly(s, FailAll(s, ids, failure), id, outcome) <==> Waits(s, id) && id in ids && outcome == Failed(failure)
    decreases |ids|
  {
    if ids != [] {
      var next := Settle(s, ids[0], Failed(failure));
      var left := SettleAny(s, exempt, ids[0], Failed(failure));
      SettleOne(s, exempt, ids[0], Failed(failure), id);
      FailAllSettles(next, left, ids[1..], failure, id, outcome);
      FailAllKeeps(next, left, ids[1..], failure);
      assert ids == [ids[0]] + ids[1..];
    }
  }

  lemma {:induction false} FailAllKeeps(s: State, exempt: Option<Id>, ids: seq<Id>, failure: Failure)
    requires Core(s, exempt)
    ensures Keeps(s, FailAll(s, ids, failure))
    decreases |ids|
  {
    if ids != [] {
      var next := Settle(s, ids[0], Failed(failure));
      var left := SettleAny(s, exempt, ids[0], Failed(failure));
      FailAllKeeps(next, left, ids[1..], failure);
      KeepsOn(s, next, FailAll(s, ids, failure));
    }
  }

  /** Settling one request settles it if it waits, and changes nothing about any other. */
  lemma SettleOne(s: State, exempt: Option<Id>, named: Id, how: Outcome, id: Id)
    requires Core(s, exempt)
    ensures var next := Settle(s, named, how);
            && next.settled == (if Waits(s, named) then s.settled[named := how] else s.settled)
            && (Waits(next, id) <==> Waits(s, id) && id != named)
  {
    if IsPending(s.pending, named) {
      WithoutIs(s.pending, named);
      assert IsPending(Without(s.pending, named), id) <==> IsPending(s.pending, id) && id != named;
    }
  }

  lemma SettledNewly(s: State, named: Id, how: Outcome, id: Id, outcome: Outcome)
    requires Settled(s)
    ensures Newly(s, Settle(s, named, how), id, outcome) <==> id == named && Waits(s, id) && outcome == how
  {
  }

  lemma FrameDecides(s: State, frame: Frame, id: Id, outcome: Outcome)
    requires Valid(s)
    ensures Newly(s, Receive(s, frame), id, outcome) <==> Decides(s, FrameEvent(frame), id, outcome)
  {
    match frame
    case Garbage =>
    case Refused(named) => SettledNewly(Land(s, named), named, ServerRefused, id, outcome);
    case Reply(named, valid) => ReplyDecides(s, named, valid, id, outcome);
  }

  lemma ReplyDecides(s: State, named: Id, valid: bool, id: Id, outcome: Outcome)
    requires Valid(s)
    ensures Newly(s, Receive(s, Reply(named, valid)), id, outcome) <==> Decides(s, FrameEvent(Reply(named, valid)), id, outcome)
  {
    ReplySettles(s, named, valid);
    assert IsPending(s.pending, named) <==> Waits(s, named);
  }

  /** What a frame says of a request that waits is its outcome; it decides nothing else. */
  lemma FrameOutcome(s: State, frame: Frame)
    ensures !frame.Garbage? && IsPending(s.pending, frame.id) ==>
              Receive(s, frame).settled ==
              s.settled[frame.id := match frame case Refused(_) => ServerRefused
                                                case Reply(_, valid) => if valid then Resolved else Failed(Protocol)]
    ensures frame.Garbage? || !IsPending(s.pending, frame.id) ==> Receive(s, frame).settled == s.settled
  {
    if frame.Reply? {
      ReplySettles(s, frame.id, frame.valid);
    }
  }

  lemma ReplySettles(s: State, named: Id, valid: bool)
    ensures Receive(s, Reply(named, valid)).settled ==
            if IsPending(s.pending, named) then s.settled[named := if valid then Resolved else Failed(Protocol)] else s.settled
  {
    var landed := Land(s, named);
    assert landed.pending == s.pending && landed.settled == s.settled;
    if IsPending(s.pending, named) {
      if valid {
        assert Settle(landed.(streak := 0), named, Resolved).settled == s.settled[named := Resolved];
      } else {
        assert Settle(landed, named, Failed(Protocol)).settled == s.settled[named := Failed(Protocol)];
      }
    }
  }

  lemma RequestDecides(s: State, named: Id, bytes: nat, luck: Luck, id: Id, outcome: Outcome)
    requires Valid(s) && !IsPending(s.pending, named) && named !in s.settled
    ensures Newly(s, Request(s, named, bytes, luck), id, outcome) <==> Decides(s, RequestEvent(named, bytes, luck), id, outcome)
  {
    if Takes(s, bytes) {
      var joined := Admit(s, named, bytes);
      AdmitCore(s, named, bytes);
      DrainSettles(joined, luck, id, outcome);
      assert Joins(s, named, bytes, joined);
      forall other | Joins(s, named, bytes, other)
        ensures DrainJudges(other, luck, id, Some(outcome)) <==> DrainJudges(joined, luck, id, Some(outcome))
      {
        JoinedAlike(joined, other, luck, id, Some(outcome));
      }
    }
  }

  /** Judging looks at the queue and the child alone. */
  lemma JoinedAlike(s: State, t: State, luck: Luck, id: Id, outcome: Option<Outcome>)
    requires s.queue == t.queue && s.inFlight == t.inFlight && SameChild(s, t)
    ensures DrainJudges(s, luck, id, outcome) <==> DrainJudges(t, luck, id, outcome)
  {
    forall i | 0 <= i < |s.queue|
      ensures Reached(s, luck, i) <==> Reached(t, luck, i)
      ensures Judged(s, luck, s.queue[i], outcome) <==> Judged(t, luck, t.queue[i], outcome)
    {
      assert forall j :: 0 <= j < i ==> (Passed(s, luck, s.queue[j]) <==> Passed(t, luck, t.queue[j]));
    }
  }

  /** A request gets an outcome in a step exactly when the event of that step decides it so. */
  lemma {:induction false} DecidedExactly(maxRestarts: nat, s: State, e: Event, id: Id, outcome: Outcome)
    requires Valid(s) && Possible(s, e)
    ensures Newly(s, Step(maxRestarts, s, e), id, outcome) <==> Decides(s, e, id, outcome)
  {
    match e
    case RequestEvent(named, bytes, luck) => RequestDecides(s, named, bytes, luck, id, outcome);
    case DrainEvent(luck) => DrainSettles(s, luck, id, outcome);
    case ExpireEvent(named) =>
      assert Waits(s, named);
    case FrameEvent(frame) => FrameDecides(s, frame, id, outcome);
    case ExitEvent(child) =>
      IdsListed(s.pending);
      DownCore(s);
      FailAllSettles(s.(child := None, inFlight := None, ready := false), s.inFlight, IdsOf(s.pending), Crashed, id, outcome);
    case SpawnEvent =>
    case GreetedEvent =>
    case SpawnFailedEvent =>
    case ShutdownEvent =>
      IdsListed(s.pending);
      FailAllSettles(s.(shuttingDown := true), None, IdsOf(s.pending), ShutDown, id, outcome);
  }

  ghost predicate Decided(s: State, e: Event, next: State) {
    forall id, outcome :: Newly(s, next, id, outcome) <==> Decides(s, e, id, outcome)
  }

  lemma StepDecided(maxRestarts: nat, s: State, e: Event)
    requires Valid(s) && Possible(s, e)
    ensures Decided(s, e, Step(maxRestarts, s, e))
  {
    forall id, outcome
      ensures Newly(s, Step(maxRestarts, s, e), id, outcome) <==> Decides(s, e, id, outcome)
    {
      DecidedExactly(maxRestarts, s, e, id, outcome);
    }
  }

  // -------------------------------------------------------------------- who waits

  /** The event is a new request that the client takes. */
  ghost predicate Asks(s: State, e: Event, id: Id) {
    e.RequestEvent? && e.id == id && Takes(s, e.bytes)
  }

  lemma {:induction false} WithoutShrinks(pending: seq<Waiting>, named: Id, id: Id)
    requires IsPending(Without(pending, named), id)
    ensures IsPending(pending, id)
  {
    assert pending == [pending[0]] + pending[1..];
    ConsPending(pending[0], pending[1..]);
    if pending[0].id != named {
      ConsPending(pending[0], Without(pending[1..], named));
      if pending[0].id != id {
        WithoutShrinks(pending[1..], named, id);
      }
    }
  }

  lemma SettleShrinks(s: State, named: Id, how: Outcome, id: Id)
    requires IsPending(Settle(s, named, how).pending, id)
    ensures IsPending(s.pending, id)
  {
    if IsPending(s.pending, named) {
      WithoutShrinks(s.pending, named, id);
    }
  }

  lemma {:induction false} DrainShrinks(s: State, luck: Luck, id: Id)
    requires IsPending(Drain(s, luck).pending, id)
    ensures IsPending(s.pending, id)
    decreases |s.queue|
  {
    if s.inFlight.None? && s.queue != [] {
      var job, s1 := s.queue[0], s.(queue := s.queue[1..]);
      if !IsPending(s.pending, job.id) {
        DrainShrinks(s1, luck, id);
      } else if job.id in luck.expired {
        DrainShrinks(Settle(s1, job.id, Failed(TimedOut)), luck, id);
        SettleShrinks(s1, job.id, Failed(TimedOut), id);
      } else if s.child != Some(job.child) || !s.ready || s.shuttingDown {
        DrainShrinks(Settle(s1, job.id, Failed(Unready)), luck, id);
        SettleShrinks(s1, job.id, Failed(Unready), id);
      } else if luck.writeFails {
        SettleShrinks(s1, job.id, Failed(Crashed), id);
      }
    }
  }

  lemma {:induction false} FailAllShrinks(s: State, ids: seq<Id>, failure: Failure, id: Id)
    requires IsPending(FailAll(s, ids, failure).pending, id)
    ensures IsPending(s.pending, id)
    decreases |ids|
  {
    if ids != [] {
      FailAllShrinks(Settle(s, ids[0], Failed(failure)), ids[1..], failure, id);
      SettleShrinks(s, ids[0], Failed(failure), id);
    }
  }

  lemma ReplyShrinks(s: State, named: Id, valid: bool, id: Id)
    requires IsPending(Receive(s, Reply(named, valid)).pending, id)
    ensures IsPending(s.pending, id)
  {
    var landed := Land(s, named);
    assert landed.pending == s.pending;
    if IsPending(s.pending, named) {
      if valid {
        SettleShrinks(landed.(streak := 0), named, Resolved, id);
      } else {
        SettleShrinks(landed, named, Failed(Protocol), id);
      }
    }
  }

  lemma {:induction false} StepShrinks(maxRestarts: nat, s: State, e: Event, id: Id)
    requires Possible(s, e) && IsPending(Step(maxRestarts, s, e).pending, id)
    ensures IsPending(s.pending, id) || Asks(s, e, id)
  {
    match e
    case RequestEvent(named, bytes, luck) =>
      if Takes(s, bytes) {
        PushPending(s.pending, Waiting(named, bytes));
        DrainShrinks(Admit(s, named, bytes), luck, id);
      }
    case DrainEvent(luck) => DrainShrinks(s, luck, id);
    case ExpireEvent(named) =>
      SettleShrinks(if s.inFlight == Some(named) then s.(late := Remember(s.late, named)) else s, named, Failed(TimedOut), id);
    case FrameEvent(Garbage) =>
    case FrameEvent(Refused(named)) => SettleShrinks(Land(s, named), named, ServerRefused, id);
    case FrameEvent(Reply(named, valid)) => ReplyShrinks(s, named, valid, id);
    case ExitEvent(child) =>
      if s.child == Some(child) && !s.shuttingDown && !s.spawning {
        FailAllShrinks(s.(child := None, inFlight := None, ready := false), IdsOf(s.pending), Crashed, id);
      }
    case SpawnEvent =>
    case GreetedEvent =>
    case SpawnFailedEvent =>
    case ShutdownEvent => FailAllShrinks(s.(shuttingDown := true), IdsOf(s.pending), ShutDown, id);
  }

  /** A request that the client takes waits from then on, or is settled within the same step. */
  lemma {:induction false} AskedWaits(maxRestarts: nat, s: State, e: Event, id: Id)
    requires Valid(s) && Possible(s, e) && Asks(s, e, id)
    ensures var next := Step(maxRestarts, s, e); Waits(next, id) || id in next.settled
  {
    var joined := Admit(s, id, e.bytes);
    AdmitCore(s, id, e.bytes);
    PushPending(s.pending, Waiting(id, e.bytes));
    DrainCore(joined, e.luck);
    assert IsPending(joined.pending, id);
  }

  /** Who waits after a step: those who waited before or were taken now, and are not settled. */
  lemma WaitsExactly(maxRestarts: nat, s: State, e: Event, id: Id)
    requires Valid(s) && Possible(s, e)
    ensures var next := Step(maxRestarts, s, e);
            Waits(next, id) <==> (Waits(s, id) || Asks(s, e, id)) && id !in next.settled
  {
    var next := Step(maxRestarts, s, e);
    StepValid(maxRestarts, s, e);
    assert Waits(next, id) <==> IsPending(next.pending, id);
    assert Waits(s, id) <==> IsPending(s.pending, id);
    if Waits(next, id) {
      StepShrinks(maxRestarts, s, e, id);
    }
    if Asks(s, e, id) {
      AskedWaits(maxRestarts, s, e, id);
    }
  }

  // --------------------------------------------------------------------- every run

  /** Some event of the first `n` decided the request so. */
  ghost predicate Happened(states: seq<State>, events: seq<Event>, n: nat, id: Id, outcome: Outcome)
    requires n <= |events| < |states|
  {
    exists i :: 0 <= i < n && Possible(states[i], events[i]) && Decides(states[i], events[i], id, outcome)
  }

  ghost predicate Taken(states: seq<State>, events: seq<Event>, n: nat, id: Id)
    requires n <= |events| < |states|
  {
    exists i :: 0 <= i < n && Possible(states[i], events[i]) && Asks(states[i], events[i], id)
  }

  lemma FollowsDecided(maxRestarts: nat, s: State, e: Event, next: State, id: Id, outcome: Outcome)
    requires Valid(s) && Follows(maxRestarts, s, e, next)
    ensures Newly(s, next, id, outcome) <==> Possible(s, e) && Decides(s, e, id, outcome)
    ensures Waits(next, id) <==> (Waits(s, id) || (Possible(s, e) && Asks(s, e, id))) && id !in next.settled
  {
    assert next == Step(maxRestarts, s, e);
    if Possible(s, e) {
      DecidedExactly(maxRestarts, s, e, id, outcome);
      WaitsExactly(maxRestarts, s, e, id);
    } else {
      assert Waits(s, id) <==> IsPending(s.pending, id);
    }
  }

  /**
   * In every reachable state a request has an outcome exactly when an event decided it so: it is resolved
   * exactly when a valid reply that names it came while it waited, refused by the server exactly when a
   * refusal did, and so on for each way to fail. It waits exactly when it was taken and nothing has decided it.
   */
  lemma {:induction false} OutcomesExactly(maxRestarts: nat, states: seq<State>, events: seq<Event>, n: nat, id: Id, outcome: Outcome)
    requires Execution(maxRestarts, states, events) && states[0] == INITIAL && n <= |events|
    ensures id in states[n].settled && states[n].settled[id] == outcome <==> Happened(states, events, n, id, outcome)
    ensures Waits(states[n], id) <==> Taken(states, events, n, id) && id !in states[n].settled
  {
    if n > 0 {
      OutcomesExactly(maxRestarts, states, events, n - 1, id, outcome);
      InitialValid();
      ExecutionValid(maxRestarts, states, events, n - 1);
      FollowsValid(maxRestarts, states[n - 1], events[n - 1], states[n]);
      FollowsDecided(maxRestarts, states[n - 1], events[n - 1], states[n], id, outcome);
    }
  }

  /** The case of success, with the events named. */
  lemma ResolvedExactly(maxRestarts: nat, states: seq<State>, events: seq<Event>, n: nat, id: Id)
    requires Execution(maxRestarts, states, events) && states[0] == INITIAL && n <= |events|
    ensures id in states[n].settled && states[n].settled[id] == Resolved <==>
            exists i :: 0 <= i < n && events[i] == FrameEvent(Reply(id, true)) && Waits(states[i], id)
  {
    OutcomesExactly(maxRestarts, states, events, n, id, Resolved);
    forall i | 0 <= i < n && Waits(states[i], id)
      ensures states[i].child.Some?
    {
      InitialValid();
      ExecutionValid(maxRestarts, states, events, i);
    }
  }

  // ------------------------------------------------------------------- restarting

  /** A greeted child, or an attempt to start one, is lost. */
  ghost predicate Lost(s: State, e: Event) {
    !s.shuttingDown && ((e.ExitEvent? && s.child == Some(e.child) && !s.spawning) || (e.SpawnFailedEvent? && s.spawning))
  }

  /** How many were lost since the last greeting. */
  ghost function Losses(states: seq<State>, events: seq<Event>, n: nat): nat
    requires n <= |events| < |states|
  {
    if n == 0 then 0
    else if Possible(states[n - 1], events[n - 1]) && events[n - 1].GreetedEvent? then 0
    else Losses(states, events, n - 1) + if Lost(states[n - 1], events[n - 1]) then 1 else 0
  }

  ghost predicate RestartsUnmoved(s: State, next: State) {
    next.breakerOpen == s.breakerOpen && next.restartAttempt == s.restartAttempt
  }

  lemma {:induction false} DrainRestarts(s: State, luck: Luck)
    ensures RestartsUnmoved(s, Drain(s, luck))
    decreases |s.queue|
  {
    if s.inFlight.None? && s.queue != [] {
      var job, s1 := s.queue[0], s.(queue := s.queue[1..]);
      if !IsPending(s.pending, job.id) {
        DrainRestarts(s1, luck);
      } else if job.id in luck.expired {
        DrainRestarts(Settle(s1, job.id, Failed(TimedOut)), luck);
      } else if s.child != Some(job.child) || !s.ready || s.shuttingDown {
        DrainRestarts(Settle(s1, job.id, Failed(Unready)), luck);
      }
    }
  }

  lemma {:induction false} FailAllRestarts(s: State, ids: seq<Id>, failure: Failure)
    ensures RestartsUnmoved(s, FailAll(s, ids, failure)) && FailAll(s, ids, failure).shuttingDown == s.shuttingDown
    decreases |ids|
  {
    if ids != [] {
      FailAllRestarts(Settle(s, ids[0], Failed(failure)), ids[1..], failure);
    }
  }

  lemma {:induction false} StepRestarts(maxRestarts: nat, s: State, e: Event, losses: nat)
    requires Valid(s) && Possible(s, e)
    requires s.breakerOpen <==> losses > maxRestarts
    requires s.restartAttempt == if losses > maxRestarts then 0 else losses
    ensures var next, now := Step(maxRestarts, s, e), if e.GreetedEvent? then 0 else losses + if Lost(s, e) then 1 else 0;
            (next.breakerOpen <==> now > maxRestarts) && next.restartAttempt == if now > maxRestarts then 0 else now
  {
    match e
    case RequestEvent(id, bytes, luck) =>
      if Refusal(s, bytes).None? {
        DrainRestarts(Admit(s, id, bytes), luck);
      }
    case DrainEvent(luck) => DrainRestarts(s, luck);
    case ExpireEvent(id) =>
    case FrameEvent(frame) =>
    case ExitEvent(child) => FailAllRestarts(s.(child := None, inFlight := None, ready := false), IdsOf(s.pending), Crashed);
    case SpawnEvent =>
    case GreetedEvent =>
    case SpawnFailedEvent =>
    case ShutdownEvent => FailAllRestarts(s.(shuttingDown := true), IdsOf(s.pending), ShutDown);
  }

  lemma FollowsRestarts(maxRestarts: nat, s: State, e: Event, next: State, losses: nat)
    requires Valid(s) && Follows(maxRestarts, s, e, next)
    requires s.breakerOpen <==> losses > maxRestarts
    requires s.restartAttempt == if losses > maxRestarts then 0 else losses
    ensures var now := if Possible(s, e) && e.GreetedEvent? then 0 else losses + if Lost(s, e) then 1 else 0;
            (next.breakerOpen <==> now > maxRestarts) && next.restartAttempt == if now > maxRestarts then 0 else now
  {
    assert next == Step(maxRestarts, s, e);
    if Possible(s, e) {
      StepRestarts(maxRestarts, s, e, losses);
    }
  }

  /** The breaker is open exactly when more than `maxRestarts` children or attempts were lost since the last greeting. */
  lemma {:induction false} BreakerExactly(maxRestarts: nat, states: seq<State>, events: seq<Event>, n: nat)
    requires Execution(maxRestarts, states, events) && states[0] == INITIAL && n <= |events|
    ensures states[n].breakerOpen <==> Losses(states, events, n) > maxRestarts
    ensures states[n].restartAttempt == if Losses(states, events, n) > maxRestarts then 0 else Losses(states, events, n)
  {
    if n > 0 {
      BreakerExactly(maxRestarts, states, events, n - 1);
      InitialValid();
      ExecutionValid(maxRestarts, states, events, n - 1);
      FollowsRestarts(maxRestarts, states[n - 1], events[n - 1], states[n], Losses(states, events, n - 1));
    }
  }
}
