/** The frames a child has been sent and has not answered, along a run. */
module RtkPipe {
  import opened Texts
  import opened RtkProtocol
  import opened RtkProof

  /** The frames the drain loop writes, one after another. */
  function DrainWrites(s: State, luck: Luck): seq<Id>
    decreases |s.queue|
  {
    if s.inFlight.Some? || s.queue == [] then []
    else
      var job, s1 := s.queue[0], s.(queue := s.queue[1..]);
      if !IsPending(s.pending, job.id) then DrainWrites(s1, luck)
      else if job.id in luck.expired then DrainWrites(Settle(s1, job.id, Failed(TimedOut)), luck)
      else if s.child != Some(job.child) || !s.ready || s.shuttingDown then DrainWrites(Settle(s1, job.id, Failed(Unready)), luck)
      else if luck.writeFails then []
      else [job.id]
  }

  function Written(s: State, e: Event): seq<Id> {
    match e
    case RequestEvent(id, bytes, luck) => if Refusal(s, bytes).None? then DrainWrites(Admit(s, id, bytes), luck) else []
    case DrainEvent(luck) => DrainWrites(s, luck)
    case _ => []
  }

  /** A frame from the child answers the frame of its id; a child that is gone answers nothing any more. */
  function Answered(s: State, e: Event, pipe: seq<Id>): seq<Id> {
    match e
    case FrameEvent(Refused(id)) => Forget(pipe, id)
    case FrameEvent(Reply(id, _)) => Forget(pipe, id)
    case ExitEvent(child) => if s.child == Some(child) then [] else pipe
    case SpawnEvent => []
    case SpawnFailedEvent => []
    case ShutdownEvent => []
    case _ => pipe
  }

  /** The frames written to the present child and not answered by it, after the first `n` events. */
  function Unanswered(states: seq<State>, events: seq<Event>, n: nat): seq<Id>
    requires n <= |events| <= |states|
  {
    if n == 0 then []
    else
      var s, e, pipe := states[n - 1], events[n - 1], Unanswered(states, events, n - 1);
      if !Possible(s, e) then pipe else Answered(s, e, pipe) + Written(s, e)
  }

  function OnTheWire(s: State): seq<Id> {
    if s.child.Some? && s.inFlight.Some? then [s.inFlight.value] else []
  }

  lemma {:induction false} WritesInFlight(s: State, luck: Luck)
    ensures s.inFlight.None? ==>
              DrainWrites(s, luck) == (if Drain(s, luck).inFlight.Some? then [Drain(s, luck).inFlight.value] else [])
    ensures s.inFlight.Some? ==> DrainWrites(s, luck) == []
    decreases |s.queue|
  {
    if s.inFlight.None? && s.queue != [] {
      var job, s1 := s.queue[0], s.(queue := s.queue[1..]);
      if !IsPending(s.pending, job.id) {
        WritesInFlight(s1, luck);
      } else if job.id in luck.expired {
        WritesInFlight(Settle(s1, job.id, Failed(TimedOut)), luck);
      } else if s.child != Some(job.child) || !s.ready || s.shuttingDown {
        WritesInFlight(Settle(s1, job.id, Failed(Unready)), luck);
      }
    }
  }

  /** Draining adds to the wire exactly what it writes. */
  lemma {:induction false} DrainWire(s: State, luck: Luck)
    requires s.child.Some? || s.queue == []
    ensures OnTheWire(Drain(s, luck)) == OnTheWire(s) + DrainWrites(s, luck)
  {
    WritesInFlight(s, luck);
    DrainRest(s, luck);
  }

  lemma SettledWire(s: State, id: Id, outcome: Outcome)
    ensures OnTheWire(Settle(s, id, outcome)) == OnTheWire(s)
  {
  }

  lemma LandedWire(s: State, id: Id)
    ensures OnTheWire(Land(s, id)) == Forget(OnTheWire(s), id)
  {
    if s.child.Some? && s.inFlight.Some? {
      assert [s.inFlight.value][1..] == [];
    }
  }

  lemma ReplyWire(s: State, id: Id, valid: bool)
    ensures OnTheWire(Receive(s, Reply(id, valid))) == OnTheWire(Land(s, id))
  {
    SettledWire(Land(s, id), id, Failed(Protocol));
    SettledWire(Land(s, id).(streak := 0), id, Resolved);
  }

  lemma FrameWire(s: State, frame: Frame)
    ensures OnTheWire(Receive(s, frame)) == Answered(s, FrameEvent(frame), OnTheWire(s))
  {
    match frame
    case Garbage =>
    case Refused(id) =>
      LandedWire(s, id);
      SettledWire(Land(s, id), id, ServerRefused);
    case Reply(id, valid) =>
      LandedWire(s, id);
      ReplyWire(s, id, valid);
  }

  lemma {:induction false} StepWire(maxRestarts: nat, s: State, e: Event)
    requires Valid(s) && Possible(s, e)
    ensures OnTheWire(Step(maxRestarts, s, e)) == Answered(s, e, OnTheWire(s)) + Written(s, e)
  {
    match e
    case RequestEvent(id, bytes, luck) =>
      if Refusal(s, bytes).None? {
        DrainWire(Admit(s, id, bytes), luck);
        assert OnTheWire(Admit(s, id, bytes)) == OnTheWire(s);
      }
    case DrainEvent(luck) =>
      NoQueue(s);
      DrainWire(s, luck);
    case ExpireEvent(id) => SettledWire(if s.inFlight == Some(id) then s.(late := Remember(s.late, id)) else s, id, Failed(TimedOut));
    case FrameEvent(frame) => FrameWire(s, frame);
    case ExitEvent(child) => FailAllRest(s.(child := None, inFlight := None, ready := false), IdsOf(s.pending), Crashed);
    case SpawnEvent =>
    case GreetedEvent =>
    case SpawnFailedEvent =>
    case ShutdownEvent => FailAllRest(s.(shuttingDown := true), IdsOf(s.pending), ShutDown);
  }

  lemma FollowsWire(maxRestarts: nat, s: State, e: Event, next: State, pipe: seq<Id>)
    requires Valid(s) && Follows(maxRestarts, s, e, next) && pipe == OnTheWire(s)
    ensures OnTheWire(next) == if !Possible(s, e) then pipe else Answered(s, e, pipe) + Written(s, e)
  {
    assert next == Step(maxRestarts, s, e);
    if Possible(s, e) {
      StepWire(maxRestarts, s, e);
    }
  }

  /** In every run at most one frame is unanswered, and it is the one the client holds to be in flight. */
  lemma {:induction false} OneUnanswered(maxRestarts: nat, states: seq<State>, events: seq<Event>, n: nat)
    requires Execution(maxRestarts, states, events) && states[0] == INITIAL && n <= |events|
    ensures Unanswered(states, events, n) == OnTheWire(states[n]) && |Unanswered(states, events, n)| <= 1
  {
    if n > 0 {
      InitialValid();
      ExecutionValid(maxRestarts, states, events, n - 1);
      OneUnanswered(maxRestarts, states, events, n - 1);
      FollowsWire(maxRestarts, states[n - 1], events[n - 1], states[n], Unanswered(states, events, n - 1));
    }
  }
}
