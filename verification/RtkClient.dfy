/** The client's mutable form: each method changes its fields as the protocol says. */
module RtkClients {
  import opened Texts
  import opened RtkProtocol
  import opened RtkProof
  import opened RtkOutcomes

  class RtkClient {
    const maxRestarts: nat
    var child: Option<nat>
    var spawns: nat
    var ready: bool
    var spawning: bool
    var breakerOpen: bool
    var shuttingDown: bool
    var restartAttempt: nat
    var streak: nat
    var late: seq<Id>
    var pending: seq<Waiting>
    var queuedBytes: int
    var queue: seq<QueuedJob>
    var inFlight: Option<Id>
    var settled: map<Id, Outcome>

    function View(): State
      reads this
    {
      State(child, spawns, ready, spawning, breakerOpen, shuttingDown, restartAttempt, streak, late, pending, queuedBytes,
            queue, inFlight, settled)
    }

    constructor (maxRestarts: nat)
      ensures View() == INITIAL && Valid(View()) && this.maxRestarts == maxRestarts
    {
      this.maxRestarts := maxRestarts;
      child, spawns, ready, spawning, breakerOpen, shuttingDown := None, 0, false, false, false, false;
      restartAttempt, streak, late, pending, queuedBytes, queue, inFlight, settled := 0, 0, [], [], 0, [], None, map[];
      new;
      InitialValid();
    }

    /** The closure behind both `resolve` and `reject` of a pending request. */
    method SettleRequest(id: Id, outcome: Outcome)
      modifies this
      ensures View() == Settle(old(View()), id, outcome)
      ensures old(Core(View(), Some(id))) ==>
                && Core(View(), None) && !IsPending(pending, id) && Keeps(old(View()), View())
                && (old(IsPending(pending, id)) ==> settled == old(settled)[id := outcome] && |pending| < old(|pending|))
    {
      if Core(View(), Some(id)) {
        SettleKeeps(View(), id, outcome);
        SettleCore(View(), id, outcome);
        if IsPending(pending, id) {
          WithoutIs(pending, id);
        }
      }
      if !IsPending(pending, id) {
        return;
      }
      queuedBytes := queuedBytes - BytesOf(pending, id);
      pending := Without(pending, id);
      queue := Unqueue(queue, id);
      settled := settled[id := outcome];
    }

    method DrainQueue(luck: Luck)
      modifies this
      ensures View() == Drain(old(View()), luck)
    {
      if inFlight.Some? {
        return;
      }
      while queue != []
        invariant inFlight.None? && Drain(View(), luck) == Drain(old(View()), luck)
        decreases |queue|
      {
        var job := queue[0];
        queue := queue[1..];
        if !IsPending(pending, job.id) {
          continue;
        }
        if job.id in luck.expired {
          SettleRequest(job.id, Failed(TimedOut));
          continue;
        }
        if child != Some(job.child) || !ready || shuttingDown {
          SettleRequest(job.id, Failed(Unready));
          continue;
        }
        if luck.writeFails {
          SettleRequest(job.id, Failed(Crashed));
        } else {
          inFlight := Some(job.id);
        }
        return;
      }
    }

    /** `request`, for a fresh id and a frame of so many bytes. */
    method SendRequest(id: Id, bytes: nat, luck: Luck)
      requires Valid(View()) && !IsPending(pending, id) && id !in settled
      modifies this
      ensures View() == Request(old(View()), id, bytes, luck) && Valid(View()) && Keeps(old(View()), View())
      ensures Decided(old(View()), RequestEvent(id, bytes, luck), View())
    {
      RequestValid(View(), id, bytes, luck);
      StepDecided(maxRestarts, View(), RequestEvent(id, bytes, luck));
      Enqueue(id, bytes, luck);
    }

    method Enqueue(id: Id, bytes: nat, luck: Luck)
      modifies this
      ensures View() == Request(old(View()), id, bytes, luck)
    {
      if shuttingDown {
        settled := settled[id := Failed(ShutDown)];
      } else if !ready || child.None? || breakerOpen || spawning {
        settled := settled[id := Failed(Unready)];
      } else if |pending| >= MAX_PENDING || queuedBytes + bytes > MAX_QUEUED_BYTES {
        settled := settled[id := Failed(Overloaded)];
      } else {
        queuedBytes := queuedBytes + bytes;
        pending := pending + [Waiting(id, bytes)];
        queue := queue + [QueuedJob(id, child.value)];
        DrainQueue(luck);
      }
    }

    /** The ring knows the id afterwards, stays small, and only a full ring forgets, and only its oldest id. */
    method RememberLateReply(id: Id)
      requires Distinct(late) && |late| <= LATE_REPLY_RING
      modifies this`late
      ensures id in late && Distinct(late) && |late| <= 64
      ensures forall x :: x in late ==> x in old(late) || x == id
      ensures forall x :: x in old(late) && x !in late ==>
                x == old(late)[0] && |old(late)| == 64 && id !in old(late)
      ensures late == Remember(old(late), id)
    {
      RememberIs(late, id);
      forall i: nat | i < |late| && (i > 0 || |late| < LATE_REPLY_RING || id in late)
        ensures late[i] in Remember(late, id)
      {
        NewerKept(late, id, i);
      }
      if id !in late {
        late := late + [id];
      }
      if |late| > LATE_REPLY_RING {
        late := late[1..];
      }
    }

    /** The request's timer. */
    method OnTimeout(id: Id)
      requires Valid(View()) && IsPending(pending, id)
      modifies this
      ensures View() == Expire(old(View()), id) && Valid(View()) && Keeps(old(View()), View())
      ensures settled == old(settled)[id := Failed(TimedOut)] && inFlight == old(inFlight)
      ensures if old(inFlight) == Some(id) then id in late else late == old(late)
    {
      ExpireValid(View(), id);
      SettleKeeps(View(), id, Failed(TimedOut));
      if inFlight == Some(id) {
        RememberLateReply(id);
      }
      SettleRequest(id, Failed(TimedOut));
    }

    method Strike()
      modifies this`streak
      ensures View() == Struck(old(View()))
    {
      streak := streak + 1;
      if streak >= STREAK_LIMIT && !shuttingDown && !breakerOpen && child.Some? {
        streak := 0;
      }
    }

    method OnFrame(frame: Frame)
      requires Valid(View()) && child.Some?
      modifies this
      ensures View() == Receive(old(View()), frame) && Valid(View()) && Keeps(old(View()), View())
      ensures !frame.Garbage? && old(IsPending(pending, frame.id)) ==>
                settled == old(settled)[frame.id := match frame case Refused(_) => ServerRefused
                                                                case Reply(_, valid) => if valid then Resolved else Failed(Protocol)]
      ensures frame.Garbage? || !old(IsPending(pending, frame.id)) ==> settled == old(settled)
      ensures Decided(old(View()), FrameEvent(frame), View())
    {
      ReceiveValid(View(), frame);
      FrameOutcome(View(), frame);
      StepDecided(maxRestarts, View(), FrameEvent(frame));
      match frame
      case Garbage => Strike();
      case Refused(id) => OnRefusal(id);
      case Reply(id, valid) => OnReply(id, valid);
    }

    method OnRefusal(id: Id)
      modifies this
      ensures View() == Receive(old(View()), Refused(id))
    {
      if inFlight == Some(id) {
        inFlight := None;
      }
      SettleRequest(id, ServerRefused);
      streak := 0;
    }

    method OnReply(id: Id, valid: bool)
      modifies this
      ensures View() == Receive(old(View()), Reply(id, valid))
    {
      if inFlight == Some(id) {
        inFlight := None;
      }
      if !IsPending(pending, id) {
        if id in late {
          late := Forget(late, id);
          return;
        }
        Strike();
        return;
      }
      if !valid {
        SettleRequest(id, Failed(Protocol));
        Strike();
        return;
      }
      streak := 0;
      SettleRequest(id, Resolved);
    }

    method FailPending(failure: Failure)
      modifies this
      ensures View() == FailAll(old(View()), IdsOf(old(pending)), failure)
    {
      var ids := IdsOf(pending);
      ghost var goal := FailAll(View(), ids, failure);
      var i := 0;
      assert ids[0..] == ids;
      while i < |ids|
        invariant 0 <= i <= |ids| && FailAll(View(), ids[i..], failure) == goal
      {
        assert ids[i..][1..] == ids[i + 1..];
        SettleRequest(ids[i], Failed(failure));
        i := i + 1;
      }
    }

    method ScheduleRestart()
      modifies this`restartAttempt, this`breakerOpen
      ensures View() == CountRestart(old(View()), maxRestarts)
    {
      if breakerOpen || shuttingDown {
        return;
      }
      restartAttempt := restartAttempt + 1;
      if restartAttempt > maxRestarts {
        breakerOpen := true;
        restartAttempt := 0;
      }
    }

    method OnChildExit(proc: nat)
      requires Valid(View())
      modifies this
      ensures View() == Exit(old(View()), proc, maxRestarts) && Valid(View()) && Keeps(old(View()), View())
      ensures Decided(old(View()), ExitEvent(proc), View())
    {
      ExitValid(View(), proc, maxRestarts);
      StepDecided(maxRestarts, View(), ExitEvent(proc));
      TearDown(proc);
    }

    method TearDown(proc: nat)
      modifies this
      ensures View() == Exit(old(View()), proc, maxRestarts)
    {
      if child != Some(proc) {
        return;
      }
      child, inFlight, ready := None, None, false;
      if shuttingDown || spawning {
        return;
      }
      FailPending(Crashed);
      ScheduleRestart();
    }

    method Close()
      requires Valid(View())
      modifies this
      ensures View() == Shutdown(old(View())) && Valid(View()) && Keeps(old(View()), View())
      ensures !old(shuttingDown) ==> Decided(old(View()), ShutdownEvent, View())
    {
      ShutdownValid(View());
      if !shuttingDown {
        StepDecided(maxRestarts, View(), ShutdownEvent);
      }
      shuttingDown := true;
      FailPending(ShutDown);
      ready, child := false, None;
    }

    method BeginSpawn() returns (proc: nat)
      requires Valid(View()) && !shuttingDown && !spawning && child.None?
      modifies this
      ensures View() == Step(maxRestarts, old(View()), SpawnEvent) && Valid(View()) && child == Some(proc)
      ensures View() == old(View()).(spawning := true, child := Some(old(spawns)), spawns := old(spawns) + 1)
    {
      SpawnValid(View());
      proc := spawns;
      spawning, child, spawns := true, Some(proc), spawns + 1;
    }

    /** The handshake succeeded. */
    method Greeted()
      requires Valid(View()) && spawning && child.Some? && !shuttingDown
      modifies this
      ensures View() == Step(maxRestarts, old(View()), GreetedEvent) && Valid(View())
      ensures ready && !spawning && !breakerOpen && restartAttempt == 0 && streak == 0 && late == []
      ensures child == old(child) && pending == old(pending) && queue == old(queue) && inFlight == old(inFlight) && settled == old(settled)
    {
      GreetedValid(View());
      ready, restartAttempt, streak, late := true, 0, 0, [];
      spawning, breakerOpen := false, false;
    }
  }
}
