/** What every reachable state of the request protocol keeps. */
module RtkProof {
  import opened Texts
  import opened RtkProtocol

  // -------------------------------------------------------------------- the invariant

  ghost predicate DistinctPending(pending: seq<Waiting>) {
    forall i, j :: 0 <= i < j < |pending| ==> pending[i].id != pending[j].id
  }

  ghost predicate DistinctQueue(queue: seq<QueuedJob>) {
    forall i, j :: 0 <= i < j < |queue| ==> queue[i].id != queue[j].id
  }

  /** Only pending requests are queued, and the one in flight is not. */
  ghost predicate QueueValid(s: State) {
    && DistinctQueue(s.queue)
    && forall id :: IsQueued(s.queue, id) ==> IsPending(s.pending, id) && s.inFlight != Some(id)
  }

  /** Every pending request but the exempt one is queued or in flight. */
  ghost predicate Placed(s: State, exempt: Option<Id>) {
    forall id :: IsPending(s.pending, id) ==> IsQueued(s.queue, id) || s.inFlight == Some(id) || exempt == Some(id)
  }

  /** The byte counter is the sum over the pending requests, within bounds. */
  ghost predicate Counted(s: State) {
    && DistinctPending(s.pending)
    && s.queuedBytes == TotalBytes(s.pending) <= MAX_QUEUED_BYTES && |s.pending| <= MAX_PENDING
  }

  /** Late ids were settled, pending ones were not. */
  ghost predicate Settled(s: State) {
    && Distinct(s.late) && |s.late| <= LATE_REPLY_RING
    && (forall id :: id in s.late ==> id in s.settled)
    && (forall id :: IsPending(s.pending, id) ==> id !in s.settled)
  }

  ghost predicate Core(s: State, exempt: Option<Id>) {
    QueueValid(s) && Placed(s, exempt) && Counted(s) && Settled(s)
  }

  /** The request in flight still waits, or its late reply is expected. */
  ghost predicate Tracked(s: State) {
    s.inFlight.Some? && !s.shuttingDown ==> IsPending(s.pending, s.inFlight.value) || s.inFlight.value in s.late
  }

  /** Nothing waits while there is no greeted child. */
  ghost predicate Idle(s: State) {
    && (s.child.None? || s.spawning || s.shuttingDown ==> s.pending == [])
    && ((s.child.None? || s.spawning) && !s.shuttingDown ==> s.inFlight.None?)
    && (s.shuttingDown ==> s.child.None?)
  }

  ghost predicate StreakValid(s: State) {
    s.streak < STREAK_LIMIT || s.breakerOpen || s.shuttingDown
  }

  ghost predicate Valid(s: State) {
    Core(s, None) && Tracked(s) && Idle(s) && StreakValid(s)
  }

  // -------------------------------------------------------------------- list lemmas

  lemma {:induction false} ConsPending(head: Waiting, rest: seq<Waiting>)
    ensures forall id :: IsPending([head] + rest, id) <==> id == head.id || IsPending(rest, id)
  {
    var all := [head] + rest;
    forall id
      ensures IsPending(all, id) <==> id == head.id || IsPending(rest, id)
    {
      assert all[0] == head && forall i :: 0 <= i < |rest| ==> all[i + 1] == rest[i];
    }
  }

  lemma {:induction false} ConsQueued(head: QueuedJob, rest: seq<QueuedJob>)
    ensures forall id :: IsQueued([head] + rest, id) <==> id == head.id || IsQueued(rest, id)
  {
    var all := [head] + rest;
    forall id
      ensures IsQueued(all, id) <==> id == head.id || IsQueued(rest, id)
    {
      assert all[0] == head && forall i :: 0 <= i < |rest| ==> all[i + 1] == rest[i];
    }
  }

  lemma {:induction false} PushPending(pending: seq<Waiting>, last: Waiting)
    ensures forall id :: IsPending(pending + [last], id) <==> IsPending(pending, id) || id == last.id
    ensures TotalBytes(pending + [last]) == TotalBytes(pending) + last.bytes
    ensures DistinctPending(pending) && !IsPending(pending, last.id) ==> DistinctPending(pending + [last])
  {
    if pending == [] {
      assert pending + [last] == [last];
      ConsPending(last, []);
      assert [last] + [] == [last];
    } else {
      PushPending(pending[1..], last);
      assert pending + [last] == [pending[0]] + (pending[1..] + [last]);
      assert pending == [pending[0]] + pending[1..];
      ConsPending(pending[0], pending[1..] + [last]);
      ConsPending(pending[0], pending[1..]);
    }
  }

  lemma {:induction false} PushQueued(queue: seq<QueuedJob>, last: QueuedJob)
    ensures forall id :: IsQueued(queue + [last], id) <==> IsQueued(queue, id) || id == last.id
    ensures DistinctQueue(queue) && !IsQueued(queue, last.id) ==> DistinctQueue(queue + [last])
  {
    var all := queue + [last];
    forall id
      ensures IsQueued(all, id) <==> IsQueued(queue, id) || id == last.id
    {
      assert all[|queue|] == last && forall i :: 0 <= i < |queue| ==> all[i] == queue[i];
    }
  }

  lemma {:induction false} DistinctTail(pending: seq<Waiting>)
    requires pending != [] && DistinctPending(pending)
    ensures DistinctPending(pending[1..]) && !IsPending(pending[1..], pending[0].id)
  {
    assert forall i :: 0 <= i < |pending| - 1 ==> pending[1..][i] == pending[i + 1];
  }

  lemma {:induction false} DistinctQueueTail(queue: seq<QueuedJob>)
    requires queue != [] && DistinctQueue(queue)
    ensures DistinctQueue(queue[1..]) && !IsQueued(queue[1..], queue[0].id)
  {
    assert forall i :: 0 <= i < |queue| - 1 ==> queue[1..][i] == queue[i + 1];
  }

  lemma {:induction false} DistinctCons(head: Waiting, rest: seq<Waiting>)
    requires DistinctPending(rest) && !IsPending(rest, head.id)
    ensures DistinctPending([head] + rest)
  {
  }

  lemma {:induction false} DistinctQueueCons(head: QueuedJob, rest: seq<QueuedJob>)
    requires DistinctQueue(rest) && !IsQueued(rest, head.id)
    ensures DistinctQueue([head] + rest)
  {
  }

  lemma {:induction false} WithoutIs(pending: seq<Waiting>, id: Id)
    requires DistinctPending(pending) && IsPending(pending, id)
    ensures forall x :: IsPending(Without(pending, id), x) <==> IsPending(pending, x) && x != id
    ensures DistinctPending(Without(pending, id)) && |Without(pending, id)| == |pending| - 1
    ensures TotalBytes(pending) == TotalBytes(Without(pending, id)) + BytesOf(pending, id)
  {
    DistinctTail(pending);
    assert pending == [pending[0]] + pending[1..];
    ConsPending(pending[0], pending[1..]);
    if pending[0].id != id {
      WithoutIs(pending[1..], id);
      ConsPending(pending[0], Without(pending[1..], id));
      DistinctCons(pending[0], Without(pending[1..], id));
    }
  }

  lemma {:induction false} UnqueueIs(queue: seq<QueuedJob>, id: Id)
    requires DistinctQueue(queue)
    ensures forall x :: IsQueued(Unqueue(queue, id), x) <==> IsQueued(queue, x) && x != id
    ensures DistinctQueue(Unqueue(queue, id))
  {
    if queue != [] {
      DistinctQueueTail(queue);
      assert queue == [queue[0]] + queue[1..];
      ConsQueued(queue[0], queue[1..]);
      if queue[0].id != id {
        UnqueueIs(queue[1..], id);
        ConsQueued(queue[0], Unqueue(queue[1..], id));
        DistinctQueueCons(queue[0], Unqueue(queue[1..], id));
      }
    }
  }

  lemma {:induction false} DistinctIds(head: Id, rest: seq<Id>)
    requires Distinct(rest) && head !in rest
    ensures Distinct([head] + rest)
  {
  }

  lemma {:induction false} ForgetIs(late: seq<Id>, id: Id)
    requires Distinct(late)
    ensures forall x :: x in Forget(late, id) <==> x in late && x != id
    ensures Distinct(Forget(late, id)) && |Forget(late, id)| <= |late|
  {
    if late != [] {
      assert late == [late[0]] + late[1..];
      if late[0] != id {
        ForgetIs(late[1..], id);
        DistinctIds(late[0], Forget(late[1..], id));
      }
    }
  }

  /** A remembered id stays remembered: the ring drops only older ones. */
  lemma {:induction false} RememberIs(late: seq<Id>, id: Id)
    requires Distinct(late) && |late| <= LATE_REPLY_RING
    ensures id in Remember(late, id) && Distinct(Remember(late, id)) && |Remember(late, id)| <= LATE_REPLY_RING
    ensures forall x :: x in Remember(late, id) ==> x in late || x == id
  {
    var grown := if id in late then late else late + [id];
    assert id in grown;
    if |grown| > LATE_REPLY_RING {
      assert grown[1..][|grown| - 2] == id;
    }
  }

  /** Only a full ring forgets, and only its oldest id. */
  lemma {:induction false} NewerKept(late: seq<Id>, id: Id, i: nat)
    requires |late| <= LATE_REPLY_RING && i < |late|
    requires i > 0 || |late| < LATE_REPLY_RING || id in late
    ensures late[i] in Remember(late, id)
  {
    var grown := if id in late then late else late + [id];
    assert grown[i] == late[i];
    if |grown| > LATE_REPLY_RING {
      assert grown[1..][i - 1] == late[i];
    }
  }

  // -------------------------------------------------------------------- settling

  /** What settling one request does to everything else. */
  lemma {:induction false} SettleCore(s: State, id: Id, outcome: Outcome)
    requires Core(s, Some(id))
    ensures Core(Settle(s, id, outcome), None) && !IsPending(Settle(s, id, outcome).pending, id)
    ensures forall x :: x != id ==> (IsPending(Settle(s, id, outcome).pending, x) <==> IsPending(s.pending, x))
    ensures |Settle(s, id, outcome).pending| <= |s.pending|
  {
    if IsPending(s.pending, id) {
      WithoutIs(s.pending, id);
      UnqueueIs(s.queue, id);
    }
  }

  /** Settled promises keep their outcome, and no request is lost. */
  ghost predicate Keeps(s: State, next: State) {
    && (forall id :: id in s.settled ==> id in next.settled && next.settled[id] == s.settled[id])
    && (forall id :: IsPending(s.pending, id) ==> IsPending(next.pending, id) || id in next.settled)
  }

  lemma {:induction false} SettleKeeps(s: State, id: Id, outcome: Outcome)
    requires Core(s, Some(id))
    ensures Keeps(s, Settle(s, id, outcome))
    ensures IsPending(s.pending, id) ==> Settle(s, id, outcome).settled == s.settled[id := outcome]
  {
    SettleCore(s, id, outcome);
  }

  lemma {:induction false} KeepsOn(a: State, b: State, c: State)
    requires Keeps(a, b) && Keeps(b, c)
    ensures Keeps(a, c)
  {
  }

  lemma {:induction false} Shifted(s: State)
    requires Core(s, None) && s.queue != []
    ensures Core(s.(queue := s.queue[1..]), Some(s.queue[0].id)) && IsPending(s.pending, s.queue[0].id)
    ensures !IsQueued(s.queue[1..], s.queue[0].id) && s.inFlight != Some(s.queue[0].id)
  {
    DistinctQueueTail(s.queue);
    ConsQueued(s.queue[0], s.queue[1..]);
    assert s.queue == [s.queue[0]] + s.queue[1..];
    assert IsQueued(s.queue, s.queue[0].id);
  }

  /** Draining keeps everything, and puts only a waiting request in flight. */
  lemma {:induction false} DrainCore(s: State, luck: Luck)
    requires Core(s, None) && Tracked(s)
    ensures Core(Drain(s, luck), None) && Tracked(Drain(s, luck)) && Keeps(s, Drain(s, luck))
    ensures |Drain(s, luck).pending| <= |s.pending|
    decreases |s.queue|
  {
    if s.inFlight.None? && s.queue != [] {
      var job, s1 := s.queue[0], s.(queue := s.queue[1..]);
      Shifted(s);
      if job.id in luck.expired {
        DrainOn(s, s1, job.id, Failed(TimedOut), luck);
      } else if s.child != Some(job.child) || !s.ready || s.shuttingDown {
        DrainOn(s, s1, job.id, Failed(Unready), luck);
      } else if luck.writeFails {
        SettleCore(s1, job.id, Failed(Crashed));
        SettleKeeps(s1, job.id, Failed(Crashed));
      }
    }
  }

  lemma {:induction false} DrainOn(s: State, s1: State, id: Id, outcome: Outcome, luck: Luck)
    requires Core(s1, Some(id)) && s1.inFlight.None? && s1 == s.(queue := s1.queue) && |s1.queue| < |s.queue|
    ensures var next := Drain(Settle(s1, id, outcome), luck);
            Core(next, None) && Tracked(next) && Keeps(s, next) && |next.pending| <= |s.pending|
    decreases |s.queue|, 0
  {
    SettleCore(s1, id, outcome);
    SettleKeeps(s1, id, outcome);
    var next := Settle(s1, id, outcome);
    DrainCore(next, luck);
    KeepsOn(s, next, Drain(next, luck));
  }

  // -------------------------------------------------------------------- each event

  lemma {:induction false} AdmitCore(s: State, id: Id, bytes: nat)
    requires Core(s, None) && s.child.Some? && !IsPending(s.pending, id) && id !in s.settled && s.inFlight != Some(id)
    requires |s.pending| < MAX_PENDING && s.queuedBytes + bytes <= MAX_QUEUED_BYTES
    ensures Core(Admit(s, id, bytes), None)
    ensures forall x :: IsPending(s.pending, x) ==> IsPending(Admit(s, id, bytes).pending, x)
  {
    PushPending(s.pending, Waiting(id, bytes));
    PushQueued(s.queue, QueuedJob(id, s.child.value));
  }

  lemma {:induction false} RefusedValid(s: State, id: Id, outcome: Outcome)
    requires Valid(s) && !IsPending(s.pending, id) && id !in s.settled
    ensures Valid(s.(settled := s.settled[id := outcome])) && Keeps(s, s.(settled := s.settled[id := outcome]))
  {
  }

  lemma {:induction false} RequestValid(s: State, id: Id, bytes: nat, luck: Luck)
    requires Valid(s) && !IsPending(s.pending, id) && id !in s.settled
    ensures Valid(Request(s, id, bytes, luck)) && Keeps(s, Request(s, id, bytes, luck))
  {
    var refusal := Refusal(s, bytes);
    if refusal.Some? {
      RefusedValid(s, id, Failed(refusal.value));
    } else {
      AdmitCore(s, id, bytes);
      var admitted := Admit(s, id, bytes);
      DrainCore(admitted, luck);
      DrainRest(admitted, luck);
      KeepsOn(s, admitted, Drain(admitted, luck));
    }
  }

  /** Draining touches neither the child nor the streak. */
  ghost predicate SameChild(s: State, next: State) {
    && next.child == s.child && next.ready == s.ready && next.spawning == s.spawning && next.shuttingDown == s.shuttingDown
    && next.breakerOpen == s.breakerOpen && next.streak == s.streak && next.late == s.late
  }

  lemma {:induction false} DrainRest(s: State, luck: Luck)
    ensures SameChild(s, Drain(s, luck)) && (s.inFlight.Some? ==> Drain(s, luck) == s)
    ensures s.queue == [] ==> Drain(s, luck) == s
    decreases |s.queue|
  {
    if s.inFlight.None? && s.queue != [] {
      var job, s1 := s.queue[0], s.(queue := s.queue[1..]);
      if !IsPending(s.pending, job.id) {
        DrainRest(s1, luck);
      } else if job.id in luck.expired {
        DrainRest(Settle(s1, job.id, Failed(TimedOut)), luck);
      } else if s.child != Some(job.child) || !s.ready || s.shuttingDown {
        DrainRest(Settle(s1, job.id, Failed(Unready)), luck);
      }
    }
  }

  /** With nothing pending there is nothing to drain. */
  lemma {:induction false} NoQueue(s: State)
    requires QueueValid(s)
    ensures s.pending == [] ==> s.queue == []
  {
    if s.queue != [] {
      assert IsQueued(s.queue, s.queue[0].id);
    }
  }

  lemma {:induction false} DrainValid(s: State, luck: Luck)
    requires Valid(s)
    ensures Valid(Drain(s, luck)) && Keeps(s, Drain(s, luck))
  {
    DrainCore(s, luck);
    DrainRest(s, luck);
    NoQueue(s);
  }

  lemma {:induction false} ExpireValid(s: State, id: Id)
    requires Valid(s) && IsPending(s.pending, id)
    ensures Valid(Expire(s, id)) && Keeps(s, Expire(s, id))
  {
    if s.inFlight == Some(id) {
      ExpireInFlight(s, id);
    } else {
      SettleCore(s, id, Failed(TimedOut));
      SettleKeeps(s, id, Failed(TimedOut));
    }
  }

  lemma {:induction false} ExpireInFlight(s: State, id: Id)
    requires Valid(s) && IsPending(s.pending, id) && s.inFlight == Some(id)
    ensures Valid(Expire(s, id)) && Keeps(s, Expire(s, id))
  {
    RememberIs(s.late, id);
    SettleCore(s, id, Failed(TimedOut));
    SettleKeeps(s, id, Failed(TimedOut));
    var settled := Settle(s, id, Failed(TimedOut));
    assert Expire(s, id) == settled.(late := Remember(s.late, id));
  }

  lemma {:induction false} StruckValid(s: State)
    requires Core(s, None) && Tracked(s) && Idle(s) && StreakValid(s) && s.child.Some?
    ensures Valid(Struck(s)) && Keeps(s, Struck(s))
  {
  }

  /** Landing a reply leaves its request, if it still waits, to be settled. */
  lemma {:induction false} LandCore(s: State, id: Id)
    requires Valid(s)
    ensures Core(Land(s, id), Some(id)) && Tracked(Land(s, id)) && Idle(Land(s, id)) && StreakValid(Land(s, id))
    ensures !IsPending(s.pending, id) ==> Core(Land(s, id), None)
    ensures Land(s, id).inFlight != Some(id)
  {
  }

  lemma {:induction false} SettleLanded(s: State, id: Id, outcome: Outcome)
    requires Valid(s)
    ensures var next := Settle(Land(s, id), id, outcome);
            Valid(next) && Keeps(s, next) && next.child == s.child
  {
    LandCore(s, id);
    SettleCore(Land(s, id), id, outcome);
    SettleKeeps(Land(s, id), id, outcome);
  }

  lemma {:induction false} LateValid(s: State, id: Id)
    requires Valid(s) && !IsPending(s.pending, id)
    ensures Valid(Land(s, id).(late := Forget(s.late, id))) && Keeps(s, Land(s, id).(late := Forget(s.late, id)))
  {
    LandCore(s, id);
    ForgetIs(s.late, id);
  }

  lemma {:induction false} StreakReset(s: State)
    requires Valid(s)
    ensures Valid(s.(streak := 0)) && Keeps(s, s.(streak := 0))
  {
  }

  lemma {:induction false} ReceiveValid(s: State, frame: Frame)
    requires Valid(s) && s.child.Some?
    ensures Valid(Receive(s, frame)) && Keeps(s, Receive(s, frame))
  {
    match frame
    case Garbage => StruckValid(s);
    case Refused(id) =>
      SettleLanded(s, id, ServerRefused);
      StreakReset(Settle(Land(s, id), id, ServerRefused));
    case Reply(id, valid) => ReplyValid(s, id, valid);
  }

  lemma {:induction false} ReplyValid(s: State, id: Id, valid: bool)
    requires Valid(s) && s.child.Some?
    ensures Valid(Receive(s, Reply(id, valid))) && Keeps(s, Receive(s, Reply(id, valid)))
  {
    if !IsPending(s.pending, id) {
      if id in s.late {
        LateValid(s, id);
      } else {
        LandCore(s, id);
        StruckValid(Land(s, id));
      }
    } else if !valid {
      SettleLanded(s, id, Failed(Protocol));
      StruckValid(Settle(Land(s, id), id, Failed(Protocol)));
    } else {
      SettleLanded(s, id, Resolved);
      StreakReset(Settle(Land(s, id), id, Resolved));
      assert Settle(Land(s, id).(streak := 0), id, Resolved) == Settle(Land(s, id), id, Resolved).(streak := 0);
    }
  }

  lemma {:induction false} FailAllRest(s: State, ids: seq<Id>, failure: Failure)
    ensures SameChild(s, FailAll(s, ids, failure)) && FailAll(s, ids, failure).inFlight == s.inFlight
    decreases |ids|
  {
    if ids != [] {
      FailAllRest(Settle(s, ids[0], Failed(failure)), ids[1..], failure);
    }
  }

  /** Settling any request, the exempt one or another. */
  lemma {:induction false} SettleAny(s: State, exempt: Option<Id>, id: Id, outcome: Outcome) returns (left: Option<Id>)
    requires Core(s, exempt)
    ensures Core(Settle(s, id, outcome), left) && Keeps(s, Settle(s, id, outcome))
    ensures forall x :: IsPending(Settle(s, id, outcome).pending, x) ==> IsPending(s.pending, x) && x != id
  {
    if exempt.None? || exempt == Some(id) {
      SettleCore(s, id, outcome);
      SettleKeeps(s, id, outcome);
      left := None;
    } else {
      SettleOther(s, exempt.value, id, outcome);
      left := exempt;
    }
  }

  lemma {:induction false} NonePending(s: State, exempt: Option<Id>)
    requires Core(s, exempt) && forall id :: !IsPending(s.pending, id)
    ensures s.pending == [] && Core(s, None)
  {
    assert s.pending == [] || IsPending(s.pending, s.pending[0].id);
  }

  lemma {:induction false} FailAllCore(s: State, exempt: Option<Id>, ids: seq<Id>, failure: Failure)
    requires Core(s, exempt) && forall id :: IsPending(s.pending, id) ==> id in ids
    ensures Core(FailAll(s, ids, failure), None) && Keeps(s, FailAll(s, ids, failure)) && FailAll(s, ids, failure).pending == []
    decreases |ids|
  {
    if ids == [] {
      NonePending(s, exempt);
    } else {
      var next := Settle(s, ids[0], Failed(failure));
      var left := SettleAny(s, exempt, ids[0], Failed(failure));
      assert ids == [ids[0]] + ids[1..];
      FailAllCore(next, left, ids[1..], failure);
      KeepsOn(s, next, FailAll(s, ids, failure));
    }
  }

  lemma {:induction false} IdsListed(pending: seq<Waiting>)
    ensures forall id :: IsPending(pending, id) ==> id in IdsOf(pending)
  {
    forall id | IsPending(pending, id)
      ensures id in IdsOf(pending)
    {
      var i :| 0 <= i < |pending| && pending[i].id == id;
      assert IdsOf(pending)[i] == id;
    }
  }

  lemma {:induction false} DownFails(s: State, failure: Failure)
    requires Valid(s) && !s.shuttingDown && !s.spawning
    ensures var down := s.(child := None, inFlight := None, ready := false);
            Valid(FailAll(down, IdsOf(s.pending), failure)) && Keeps(s, FailAll(down, IdsOf(s.pending), failure))
  {
    var down := s.(child := None, inFlight := None, ready := false);
    DownCore(s);
    IdsListed(s.pending);
    FailAllCore(down, s.inFlight, IdsOf(s.pending), failure);
    FailAllRest(down, IdsOf(s.pending), failure);
    KeepsOn(s, down, FailAll(down, IdsOf(s.pending), failure));
  }

  lemma {:induction false} DownCore(s: State)
    requires Core(s, None)
    ensures Core(s.(child := None, inFlight := None, ready := false), s.inFlight)
  {
  }

  lemma {:induction false} SettleOther(s: State, exempt: Id, id: Id, outcome: Outcome)
    requires Core(s, Some(exempt)) && id != exempt
    ensures Core(Settle(s, id, outcome), Some(exempt)) && Keeps(s, Settle(s, id, outcome))
    ensures !IsPending(Settle(s, id, outcome).pending, id)
    ensures forall x :: x != id ==> (IsPending(Settle(s, id, outcome).pending, x) <==> IsPending(s.pending, x))
  {
    if IsPending(s.pending, id) {
      WithoutIs(s.pending, id);
      UnqueueIs(s.queue, id);
    }
  }

  lemma {:induction false} CountValid(s: State, maxRestarts: nat)
    requires Valid(s)
    ensures Valid(CountRestart(s, maxRestarts)) && Keeps(s, CountRestart(s, maxRestarts))
  {
  }

  lemma {:induction false} ExitValid(s: State, child: nat, maxRestarts: nat)
    requires Valid(s)
    ensures Valid(Exit(s, child, maxRestarts)) && Keeps(s, Exit(s, child, maxRestarts))
  {
    if s.child == Some(child) {
      if s.shuttingDown || s.spawning {
        ExitQuiet(s);
      } else {
        DownFails(s, Crashed);
        var failed := FailAll(s.(child := None, inFlight := None, ready := false), IdsOf(s.pending), Crashed);
        CountValid(failed, maxRestarts);
        KeepsOn(s, failed, CountRestart(failed, maxRestarts));
      }
    }
  }

  lemma {:induction false} ExitQuiet(s: State)
    requires Valid(s) && (s.shuttingDown || s.spawning)
    ensures Valid(s.(child := None, inFlight := None, ready := false)) && Keeps(s, s.(child := None, inFlight := None, ready := false))
  {
    NoQueue(s);
    assert forall id :: !IsPending(s.pending, id);
  }

  lemma {:induction false} ShutdownValid(s: State)
    requires Valid(s)
    ensures Valid(Shutdown(s)) && Keeps(s, Shutdown(s))
  {
    IdsListed(s.pending);
    FailAllCore(s.(shuttingDown := true), None, IdsOf(s.pending), ShutDown);
    FailAllRest(s.(shuttingDown := true), IdsOf(s.pending), ShutDown);
  }

  lemma {:induction false} GreetedValid(s: State)
    requires Valid(s) && s.spawning && s.child.Some? && !s.shuttingDown
    ensures var next := s.(ready := true, spawning := false, restartAttempt := 0, streak := 0, late := [], breakerOpen := false);
            Valid(next) && Keeps(s, next)
  {
  }

  lemma {:induction false} SpawnValid(s: State)
    requires Valid(s) && !s.shuttingDown && !s.spawning && s.child.None?
    ensures var next := s.(spawning := true, child := Some(s.spawns), spawns := s.spawns + 1);
            Valid(next) && Keeps(s, next)
  {
  }

  lemma {:induction false} SpawnFailedValid(s: State, maxRestarts: nat)
    requires Valid(s) && s.spawning
    ensures var next := CountRestart(s.(spawning := false, child := None), maxRestarts);
            Valid(next) && Keeps(s, next)
  {
    var down := s.(spawning := false, child := None);
    CountValid(down, maxRestarts);
  }

  // --------------------------------------------------------------------- every run

  lemma {:induction false} StepValid(maxRestarts: nat, s: State, e: Event)
    requires Valid(s)
    ensures Valid(Step(maxRestarts, s, e)) && Keeps(s, Step(maxRestarts, s, e))
  {
    if !Possible(s, e) {
      return;
    }
    match e
    case RequestEvent(id, bytes, luck) => RequestValid(s, id, bytes, luck);
    case DrainEvent(luck) => DrainValid(s, luck);
    case ExpireEvent(id) => ExpireValid(s, id);
    case FrameEvent(frame) => ReceiveValid(s, frame);
    case ExitEvent(child) => ExitValid(s, child, maxRestarts);
    case SpawnEvent => SpawnValid(s);
    case GreetedEvent => GreetedValid(s);
    case SpawnFailedEvent => SpawnFailedValid(s, maxRestarts);
    case ShutdownEvent => ShutdownValid(s);
  }

  lemma {:induction false} FollowsValid(maxRestarts: nat, s: State, e: Event, next: State)
    requires Valid(s) && Follows(maxRestarts, s, e, next)
    ensures Valid(next) && Keeps(s, next)
  {
    assert next == Step(maxRestarts, s, e);
    StepValid(maxRestarts, s, e);
  }

  lemma {:induction false} InitialValid()
    ensures Valid(INITIAL)
  {
  }

  /**
   * In every reachable state the byte counter is the sum over the at most 32 pending requests and within
   * 8 MiB, only one frame is in flight, and before shutdown its request still waits or its late reply is
   * expected.
   */
  lemma {:induction false} ExecutionValid(maxRestarts: nat, states: seq<State>, events: seq<Event>, n: nat)
    requires Execution(maxRestarts, states, events) && Valid(states[0]) && n <= |events|
    ensures Valid(states[n])
  {
    if n > 0 {
      ExecutionValid(maxRestarts, states, events, n - 1);
      FollowsValid(maxRestarts, states[n - 1], events[n - 1], states[n]);
    }
  }

  /** Each request settles once: what was settled stays as it is, and nothing that waits is lost. */
  lemma {:induction false} EachSettlesOnce(maxRestarts: nat, states: seq<State>, events: seq<Event>, m: nat, n: nat)
    requires Execution(maxRestarts, states, events) && Valid(states[0]) && m <= n <= |events|
    ensures Keeps(states[m], states[n])
  {
    if m < n {
      EachSettlesOnce(maxRestarts, states, events, m, n - 1);
      ExecutionValid(maxRestarts, states, events, n - 1);
      FollowsValid(maxRestarts, states[n - 1], events[n - 1], states[n]);
      KeepsOn(states[m], states[n - 1], states[n]);
    }
  }

  // ---------------------------------------------------------------------- late replies

  /** The frames that count as protocol failures: everything but an answer somebody waits for or gave up on. */
  predicate Corrupt(s: State, frame: Frame) {
    match frame
    case Garbage => true
    case Refused(_) => false
    case Reply(id, valid) => if IsPending(s.pending, id) then !valid else id !in s.late
  }

  /**
   * A corrupt frame is one strike, and the third kills the child and starts the count again; the late answer
   * of a request that timed out leaves the streak as it is, and any other frame clears it.
   */
  lemma StreakRisesExactly(s: State, frame: Frame)
    requires Valid(s) && s.child.Some?
    ensures Corrupt(s, frame) ==>
              Receive(s, frame).streak == if s.streak >= 2 && !s.shuttingDown && !s.breakerOpen then 0 else s.streak + 1
    ensures !Corrupt(s, frame) ==>
              Receive(s, frame).streak == if frame.Reply? && !IsPending(s.pending, frame.id) then s.streak else 0
  {
  }

  /** The late answer of a request that timed out settles nothing, and neither raises nor clears the streak. */
  lemma LateReplyIsDropped(s: State, id: Id, valid: bool)
    requires Valid(s) && !IsPending(s.pending, id) && id in s.late
    ensures var next := Receive(s, Reply(id, valid));
            && next.settled == s.settled && next.pending == s.pending && next.queue == s.queue && next.streak == s.streak
            && next.inFlight == (if s.inFlight == Some(id) then None else s.inFlight) && id !in next.late
  {
    ForgetIs(s.late, id);
  }

  /** Whatever a frame says, it settles no other request than the one it names. */
  lemma FrameSettlesItsOwn(s: State, frame: Frame, id: Id)
    requires Valid(s) && id !in s.settled && id in Receive(s, frame).settled
    ensures !frame.Garbage? && frame.id == id && IsPending(s.pending, id)
  {
  }

  /** The child answers the frame in flight, well-formed, and nothing else. */
  predicate Answers(s: State, e: Event) {
    e.FrameEvent? ==> !e.frame.Garbage? && s.inFlight == Some(e.frame.id) && (e.frame.Reply? ==> e.frame.valid)
  }

  lemma {:induction false} AnswersKeepStreak(maxRestarts: nat, s: State, e: Event, next: State)
    requires Valid(s) && Follows(maxRestarts, s, e, next) && Answers(s, e)
    ensures next.streak <= s.streak
  {
    assert next == Step(maxRestarts, s, e);
    if Possible(s, e) {
      match e
      case RequestEvent(id, bytes, luck) => RequestStreak(s, id, bytes, luck);
      case DrainEvent(luck) => DrainRest(s, luck);
      case ExpireEvent(id) =>
      case FrameEvent(frame) => AnswerStreak(s, frame);
      case ExitEvent(child) => FailAllRest(s.(child := None, inFlight := None, ready := false), IdsOf(s.pending), Crashed);
      case SpawnEvent =>
      case GreetedEvent =>
      case SpawnFailedEvent =>
      case ShutdownEvent => FailAllRest(s.(shuttingDown := true), IdsOf(s.pending), ShutDown);
    }
  }

  lemma {:induction false} RequestStreak(s: State, id: Id, bytes: nat, luck: Luck)
    ensures Request(s, id, bytes, luck).streak == s.streak
  {
    if Refusal(s, bytes).None? {
      DrainRest(Admit(s, id, bytes), luck);
    }
  }

  lemma {:induction false} AnswerStreak(s: State, frame: Frame)
    requires Valid(s) && s.child.Some? && !frame.Garbage? && s.inFlight == Some(frame.id) && (frame.Reply? ==> frame.valid)
    ensures Receive(s, frame).streak <= s.streak
  {
  }

  /**
   * However slow the child is and however many requests time out first: as long as it only answers the
   * frame in flight, in good form, its streak never rises, so it is never killed for being slow.
   */
  lemma {:induction false} SlownessIsNotCorruption(maxRestarts: nat, states: seq<State>, events: seq<Event>, n: nat)
    requires Execution(maxRestarts, states, events) && Valid(states[0]) && n <= |events|
    requires forall i :: 0 <= i < n ==> Answers(states[i], events[i])
    ensures states[n].streak <= states[0].streak
  {
    if n > 0 {
      SlownessIsNotCorruption(maxRestarts, states, events, n - 1);
      ExecutionValid(maxRestarts, states, events, n - 1);
      AnswersKeepStreak(maxRestarts, states[n - 1], events[n - 1], states[n]);
    }
  }
}
