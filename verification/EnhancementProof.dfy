/** What every reachable state of the enhancement manager keeps. */
module EnhancementProof {
  import opened Texts
  import opened Enhancement

  // -------------------------------------------------------------------- the invariant

  /** Queued, racing or cleaning up: what a pending job may look like. */
  predicate PhaseValid(status: Status, work: Work, queued: bool) {
    if queued then status == Queued && !work.aborted && !work.settled
    else if work.settled then status != Queued && status != Running
    else status != Queued && status != Completed && (status == Running <==> !work.aborted)
  }

  /** A pending job is known, and it is its session's only active one. */
  ghost predicate WorkValid(s: State, id: Id)
    requires id in s.pending
  {
    && id in s.jobs
    && s.pending[id].session in s.sessions && s.sessions[s.pending[id].session].active == Some(id)
    && PhaseValid(s.jobs[id].status, s.pending[id], id in s.queue)
  }

  ghost predicate WorksValid(s: State) {
    forall id :: id in s.pending ==> WorkValid(s, id)
  }

  ghost predicate SessionsValid(s: State) {
    forall key :: key in s.sessions && s.sessions[key].active.Some? ==>
      s.sessions[key].active.value in s.pending && s.pending[s.sessions[key].active.value].session == key
  }

  /** Pending jobs are exactly the queued and the running ones. */
  ghost predicate QueueValid(s: State) {
    && Distinct(s.queue) && (forall id :: id in s.queue ==> id in s.pending)
    && |s.pending| == |s.queue| + s.running
    && |s.queue| <= MAX_QUEUED && 0 <= s.running <= MAX_RUNNING
  }

  ghost predicate JobValid(s: State, id: Id)
    requires id in s.jobs
  {
    && id in s.order
    && (s.jobs[id].status == Queued || s.jobs[id].status == Running ==> id in s.pending)
    && (s.jobs[id].published <==> s.jobs[id].status == Completed)
  }

  ghost predicate JobsValid(s: State) {
    forall id :: id in s.jobs ==> JobValid(s, id)
  }

  /** Every cached id names a completed job. */
  ghost predicate CacheValid(s: State) {
    forall entry :: entry in s.cache ==> entry.id in s.jobs && s.jobs[entry.id].status == Completed
  }

  ghost predicate Core(s: State) {
    WorksValid(s) && SessionsValid(s) && QueueValid(s) && JobsValid(s) && CacheValid(s)
  }

  ghost predicate Sized(s: State) {
    |s.sessions| <= MAX_SESSIONS && |s.jobs| <= MAX_JOBS && |s.cache| <= MAX_CACHED
  }

  /** After `dispose` nothing waits, nothing is cached, and nothing can still be published. */
  ghost predicate Quiet(s: State) {
    s.disposed ==>
      s.queue == [] && s.cache == [] && forall id :: id in s.pending ==> s.pending[id].settled || s.pending[id].aborted
  }

  ghost predicate Valid(s: State) {
    Core(s) && Sized(s) && Quiet(s)
  }

  // ------------------------------------------------------------------- list lemmas

  lemma {:induction false} FirstIsIn(queue: seq<Id>)
    ensures queue == [] || queue[0] in queue
  {
  }

  lemma {:induction false} DistinctCons(id: Id, rest: seq<Id>)
    requires Distinct(rest) && id !in rest
    ensures Distinct([id] + rest)
  {
  }

  lemma {:induction false} DropIs(queue: seq<Id>, id: Id)
    requires Distinct(queue) && id in queue
    ensures |Drop(queue, id)| == |queue| - 1 && Distinct(Drop(queue, id))
    ensures forall x :: x in Drop(queue, id) <==> x in queue && x != id
  {
    if queue[0] == id {
      forall x
        ensures x in queue[1..] <==> x in queue && x != id
      {
      }
    } else {
      DropIs(queue[1..], id);
      assert queue == [queue[0]] + queue[1..];
      DistinctCons(queue[0], Drop(queue[1..], id));
    }
  }

  lemma {:induction false} WithoutJobIs(cache: seq<Cached>, id: Id)
    ensures |WithoutJob(cache, id)| <= |cache|
    ensures forall entry :: entry in WithoutJob(cache, id) <==> entry in cache && entry.id != id
  {
    if cache != [] {
      WithoutJobIs(cache[1..], id);
      assert cache == [cache[0]] + cache[1..];
    }
  }

  lemma {:induction false} PutIs(cache: seq<Cached>, key: Digest, id: Id)
    ensures forall entry :: entry in Put(cache, key, id) ==> entry == Cached(key, id) || entry in cache
    ensures Lookup(Put(cache, key, id), key) == Some(id)
  {
    if cache != [] && cache[0].key != key {
      PutIs(cache[1..], key, id);
      assert Put(cache, key, id) == [cache[0]] + Put(cache[1..], key, id);
      assert cache == [cache[0]] + cache[1..];
    }
  }

  lemma {:induction false} SizeWithout<K, V>(m: map<K, V>, k: K)
    requires k in m
    ensures |m - {k}| == |m| - 1
  {
    assert (m - {k}).Keys == m.Keys - {k};
    assert |(m - {k}).Keys| == |m - {k}| && |m.Keys| == |m|;
  }

  lemma {:induction false} SizeWith<K, V>(m: map<K, V>, k: K, v: V)
    ensures |m[k := v]| == if k in m then |m| else |m| + 1
  {
    assert m[k := v].Keys == m.Keys + {k};
    assert |m[k := v].Keys| == |m[k := v]| && |m.Keys| == |m|;
  }

  // ------------------------------------------------------------------- small steps

  lemma {:induction false} StartCore(s: State)
    requires Core(s) && s.queue != [] && s.running < MAX_RUNNING
    ensures Core(Start(s))
    ensures Start(s).pending == s.pending && Start(s).sessions == s.sessions
  {
    var id, next := s.queue[0], Start(s);
    assert id in s.queue && id in s.pending && WorkValid(s, id);
    forall x
      ensures x in next.queue <==> x in s.queue && x != id
    {
    }
    forall x | x in next.pending
      ensures WorkValid(next, x)
    {
      assert WorkValid(s, x);
    }
    forall x | x in next.jobs
      ensures JobValid(next, x)
    {
      assert JobValid(s, x);
    }
    StartSizes(s);
  }

  lemma {:induction false} StartSizes(s: State)
    requires s.queue != [] && s.jobs.Keys >= {s.queue[0]}
    ensures |Start(s).jobs| == |s.jobs|
  {
    assert s.queue[0] in s.jobs;
    SizeWith(s.jobs, s.queue[0], Start(s).jobs[s.queue[0]]);
  }

  /** What `Pump` leaves alone. */
  ghost predicate PumpKeeps(s: State, next: State) {
    && next.pending == s.pending && next.sessions == s.sessions && next.cache == s.cache && next.order == s.order
    && next.disposed == s.disposed && |next.jobs| == |s.jobs| && next.jobs.Keys == s.jobs.Keys
    && (forall id :: id in s.jobs && id !in s.queue ==> next.jobs[id] == s.jobs[id])
    && (forall id :: id in next.queue ==> id in s.queue)
  }

  lemma {:induction false} PumpCore(s: State)
    requires Core(s)
    ensures Core(Pump(s)) && PumpKeeps(s, Pump(s))
    ensures s.disposed || Pump(s).running == MAX_RUNNING || Pump(s).queue == []
    ensures s.disposed ==> Pump(s) == s
    decreases |s.queue|
  {
    if !s.disposed && s.running < MAX_RUNNING && s.queue != [] {
      assert s.queue[0] in s.queue && WorkValid(s, s.queue[0]);
      StartCore(s);
      StartSizes(s);
      PumpCore(Start(s));
    }
  }

  lemma {:induction false} WithdrawCore(c: Config, s: State, id: Id)
    requires Core(s) && id in s.queue
    ensures Core(Withdraw(c, s, id)) && |Withdraw(c, s, id).jobs| == |s.jobs|
    ensures |Withdraw(c, s, id).sessions| == |s.sessions|
  {
    var next := Withdraw(c, s, id);
    assert id in s.pending && WorkValid(s, id);
    DropIs(s.queue, id);
    SizeWithout(s.pending, id);
    var key := s.pending[id].session;
    SizeWith(s.jobs, id, next.jobs[id]);
    SizeWith(s.sessions, key, next.sessions[key]);
    assert next.sessions.Keys == s.sessions.Keys;
    assert |next.sessions| == |next.sessions.Keys|;
    forall x | x in next.pending
      ensures WorkValid(next, x)
    {
      assert WorkValid(s, x);
    }
    forall x | x in next.jobs
      ensures JobValid(next, x)
    {
      assert JobValid(s, x);
    }
    forall k | k in next.sessions && next.sessions[k].active.Some?
      ensures next.sessions[k].active.value in next.pending && next.pending[next.sessions[k].active.value].session == k
    {
      assert k in s.sessions && s.sessions[k].active == next.sessions[k].active;
    }
  }

  lemma {:induction false} AbortCore(s: State, id: Id)
    requires Core(s) && Cancellable(s, id) && id !in s.queue
    ensures Core(Abort(s, id)) && |Abort(s, id).jobs| == |s.jobs|
  {
    var next := Abort(s, id);
    assert WorkValid(s, id);
    SizeWith(s.jobs, id, next.jobs[id]);
    SizeWith(s.pending, id, next.pending[id]);
    forall x | x in next.pending
      ensures WorkValid(next, x)
    {
      assert WorkValid(s, x);
    }
    forall x | x in next.jobs
      ensures JobValid(next, x)
    {
      assert JobValid(s, x);
    }
  }

  /** What a cancellation leaves alone, and that its job can no longer be published. */
  ghost predicate CancelKeeps(s: State, id: Id, next: State) {
    && next.cache == s.cache && next.order == s.order && next.disposed == s.disposed
    && |next.jobs| == |s.jobs| && |next.sessions| == |s.sessions| && next.jobs.Keys == s.jobs.Keys
    && (forall x :: x in next.pending ==> x in s.pending && next.pending[x].settled == s.pending[x].settled)
    && (forall x :: x in next.pending && s.pending[x].aborted ==> next.pending[x].aborted)
    && (forall x :: x in next.queue ==> x in s.queue && x != id)
    && (id in next.pending ==> next.pending[id].settled || next.pending[id].aborted)
    && (forall x :: x in s.jobs && s.jobs[x].status == Completed ==> next.jobs[x] == s.jobs[x])
    && (id in next.jobs ==> next.jobs[id].status != Queued && next.jobs[id].status != Running)
  }

  lemma {:induction false} CancelCore(c: Config, s: State, id: Id)
    requires Core(s)
    ensures Core(Cancel(c, s, id)) && CancelKeeps(s, id, Cancel(c, s, id))
  {
    if id in s.jobs {
      assert JobValid(s, id);
    }
    if !Cancellable(s, id) {
      NotCancellable(s, id);
    } else if id in s.queue {
      WithdrawCore(c, s, id);
      PumpCore(Withdraw(c, s, id));
      WithdrawKeeps(c, s, id);
    } else {
      AbortCore(s, id);
      AbortKeeps(s, id);
    }
  }

  lemma {:induction false} NotCancellable(s: State, id: Id)
    requires Core(s) && !Cancellable(s, id)
    ensures CancelKeeps(s, id, s)
  {
    if id in s.pending {
      assert WorkValid(s, id);
    }
    if id in s.jobs {
      assert JobValid(s, id);
    }
  }

  lemma {:induction false} AbortKeeps(s: State, id: Id)
    requires Core(s) && Cancellable(s, id) && id !in s.queue && |Abort(s, id).jobs| == |s.jobs|
    ensures CancelKeeps(s, id, Abort(s, id))
  {
  }

  lemma {:induction false} CompletedIsNotQueued(s: State, id: Id)
    requires Core(s) && id in s.jobs && s.jobs[id].status == Completed
    ensures id !in s.queue
  {
    if id in s.pending {
      assert WorkValid(s, id);
    }
  }

  lemma {:induction false} WithdrawKeeps(c: Config, s: State, id: Id)
    requires Core(s) && id in s.queue && PumpKeeps(Withdraw(c, s, id), Pump(Withdraw(c, s, id)))
    requires |Withdraw(c, s, id).jobs| == |s.jobs| && |Withdraw(c, s, id).sessions| == |s.sessions|
    ensures CancelKeeps(s, id, Pump(Withdraw(c, s, id)))
  {
    var mid := Withdraw(c, s, id);
    DropIs(s.queue, id);
    assert WorkValid(s, id);
    forall x | x in s.jobs && s.jobs[x].status == Completed
      ensures Pump(mid).jobs[x] == s.jobs[x]
    {
      CompletedIsNotQueued(s, x);
    }
  }

  lemma {:induction false} DeleteCore(s: State, id: Id)
    requires Core(s) && Deletable(s, id)
    ensures Core(Delete(s, id)) && |Delete(s, id).jobs| == |s.jobs| - 1
  {
    var next := Delete(s, id);
    SizeWithout(s.jobs, id);
    WithoutJobIs(s.cache, id);
    forall x | x in next.pending
      ensures WorkValid(next, x)
    {
      assert WorkValid(s, x);
    }
    forall x | x in next.jobs
      ensures JobValid(next, x)
    {
      assert JobValid(s, x);
    }
  }

  /** What trimming leaves alone: everything but deletable jobs and cached entries. */
  ghost predicate TrimKeeps(s: State, next: State) {
    && next.sessions == s.sessions && next.pending == s.pending && next.queue == s.queue && next.order == s.order
    && next.running == s.running && next.disposed == s.disposed
    && (forall id :: id in next.jobs ==> id in s.jobs && next.jobs[id] == s.jobs[id])
    && (forall id :: id in s.jobs && id in s.pending ==> id in next.jobs)
    && (forall entry :: entry in next.cache ==> entry in s.cache)
  }

  lemma {:induction false} TrimFromCore(s: State, i: nat)
    requires Core(s)
    ensures Core(TrimFrom(s, i))
    decreases |s.order| - i
  {
    if i < |s.order| && |s.jobs| > MAX_JOBS {
      if Deletable(s, s.order[i]) {
        DeleteCore(s, s.order[i]);
        TrimFromCore(Delete(s, s.order[i]), i + 1);
      } else {
        TrimFromCore(s, i + 1);
      }
    }
  }

  lemma {:induction false} TrimFromSize(s: State, i: nat, j: nat)
    requires |s.jobs| == MAX_JOBS + 1 && i <= j < |s.order| && Deletable(s, s.order[j])
    ensures |TrimFrom(s, i).jobs| == MAX_JOBS
    decreases |s.order| - i
  {
    if Deletable(s, s.order[i]) {
      SizeWithout(s.jobs, s.order[i]);
    } else {
      TrimFromSize(s, i + 1, j);
    }
  }

  lemma {:induction false} TrimFromKeeps(s: State, i: nat)
    ensures TrimKeeps(s, TrimFrom(s, i))
    decreases |s.order| - i
  {
    if i < |s.order| && |s.jobs| > MAX_JOBS {
      if Deletable(s, s.order[i]) {
        WithoutJobIs(s.cache, s.order[i]);
        TrimFromKeeps(Delete(s, s.order[i]), i + 1);
      } else {
        TrimFromKeeps(s, i + 1);
      }
    }
  }

  lemma {:induction false} SomeDeletable(s: State) returns (j: nat)
    requires Core(s) && |s.jobs| > MAX_QUEUED + MAX_RUNNING
    ensures j < |s.order| && Deletable(s, s.order[j])
  {
    assert |s.jobs.Keys| == |s.jobs| && |s.pending.Keys| == |s.pending|;
    if s.jobs.Keys <= s.pending.Keys {
      Subset(s.jobs.Keys, s.pending.Keys);
    }
    var id :| id in s.jobs.Keys && id !in s.pending.Keys;
    assert JobValid(s, id);
    j :| 0 <= j < |s.order| && s.order[j] == id;
  }

  lemma {:induction false} Subset<T>(a: set<T>, b: set<T>)
    requires a <= b
    ensures |a| <= |b|
  {
    assert b == a + (b - a);
  }

  lemma {:induction false} TrimCore(s: State)
    requires Core(s) && |s.jobs| <= MAX_JOBS + 1
    ensures Core(Trim(s)) && TrimKeeps(s, Trim(s)) && |Trim(s).jobs| <= MAX_JOBS && |Trim(s).cache| <= MAX_CACHED
  {
    TrimFromCore(s, 0);
    TrimFromKeeps(s, 0);
    if |s.jobs| > MAX_JOBS {
      var j := SomeDeletable(s);
      TrimFromSize(s, 0, j);
    }
    var trimmed := TrimFrom(s, 0);
    NewestIs(trimmed.cache);
    TrimmedCore(trimmed);
  }

  lemma {:induction false} NewestIs(cache: seq<Cached>)
    ensures |Newest(cache)| <= MAX_CACHED && forall entry :: entry in Newest(cache) ==> entry in cache
  {
  }

  lemma {:induction false} TrimmedCore(s: State)
    requires Core(s)
    ensures Core(s.(cache := Newest(s.cache)))
  {
    SameButCache(s, Newest(s.cache));
  }

  lemma {:induction false} SameButCache(s: State, cache: seq<Cached>)
    requires Core(s) && forall entry :: entry in cache ==> entry in s.cache
    ensures Core(s.(cache := cache))
  {
    var next := s.(cache := cache);
    forall x | x in next.pending
      ensures WorkValid(next, x)
    {
      assert WorkValid(s, x);
    }
    forall x | x in next.jobs
      ensures JobValid(next, x)
    {
      assert JobValid(s, x);
    }
  }

  // ------------------------------------------------------------------ the entry points

  /** Every known id was created at some time. */
  lemma {:induction false} KnownIds(s: State)
    requires WorksValid(s) && JobsValid(s)
    ensures forall id :: id in s.jobs ==> id in s.order
    ensures forall id :: id in s.pending ==> id in s.jobs
    ensures forall id :: id in s.pending ==> id in s.order
  {
    forall id | id in s.jobs
      ensures id in s.order
    {
      assert JobValid(s, id);
    }
    forall id | id in s.pending
      ensures id in s.jobs
    {
      assert WorkValid(s, id);
    }
  }

  lemma {:induction false} AdmitWorks(c: Config, s: State, input: Submission, id: Id)
    requires WorksValid(s) && input.prepared.Prepared? && id !in s.pending && id !in s.jobs
    requires ActiveOf(s, input.namespace).None?
    ensures WorksValid(Admit(c, s, input, id))
  {
    var next := Admit(c, s, input, id);
    forall x | x in next.pending
      ensures WorkValid(next, x)
    {
      if x != id {
        assert WorkValid(s, x);
      }
    }
  }

  lemma {:induction false} AdmitJobs(c: Config, s: State, input: Submission, id: Id)
    requires JobsValid(s) && CacheValid(s) && input.prepared.Prepared? && id !in s.pending && id !in s.jobs
    ensures JobsValid(Admit(c, s, input, id)) && CacheValid(Admit(c, s, input, id))
  {
    var next := Admit(c, s, input, id);
    forall x | x in next.jobs
      ensures JobValid(next, x)
    {
      if x != id {
        assert JobValid(s, x);
      }
    }
  }

  lemma {:induction false} AdmitQueue(c: Config, s: State, input: Submission, id: Id)
    requires QueueValid(s) && SessionsValid(s) && input.prepared.Prepared? && id !in s.pending && |s.queue| < MAX_QUEUED
    ensures QueueValid(Admit(c, s, input, id)) && SessionsValid(Admit(c, s, input, id))
  {
    SizeWith(s.pending, id, Admit(c, s, input, id).pending[id]);
  }

  lemma {:induction false} AdmitCore(c: Config, s: State, input: Submission, id: Id)
    requires Core(s) && input.prepared.Prepared? && id !in s.order
    requires ActiveOf(s, input.namespace).None? && |s.queue| < MAX_QUEUED
    ensures Core(Admit(c, s, input, id))
  {
    KnownIds(s);
    AdmitWorks(c, s, input, id);
    AdmitJobs(c, s, input, id);
    AdmitQueue(c, s, input, id);
  }

  lemma {:induction false} AdmitSizes(c: Config, s: State, input: Submission, id: Id)
    requires input.prepared.Prepared? && id !in s.jobs
    ensures |Admit(c, s, input, id).jobs| == |s.jobs| + 1
    ensures |Admit(c, s, input, id).sessions| == if input.namespace in s.sessions then |s.sessions| else |s.sessions| + 1
  {
    var next := Admit(c, s, input, id);
    SizeWith(s.jobs, id, next.jobs[id]);
    SizeWith(s.sessions, input.namespace, next.sessions[input.namespace]);
  }

  /** What an input that creates a job found. */
  predicate Admissible(c: Config, s: State, input: Submission) {
    && input.prepared.Prepared? && !s.disposed
    && ActiveOf(s, input.namespace).None? && |s.queue| < MAX_QUEUED
    && (input.namespace in s.sessions || |s.sessions| < MAX_SESSIONS)
    && SpendOf(s, input.namespace).Plus(c.request).AtMost(c.session)
  }

  lemma {:induction false} UnansweredIsAdmissible(c: Config, s: State, input: Submission)
    requires Answered(c, s, input).None?
    ensures Admissible(c, s, input)
  {
  }

  lemma {:induction false} AdmitValid(c: Config, s: State, input: Submission, id: Id)
    requires Valid(s) && id !in s.order && Admissible(c, s, input)
    ensures Valid(Trim(Admit(c, s, input, id)))
  {
    KnownIds(s);
    AdmitCore(c, s, input, id);
    AdmitSizes(c, s, input, id);
    TrimCore(Admit(c, s, input, id));
  }

  lemma {:induction false} SubmitValid(c: Config, s: State, input: Submission, id: Id)
    requires Valid(s) && id !in s.order
    ensures Valid(Submit(c, s, input, id))
  {
    if Answered(c, s, input).None? {
      UnansweredIsAdmissible(c, s, input);
      AdmitValid(c, s, input, id);
      assert Submit(c, s, input, id) == Trim(Admit(c, s, input, id));
    }
  }

  lemma {:induction false} StaleCore(s: State, id: Id)
    requires Core(s) && id in s.jobs && (id in s.pending ==> s.pending[id].settled || s.pending[id].aborted)
    requires id !in s.queue
    ensures Core(Stale(s, id)) && |Stale(s, id).jobs| == |s.jobs| && |Stale(s, id).cache| <= |s.cache|
    ensures s.cache == [] ==> Stale(s, id).cache == []
  {
    var next := Stale(s, id);
    SizeWith(s.jobs, id, next.jobs[id]);
    WithoutJobIs(s.cache, id);
    forall x | x in next.pending
      ensures WorkValid(next, x)
    {
      assert WorkValid(s, x);
    }
    forall x | x in next.jobs
      ensures JobValid(next, x)
    {
      assert JobValid(s, x);
    }
  }

  lemma {:induction false} CancelValid(c: Config, s: State, id: Id)
    requires Valid(s)
    ensures Valid(Cancel(c, s, id)) && CancelKeeps(s, id, Cancel(c, s, id))
  {
    CancelCore(c, s, id);
    CancelQuiet(c, s, id);
  }

  lemma {:induction false} CancelQuiet(c: Config, s: State, id: Id)
    requires Quiet(s) && CancelKeeps(s, id, Cancel(c, s, id))
    ensures Quiet(Cancel(c, s, id))
  {
    FirstIsIn(Cancel(c, s, id).queue);
  }

  lemma {:induction false} GetValid(c: Config, s: State, id: Id, source: Option<Text>)
    requires Valid(s)
    ensures Valid(Get(c, s, id, source))
  {
    if id in s.jobs && source.Some? && s.jobs[id].sourceKey != source.value {
      CancelValid(c, s, id);
      StaleCore(Cancel(c, s, id), id);
    }
  }

  lemma {:induction false} PumpValid(s: State)
    requires Valid(s)
    ensures Valid(Pump(s))
  {
    PumpCore(s);
  }

  /** The race is over without a publication. */
  lemma {:induction false} DecideCore(s: State, id: Id, work: Work, job: Job)
    requires Core(s) && Racing(s, id) && id in s.jobs && work.settled
    requires work.session == s.pending[id].session && job.published == s.jobs[id].published
    requires if s.jobs[id].status == Running then job.status == Rejected || job.status == Failed else job == s.jobs[id]
    ensures Core(s.(pending := s.pending[id := work], jobs := s.jobs[id := job]))
    ensures |s.jobs[id := job]| == |s.jobs|
  {
    var next := s.(pending := s.pending[id := work], jobs := s.jobs[id := job]);
    assert WorkValid(s, id) && JobValid(s, id);
    SizeWith(s.jobs, id, job);
    SizeWith(s.pending, id, work);
    forall x | x in next.pending
      ensures WorkValid(next, x)
    {
      assert WorkValid(s, x);
    }
    forall x | x in next.jobs
      ensures JobValid(next, x)
    {
      assert JobValid(s, x);
    }
  }

  lemma {:induction false} PublishCore(s: State, id: Id, work: Work)
    requires Core(s) && Racing(s, id) && id in s.jobs && s.jobs[id].status == Running && work.settled
    requires work.session == s.pending[id].session
    ensures var cached := s.(pending := s.pending[id := work], jobs := s.jobs[id := s.jobs[id].(status := Completed, published := true)],
                             cache := Put(s.cache, work.cacheKey, id));
            Core(cached) && |cached.jobs| == |s.jobs|
  {
    var job := s.jobs[id].(status := Completed, published := true);
    var next := s.(pending := s.pending[id := work], jobs := s.jobs[id := job], cache := Put(s.cache, work.cacheKey, id));
    assert WorkValid(s, id) && JobValid(s, id);
    SizeWith(s.jobs, id, job);
    SizeWith(s.pending, id, work);
    PutIs(s.cache, work.cacheKey, id);
    forall x | x in next.pending
      ensures WorkValid(next, x)
    {
      assert WorkValid(s, x);
    }
    forall x | x in next.jobs
      ensures JobValid(next, x)
    {
      assert JobValid(s, x);
    }
  }

  /** The outcomes that publish. */
  predicate Publishes(c: Config, s: State, id: Id, outcome: Outcome)
    requires id in s.pending
  {
    outcome.Delivered? && !s.pending[id].aborted && !OverBudget(c, outcome.usage) && outcome.verdict.Sound?
  }

  lemma {:induction false} SettlePublishes(c: Config, s: State, id: Id, outcome: Outcome)
    requires Valid(s) && Racing(s, id) && Publishes(c, s, id, outcome)
    ensures Valid(Settle(c, s, id, outcome))
  {
    assert WorkValid(s, id);
    var s1 := Noted(s, id, outcome);
    PublishCore(s, id, s1.pending[id]);
    TrimCore(s1.(jobs := s1.jobs[id := s1.jobs[id].(status := Completed, published := true)],
                 cache := Put(s1.cache, s1.pending[id].cacheKey, id)));
  }

  lemma {:induction false} SettleDecides(c: Config, s: State, id: Id, outcome: Outcome) returns (job: Job)
    requires Racing(s, id) && id in s.jobs && !Publishes(c, s, id, outcome)
    requires s.jobs[id].status == Running <==> !s.pending[id].aborted
    ensures Settle(c, s, id, outcome) == s.(pending := s.pending[id := Noted(s, id, outcome).pending[id]], jobs := s.jobs[id := job])
    ensures job.published == s.jobs[id].published
    ensures if s.jobs[id].status == Running then job.status == Rejected || job.status == Failed else job == s.jobs[id]
  {
    job := Settle(c, s, id, outcome).jobs[id];
    assert s.jobs[id := s.jobs[id]] == s.jobs;
  }

  lemma {:induction false} SettleValid(c: Config, s: State, id: Id, outcome: Outcome)
    requires Valid(s) && Racing(s, id)
    ensures Valid(Settle(c, s, id, outcome))
  {
    if Publishes(c, s, id, outcome) {
      SettlePublishes(c, s, id, outcome);
    } else {
      assert WorkValid(s, id);
      var job := SettleDecides(c, s, id, outcome);
      DecideCore(s, id, Noted(s, id, outcome).pending[id], job);
    }
  }

  lemma {:induction false} FinishValid(c: Config, s: State, id: Id, late: Option<Usage>)
    requires Valid(s) && CleaningUp(s, id)
    ensures Valid(Finish(c, s, id, late))
  {
    var usage := if late.Some? then late.value else s.pending[id].usage;
    ReleasedCore(s, id, Actual(c, usage).Minus(c.request));
    PumpValid(Released(s, id, Actual(c, usage).Minus(c.request)));
  }

  function Released(s: State, id: Id, extra: Tokens): State
    requires id in s.pending
  {
    Release(s.(sessions := Charge(s.sessions, s.pending[id].session, extra), running := s.running - 1), id)
  }

  lemma {:induction false} ReleasedWorks(s: State, id: Id, extra: Tokens)
    requires WorksValid(s) && CleaningUp(s, id)
    ensures WorksValid(Released(s, id, extra))
  {
    var next := Released(s, id, extra);
    assert WorkValid(s, id);
    forall x | x in next.pending
      ensures WorkValid(next, x)
    {
      assert WorkValid(s, x);
    }
  }

  lemma {:induction false} ReleasedJobs(s: State, id: Id, extra: Tokens)
    requires WorksValid(s) && JobsValid(s) && CleaningUp(s, id)
    ensures JobsValid(Released(s, id, extra))
  {
    var next := Released(s, id, extra);
    assert WorkValid(s, id);
    forall x | x in next.jobs
      ensures JobValid(next, x)
    {
      assert JobValid(s, x);
    }
  }

  lemma {:induction false} ReleasedSessions(s: State, id: Id, extra: Tokens)
    requires SessionsValid(s) && id in s.pending && s.pending[id].session in s.sessions
    ensures SessionsValid(Released(s, id, extra)) && |Released(s, id, extra).sessions| == |s.sessions|
  {
    var next := Released(s, id, extra);
    assert next.sessions.Keys == s.sessions.Keys;
    assert |next.sessions| == |next.sessions.Keys| && |s.sessions| == |s.sessions.Keys|;
  }

  lemma {:induction false} ReleasedCore(s: State, id: Id, extra: Tokens)
    requires Valid(s) && CleaningUp(s, id)
    ensures Valid(Released(s, id, extra))
  {
    assert WorkValid(s, id);
    ReleasedWorks(s, id, extra);
    ReleasedJobs(s, id, extra);
    ReleasedSessions(s, id, extra);
    SizeWithout(s.pending, id);
    QueuedStayPending(s, id);
  }

  lemma {:induction false} QueuedStayPending(s: State, id: Id)
    requires Core(s) && id in s.pending && id !in s.queue
    ensures |s.pending| > |s.queue| && s.running > 0
  {
    assert |s.pending.Keys| == |s.pending|;
    var queued := set x | x in s.queue;
    QueueSize(s.queue);
    assert queued <= s.pending.Keys - {id};
    Subset(queued, s.pending.Keys - {id});
  }

  lemma {:induction false} QueueSize(queue: seq<Id>)
    requires Distinct(queue)
    ensures |set x | x in queue| == |queue|
  {
    if queue != [] {
      QueueSize(queue[1..]);
      assert (set x | x in queue) == (set x | x in queue[1..]) + {queue[0]};
    }
  }

  lemma {:induction false} RestoreValid(s: State, key: Namespace, usage: Tokens)
    requires Valid(s) && (key in s.sessions || |s.sessions| < MAX_SESSIONS)
    ensures Valid(Restore(s, key, usage))
  {
    var next := Restore(s, key, usage);
    SizeWith(s.sessions, key, next.sessions[key]);
    forall x | x in next.pending
      ensures WorkValid(next, x)
    {
      assert WorkValid(s, x);
    }
    forall x | x in next.jobs
      ensures JobValid(next, x)
    {
      assert JobValid(s, x);
    }
  }

  /** No job of the list is queued or can still be published. */
  ghost predicate Silenced(s: State, ids: seq<Id>) {
    forall id :: id in ids && id in s.pending ==> id !in s.queue && (s.pending[id].settled || s.pending[id].aborted)
  }

  lemma {:induction false} CancelAllCore(c: Config, s: State, done: seq<Id>, ids: seq<Id>)
    requires Core(s) && Silenced(s, done)
    ensures Core(CancelAll(c, s, ids)) && Silenced(CancelAll(c, s, ids), done + ids)
    ensures |CancelAll(c, s, ids).jobs| == |s.jobs| && |CancelAll(c, s, ids).sessions| == |s.sessions|
    ensures CancelAll(c, s, ids).order == s.order && CancelAll(c, s, ids).disposed == s.disposed
    decreases |ids|
  {
    if ids == [] {
      assert done + ids == done;
    } else {
      CancelCore(c, s, ids[0]);
      CancelAllCore(c, Cancel(c, s, ids[0]), done + [ids[0]], ids[1..]);
      assert done + ids == done + [ids[0]] + ids[1..];
    }
  }

  lemma {:induction false} DisposeValid(c: Config, s: State)
    requires Valid(s)
    ensures Valid(Dispose(c, s)) && Dispose(c, s).disposed
  {
    var closing := s.(disposed := true);
    DisposedCore(s);
    CancelAllCore(c, closing, [], s.order);
    var closed := CancelAll(c, closing, s.order);
    assert [] + s.order == s.order;
    SameButCache(closed, []);
    AllSilenced(closed);
  }

  lemma {:induction false} DisposedCore(s: State)
    requires Core(s)
    ensures Core(s.(disposed := true))
  {
    var next := s.(disposed := true);
    forall x | x in next.pending
      ensures WorkValid(next, x)
    {
      assert WorkValid(s, x);
    }
    forall x | x in next.jobs
      ensures JobValid(next, x)
    {
      assert JobValid(s, x);
    }
  }

  lemma {:induction false} AllSilenced(s: State)
    requires Core(s) && Silenced(s, s.order)
    ensures s.queue == [] && forall id :: id in s.pending ==> s.pending[id].settled || s.pending[id].aborted
  {
    forall id | id in s.pending
      ensures id in s.order
    {
      assert WorkValid(s, id);
      assert JobValid(s, id);
    }
    FirstIsIn(s.queue);
  }

  // ---------------------------------------------------------------------- every run

  lemma {:induction false} InitialValid()
    ensures Valid(INITIAL)
  {
  }

  /** Every entry point, timer and provider reply keeps the invariant. */
  lemma {:induction false} StepValid(c: Config, s: State, e: Event)
    requires Valid(s)
    ensures Valid(Step(c, s, e))
  {
    if !Possible(s, e) {
      return;
    }
    match e
    case SubmitEvent(input, id) => SubmitValid(c, s, input, id);
    case GetEvent(id, source) => GetValid(c, s, id, source);
    case CancelEvent(id) => CancelValid(c, s, id);
    case PumpEvent => PumpValid(s);
    case SettleEvent(id, outcome) => SettleValid(c, s, id, outcome);
    case FinishEvent(id, late) => FinishValid(c, s, id, late);
    case RestoreEvent(key, usage) => RestoreValid(s, key, usage);
    case DisposeEvent => DisposeValid(c, s);
  }

  lemma {:induction false} FollowsValid(c: Config, s: State, e: Event, next: State)
    requires Valid(s) && Follows(c, s, e, next)
    ensures Valid(next)
  {
    assert next == Step(c, s, e);
    StepValid(c, s, e);
  }

  /**
   * In every reachable state the pending jobs are the queued and the running ones, at most two run and
   * sixteen wait, no session has two active jobs, and cached ids name completed jobs.
   */
  lemma {:induction false} ExecutionValid(c: Config, states: seq<State>, events: seq<Event>, n: nat)
    requires Execution(c, states, events) && Valid(states[0]) && n <= |events|
    ensures Valid(states[n])
  {
    if n > 0 {
      ExecutionValid(c, states, events, n - 1);
      FollowsValid(c, states[n - 1], events[n - 1], states[n]);
    }
  }
}
