/** What each entry point of the manager does to a job, its session and the queue, and which work a known job is. */
module EnhancementJobs {
  import opened Texts
  import opened Enhancement
  import opened EnhancementProof

  // ----------------------------------------------------------------------- answers

  /** The oldest cached entry of the key. */
  ghost predicate CachedFirst(cache: seq<Cached>, key: Digest, id: Id) {
    exists k :: 0 <= k < |cache| && cache[k] == Cached(key, id) && forall j :: 0 <= j < k ==> cache[j].key != key
  }

  lemma {:induction false} LookupIs(cache: seq<Cached>, key: Digest, id: Id)
    ensures Lookup(cache, key) == Some(id) <==> CachedFirst(cache, key, id)
  {
    if cache != [] && cache[0].key != key {
      LookupIs(cache[1..], key, id);
      if CachedFirst(cache, key, id) {
        var k :| 0 <= k < |cache| && cache[k] == Cached(key, id) && forall j :: 0 <= j < k ==> cache[j].key != key;
        assert cache[1..][k - 1] == cache[k];
        assert forall j :: 0 <= j < k - 1 ==> cache[1..][j] == cache[j + 1];
      }
      if CachedFirst(cache[1..], key, id) {
        var k :| 0 <= k < |cache[1..]| && cache[1..][k] == Cached(key, id) && forall j :: 0 <= j < k ==> cache[1..][j].key != key;
        assert cache[k + 1] == cache[1..][k];
        assert forall j :: 0 < j < k + 1 ==> cache[j] == cache[1..][j - 1];
      }
    }
  }

  ghost predicate Fits(text: Text, limit: nat) {
    0 < |text| <= limit
  }

  ghost predicate WellFormed(input: Submission) {
    && Fits(input.sourceKey, 256) && Fits(input.namespace.projectId, 4096) && Fits(input.namespace.sessionId, 4096)
    && 0 < |input.sourceIds| <= 4096 && Distinct(input.sourceIds) && forall id :: id in input.sourceIds ==> Fits(id, 4096)
  }

  ghost predicate Open(c: Config, s: State, input: Submission) {
    !s.disposed && c.enabled && WellFormed(input)
  }

  ghost predicate Readable(c: Config, input: Submission) {
    input.prepared.Prepared? && input.prepared.envelopeBytes <= 131072 && input.prepared.envelopeTokens <= c.request.input
  }

  /** The work of the submission is done already. */
  ghost predicate Done(s: State, input: Submission)
    requires input.prepared.Prepared?
  {
    exists id :: CachedFirst(s.cache, input.prepared.cacheKey, id) && id in s.jobs
  }

  ghost predicate Busy(s: State, key: Namespace) {
    key in s.sessions && s.sessions[key].active.Some?
  }

  /** The session's active job is the work of the submission. */
  ghost predicate UnderWay(s: State, input: Submission)
    requires input.prepared.Prepared?
  {
    && Busy(s, input.namespace) && s.sessions[input.namespace].active.value in s.pending
    && s.pending[s.sessions[input.namespace].active.value].cacheKey == input.prepared.cacheKey
  }

  /** The session can still pay for one request in full. */
  ghost predicate Affords(c: Config, s: State, key: Namespace) {
    var spend := if key in s.sessions then s.sessions[key].spend else Tokens(0, 0);
    spend.input + c.request.input <= c.session.input && spend.output + c.request.output <= c.session.output
  }

  /** What the caller of `submit` is told, in the order of its tests; `id` is the fresh id. */
  ghost predicate Replies(c: Config, s: State, input: Submission, id: Id, reply: Reply) {
    if !Open(c, s, input) then
      reply == Refused(if s.disposed then Disposed else if !c.enabled then Disabled else InvalidSource)
    else if !Readable(c, input) then
      reply == Refused(if input.prepared.Unpreparable? then InvalidInput else InputBudget)
    else if Done(s, input) then
      reply.Known? && CachedFirst(s.cache, input.prepared.cacheKey, reply.id) && reply.id in s.jobs
    else if Busy(s, input.namespace) then
      reply == if UnderWay(s, input) then Known(s.sessions[input.namespace].active.value) else Refused(SessionBusy)
    else if |s.queue| >= 16 then reply == Refused(QueueFull)
    else if input.namespace !in s.sessions && |s.sessions| >= 128 then reply == Refused(SessionCapacity)
    else reply == if Affords(c, s, input.namespace) then Accepted(id) else Refused(SessionBudget)
  }

  lemma WellFormedIs(input: Submission)
    ensures WellFormed(input) <==> SourceValid(input)
  {
    if WellFormed(input) {
      assert forall i :: 0 <= i < |input.sourceIds| ==> input.sourceIds[i] in input.sourceIds;
    }
  }

  lemma AnsweredIs(c: Config, s: State, input: Submission, id: Id)
    ensures Replies(c, s, input, id, match Answered(c, s, input) case Some(given) => given case None => Accepted(id))
  {
    WellFormedIs(input);
    if Open(c, s, input) && Readable(c, input) {
      var hit := Lookup(s.cache, input.prepared.cacheKey);
      if hit.Some? {
        LookupIs(s.cache, input.prepared.cacheKey, hit.value);
      }
      forall known
        ensures CachedFirst(s.cache, input.prepared.cacheKey, known) <==> hit == Some(known)
      {
        LookupIs(s.cache, input.prepared.cacheKey, known);
      }
    }
  }

  /** A job that is taken waits at the end of the queue, with one full request reserved. */
  ghost predicate Taken(c: Config, s: State, input: Submission, id: Id, next: State)
    requires input.prepared.Prepared?
  {
    var key := input.namespace;
    var spend := if key in s.sessions then s.sessions[key].spend else Tokens(0, 0);
    && next.sessions ==
       s.sessions[key := Session(Tokens(spend.input + c.request.input, spend.output + c.request.output), Some(id))]
    && id in next.jobs && next.jobs[id] == Job(Queued, input.sourceKey, None, false)
    && next.pending == s.pending[id := Work(key, input.prepared.cacheKey, false, false, Usage(None, None))]
    && next.queue == s.queue + [id] && next.order == s.order + [id] && next.running == s.running
  }

  lemma SubmitTakes(c: Config, s: State, input: Submission, id: Id)
    requires Answered(c, s, input).None?
    ensures Taken(c, s, input, id, Submit(c, s, input, id))
  {
    TrimFromKeeps(Admit(c, s, input, id), 0);
  }

  // ----------------------------------------------------------------------- pumping

  /** The first `k` jobs of the queue start, as many as there are permits for, and nothing else changes. */
  ghost predicate PumpedBy(s: State, next: State, k: nat) {
    && k <= |s.queue| && next.queue == s.queue[k..] && next.running == s.running + k
    && (k > 0 ==> !s.disposed && next.running <= 2) && (s.disposed || next.running >= 2 || next.queue == [])
    && next.jobs.Keys == s.jobs.Keys
    && (forall id :: id in s.jobs ==>
          next.jobs[id] == if id in s.queue[..k] then Job(Running, s.jobs[id].sourceKey, None, s.jobs[id].published) else s.jobs[id])
    && next.sessions == s.sessions && next.pending == s.pending && next.cache == s.cache
    && next.order == s.order && next.disposed == s.disposed
  }

  ghost predicate Pumped(s: State, next: State) {
    exists k :: PumpedBy(s, next, k)
  }

  lemma {:induction false} PumpIs(s: State) returns (k: nat)
    ensures PumpedBy(s, Pump(s), k)
    decreases |s.queue|
  {
    k := 0;
    if !s.disposed && s.running < MAX_RUNNING && s.queue != [] {
      var rest := PumpIs(Start(s));
      k := rest + 1;
      StartedFirst(s, Pump(s), rest);
    } else {
      assert s.queue[..0] == [] && s.queue[0..] == s.queue;
    }
  }

  lemma StartedFirst(s: State, next: State, k: nat)
    requires !s.disposed && s.running < MAX_RUNNING && s.queue != [] && PumpedBy(Start(s), next, k)
    ensures PumpedBy(s, next, k + 1)
  {
    var started := Start(s);
    assert s.queue[1..][k..] == s.queue[k + 1..];
    assert s.queue[..k + 1] == [s.queue[0]] + s.queue[1..][..k];
    forall id | id in s.jobs
      ensures next.jobs[id] ==
              if id in s.queue[..k + 1] then Job(Running, s.jobs[id].sourceKey, None, s.jobs[id].published) else s.jobs[id]
    {
      assert id in started.jobs;
    }
    assert started.jobs.Keys == s.jobs.Keys;
  }

  // --------------------------------------------------------------------- cancelling

  function Called(job: Job): Job {
    Job(Cancelled, job.sourceKey, Some(WasCancelled), job.published)
  }

  /** A queued job leaves the queue and its session, with one full request given back. */
  ghost predicate Withdrawn(c: Config, s: State, id: Id, next: State)
    requires id in s.pending && id in s.jobs && s.pending[id].session in s.sessions
  {
    var key, spend := s.pending[id].session, s.sessions[s.pending[id].session].spend;
    && (exists i :: 0 <= i < |s.queue| && s.queue[i] == id && next.queue == s.queue[..i] + s.queue[i + 1..])
    && next.jobs == s.jobs[id := Called(s.jobs[id])] && next.pending == s.pending - {id}
    && next.sessions == s.sessions[key := Session(Tokens(spend.input - c.request.input, spend.output - c.request.output), None)]
    && next.cache == s.cache && next.order == s.order && next.running == s.running && next.disposed == s.disposed
  }

  /** A running job is called off: its signal fires, and it keeps its permit and its reservation. */
  ghost predicate CalledOff(s: State, id: Id, next: State)
    requires id in s.pending && id in s.jobs
  {
    var work := s.pending[id];
    next == s.(jobs := s.jobs[id := Called(s.jobs[id])],
               pending := s.pending[id := Work(work.session, work.cacheKey, true, work.settled, work.usage)])
  }

  ghost predicate Cancels(c: Config, s: State, id: Id, next: State)
    requires Core(s)
  {
    if id !in s.pending || (assert WorkValid(s, id); s.jobs[id].status == Completed) then next == s
    else if id in s.queue then (assert WorkValid(s, id); exists mid :: Withdrawn(c, s, id, mid) && Pumped(mid, next))
    else (assert WorkValid(s, id); CalledOff(s, id, next))
  }

  lemma {:induction false} DropAt(queue: seq<Id>, id: Id) returns (i: nat)
    requires id in queue
    ensures i < |queue| && queue[i] == id && Drop(queue, id) == queue[..i] + queue[i + 1..]
  {
    i := 0;
    if queue[0] != id {
      var j := DropAt(queue[1..], id);
      i := j + 1;
      assert queue[..i] == [queue[0]] + queue[1..][..j];
    }
  }

  lemma CancelIs(c: Config, s: State, id: Id)
    requires Core(s)
    ensures Cancels(c, s, id, Cancel(c, s, id))
  {
    if id in s.pending {
      assert WorkValid(s, id);
      if Cancellable(s, id) && id in s.queue {
        var i := DropAt(s.queue, id);
        var mid := Withdraw(c, s, id);
        WithdrawIs(c, s, id, i);
        var k := PumpIs(mid);
        assert Pumped(mid, Pump(mid));
      }
    }
  }

  lemma WithdrawIs(c: Config, s: State, id: Id, i: nat)
    requires id in s.pending && WorkValid(s, id)
    requires i < |s.queue| && s.queue[i] == id && Drop(s.queue, id) == s.queue[..i] + s.queue[i + 1..]
    ensures Withdrawn(c, s, id, Withdraw(c, s, id))
  {
    var key, spend := s.pending[id].session, s.sessions[s.pending[id].session].spend;
    assert Withdraw(c, s, id).sessions ==
           s.sessions[key := Session(Tokens(spend.input - c.request.input, spend.output - c.request.output), None)];
  }

  // ----------------------------------------------------------------------- settling

  /** What becomes of the job when its race ends; a job that was called off before stays as it is. */
  ghost predicate Ends(c: Config, job: Job, aborted: bool, outcome: Outcome, ended: Job) {
    if aborted then ended == job
    else if outcome.Delivered? && Exceeds(c, outcome.usage) then
      ended == Job(Rejected, job.sourceKey, Some(ProviderBudget), job.published)
    else if outcome.Delivered? && outcome.verdict.Sound? then ended == Job(Completed, job.sourceKey, job.reason, true)
    else if outcome.Delivered? && outcome.verdict.Flawed? then
      ended == Job(Rejected, job.sourceKey, Some(BadEntries), job.published)
    else ended == Job(Failed, job.sourceKey, Some(if outcome.Expired? then TimedOut else ProviderError), job.published)
  }

  /** A count above the ceiling, where an unknown one counts as nothing. */
  ghost predicate Exceeds(c: Config, usage: Usage) {
    || (if usage.input.Some? then usage.input.value else 0) > c.request.input
    || (if usage.output.Some? then usage.output.value else 0) > c.request.output
  }

  /** The usage that a race leaves: what the provider reported, if it came to that. */
  ghost predicate Reports(outcome: Outcome, usage: Usage) {
    usage == if outcome.Delivered? || outcome.Rejection? then outcome.usage else Usage(None, None)
  }

  ghost predicate RaceEnds(c: Config, s: State, id: Id, outcome: Outcome, next: State)
    requires id in s.pending && id in s.jobs
  {
    var work := s.pending[id];
    && id in next.jobs && Ends(c, s.jobs[id], work.aborted, outcome, next.jobs[id])
    && id in next.pending && Reports(outcome, next.pending[id].usage)
    && next.pending ==
       s.pending[id := Work(work.session, work.cacheKey, work.aborted || outcome.Expired?, true, next.pending[id].usage)]
    && next.sessions == s.sessions && next.queue == s.queue && next.running == s.running && next.order == s.order
    && next.disposed == s.disposed
    && (forall other :: other in next.jobs && other != id ==> other in s.jobs && next.jobs[other] == s.jobs[other])
  }

  lemma SettleEnds(c: Config, s: State, id: Id, outcome: Outcome)
    requires Valid(s) && Racing(s, id)
    ensures WorkValid(s, id) && RaceEnds(c, s, id, outcome, Settle(c, s, id, outcome))
    ensures Settle(c, s, id, outcome).jobs[id].status == Completed ==>
              Cached(s.pending[id].cacheKey, id) in Settle(c, s, id, outcome).cache
  {
    assert WorkValid(s, id);
    if Publishes(c, s, id, outcome) {
      SoundEnds(c, s, id, outcome);
    } else {
      var job := SettleDecides(c, s, id, outcome);
    }
  }

  lemma SoundEnds(c: Config, s: State, id: Id, outcome: Outcome)
    requires id in s.pending && id in s.jobs && Publishes(c, s, id, outcome) && |s.cache| <= MAX_CACHED
    ensures RaceEnds(c, s, id, outcome, Settle(c, s, id, outcome))
    ensures Cached(s.pending[id].cacheKey, id) in Settle(c, s, id, outcome).cache
  {
    var s1 := Noted(s, id, outcome);
    var published := s1.(jobs := s1.jobs[id := s1.jobs[id].(status := Completed, published := true)],
                         cache := Put(s1.cache, s1.pending[id].cacheKey, id));
    TrimFromKeeps(published, 0);
    PutSize(s1.cache, s1.pending[id].cacheKey, id);
    TrimKeepsEntry(published, 0, Cached(s.pending[id].cacheKey, id));
  }

  lemma {:induction false} PutSize(cache: seq<Cached>, key: Digest, id: Id)
    ensures var put := Put(cache, key, id);
            && Cached(key, id) in put
            && (|put| == |cache| || (|put| == |cache| + 1 && put[|cache|] == Cached(key, id)))
  {
    if cache != [] && cache[0].key != key {
      PutSize(cache[1..], key, id);
    }
  }

  lemma {:induction false} WithoutJobLast(cache: seq<Cached>, id: Id)
    requires cache != [] && cache[|cache| - 1].id != id
    ensures var left := WithoutJob(cache, id); left != [] && |left| <= |cache| && left[|left| - 1] == cache[|cache| - 1]
  {
    if |cache| > 1 {
      WithoutJobLast(cache[1..], id);
    }
  }

  /** Trimming drops no entry of a pending job but from the front of a full cache. */
  lemma {:induction false} TrimKeepsEntry(s: State, i: nat, entry: Cached)
    requires entry in s.cache && entry.id in s.pending
    requires |s.cache| <= MAX_CACHED || s.cache[|s.cache| - 1] == entry
    ensures entry in Newest(TrimFrom(s, i).cache)
    decreases |s.order| - i
  {
    if i < |s.order| && |s.jobs| > MAX_JOBS {
      if Deletable(s, s.order[i]) {
        WithoutJobIs(s.cache, s.order[i]);
        if s.cache[|s.cache| - 1] == entry {
          WithoutJobLast(s.cache, s.order[i]);
        }
        TrimKeepsEntry(Delete(s, s.order[i]), i + 1, entry);
      } else {
        TrimKeepsEntry(s, i + 1, entry);
      }
    } else if |s.cache| > MAX_CACHED {
      var newest := Newest(s.cache);
      assert newest[|newest| - 1] == entry;
    }
  }

  /**
   * The provider's own end: what it used takes the place of the reservation, an unknown count keeps it, the
   * permit returns and the queue moves on.
   */
  ghost predicate Returned(c: Config, s: State, id: Id, late: Option<Usage>, mid: State)
    requires id in s.pending && s.pending[id].session in s.sessions
  {
    var usage := if late.Some? then late.value else s.pending[id].usage;
    var key, spend := s.pending[id].session, s.sessions[s.pending[id].session].spend;
    var used := Tokens(if usage.input.Some? then usage.input.value else c.request.input,
                       if usage.output.Some? then usage.output.value else c.request.output);
    mid == s.(
      sessions := s.sessions[key := Session(Tokens(spend.input - c.request.input + used.input,
                                                   spend.output - c.request.output + used.output), None)],
      pending := s.pending - {id}, running := s.running - 1)
  }

  lemma FinishReturns(c: Config, s: State, id: Id, late: Option<Usage>)
    requires Valid(s) && CleaningUp(s, id)
    ensures WorkValid(s, id) && exists mid :: Returned(c, s, id, late, mid) && Pumped(mid, Finish(c, s, id, late))
  {
    assert WorkValid(s, id);
    var usage := if late.Some? then late.value else s.pending[id].usage;
    var mid := Released(s, id, Actual(c, usage).Minus(c.request));
    ReleasedReturns(c, s, id, late, usage);
    PumpedPump(mid);
  }

  lemma PumpedPump(s: State)
    ensures Pumped(s, Pump(s))
  {
    var k := PumpIs(s);
  }

  lemma ReleasedReturns(c: Config, s: State, id: Id, late: Option<Usage>, usage: Usage)
    requires WorkPending(s, id) && usage == if late.Some? then late.value else s.pending[id].usage
    ensures Returned(c, s, id, late, Released(s, id, Actual(c, usage).Minus(c.request)))
  {
  }

  ghost predicate WorkPending(s: State, id: Id) {
    id in s.pending && s.pending[id].session in s.sessions
  }

  // ----------------------------------------------------------------- asking, restoring

  /** The job belongs to another source than the caller's current one. */
  predicate Overtaken(s: State, id: Id, source: Option<Text>) {
    id in s.jobs && source.Some? && s.jobs[id].sourceKey != source.value
  }

  /** It is cancelled, carries no result any more, and no cached entry names it. */
  ghost predicate Outdated(c: Config, s: State, id: Id, next: State)
    requires Core(s) && id in s.jobs
  {
    exists mid :: Cancels(c, s, id, mid) && id in mid.jobs
                  && next == mid.(jobs := mid.jobs[id := Job(Rejected, mid.jobs[id].sourceKey, Some(StaleSource), false)],
                                  cache := next.cache)
                  && forall entry :: entry in next.cache <==> entry in mid.cache && entry.id != id
  }

  lemma GetIs(c: Config, s: State, id: Id, source: Option<Text>)
    requires Core(s)
    ensures if Overtaken(s, id, source) then Outdated(c, s, id, Get(c, s, id, source)) else Get(c, s, id, source) == s
  {
    if Overtaken(s, id, source) {
      CancelIs(c, s, id);
      CancelCore(c, s, id);
      var mid := Cancel(c, s, id);
      WithoutJobIs(mid.cache, id);
      assert Cancels(c, s, id, mid);
    }
  }

  /** A restore only raises what is spent, and leaves the active job alone. */
  ghost predicate Restored(sessions: map<Namespace, Session>, key: Namespace, usage: Tokens, now: Session) {
    if key in sessions then
      && now.active == sessions[key].active
      && now.spend.input == (if usage.input > sessions[key].spend.input then usage.input else sessions[key].spend.input)
      && now.spend.output == (if usage.output > sessions[key].spend.output then usage.output else sessions[key].spend.output)
    else now == Session(usage, None)
  }

  lemma RestoreIs(s: State, key: Namespace, usage: Tokens)
    ensures var next := Restore(s, key, usage);
            && key in next.sessions && Restored(s.sessions, key, usage, next.sessions[key])
            && next.sessions - {key} == s.sessions - {key} && next == s.(sessions := next.sessions)
  {
  }

  // ---------------------------------------------------------------------- disposing

  /** What disposal makes of a job. */
  ghost predicate ShutDown(s: State, id: Id, next: State)
    requires id in s.jobs
  {
    && id in next.jobs
    && next.jobs[id] == (if id in s.pending && s.jobs[id].status != Completed then Called(s.jobs[id]) else s.jobs[id])
    && (id in next.pending <==> id in s.pending && id !in s.queue)
    && (id in next.pending ==>
          next.pending[id] == s.pending[id].(aborted := s.pending[id].aborted || s.jobs[id].status != Completed))
  }

  /** A list of cancellations after disposal cancels each job of the list as the first state finds it. */
  lemma {:induction false} CancelAllShuts(c: Config, s: State, ids: seq<Id>, id: Id)
    requires Core(s) && s.disposed && id in s.jobs
    ensures id in ids ==> ShutDown(s, id, CancelAll(c, s, ids))
    ensures id !in ids ==> Untouched(s, id, CancelAll(c, s, ids))
    ensures CancelAll(c, s, ids).running == s.running
    decreases |ids|
  {
    if ids != [] {
      var next := Cancel(c, s, ids[0]);
      CancelCore(c, s, ids[0]);
      CancelOne(c, s, ids[0], id);
      CancelAllShuts(c, next, ids[1..], id);
      assert ids == [ids[0]] + ids[1..];
    }
  }

  ghost predicate Untouched(s: State, id: Id, next: State)
    requires id in s.jobs
  {
    && id in next.jobs && next.jobs[id] == s.jobs[id]
    && (id in next.pending <==> id in s.pending) && (id in next.pending ==> next.pending[id] == s.pending[id])
    && (id in next.queue <==> id in s.queue)
  }

  lemma CancelOne(c: Config, s: State, named: Id, id: Id)
    requires Core(s) && s.disposed && id in s.jobs
    ensures id == named ==> ShutDown(s, id, Cancel(c, s, named)) && id !in Cancel(c, s, named).queue
    ensures id != named ==> Untouched(s, id, Cancel(c, s, named))
    ensures Cancel(c, s, named).running == s.running
  {
    if named in s.pending {
      assert WorkValid(s, named);
    }
    if named in s.queue {
      DropIs(s.queue, named);
    }
  }

  lemma DisposeShuts(c: Config, s: State, id: Id)
    requires Valid(s) && id in s.jobs
    ensures ShutDown(s, id, Dispose(c, s))
  {
    var closing := s.(disposed := true);
    assert JobValid(s, id);
    DisposedCore(s);
    CancelAllShuts(c, closing, s.order, id);
    assert ShutDown(closing, id, CancelAll(c, closing, s.order));
  }

  // ----------------------------------------------------------------------- trimming

  ghost predicate Terminal(s: State, id: Id) {
    id in s.jobs && id !in s.pending && s.jobs[id].status in {Completed, Rejected, Status.Failed, Cancelled}
  }

  /** The job stands in the list behind no terminal one that is kept. */
  ghost predicate OldestFirst(s: State, next: State, from: nat, id: Id) {
    exists b :: from <= b < |s.order| && s.order[b] == id
                && forall a :: from <= a < b && Terminal(s, s.order[a]) ==> s.order[a] !in next.jobs
  }

  /** Terminal jobs are dropped, oldest first, while there are more than 512 jobs. */
  ghost predicate TrimmedFrom(s: State, next: State, from: nat) {
    && (forall id :: id in next.jobs ==> id in s.jobs && next.jobs[id] == s.jobs[id])
    && (forall id :: id in s.jobs && id !in next.jobs ==> Terminal(s, id) && OldestFirst(s, next, from, id))
    && (next.jobs != s.jobs ==> |next.jobs| >= 512)
    && (|next.jobs| <= 512 || forall a :: from <= a < |s.order| && Terminal(s, s.order[a]) ==> s.order[a] !in next.jobs)
  }

  lemma {:induction false} TrimFromIs(s: State, i: nat)
    ensures TrimmedFrom(s, TrimFrom(s, i), i)
    decreases |s.order| - i
  {
    if i < |s.order| && |s.jobs| > MAX_JOBS {
      if Deletable(s, s.order[i]) {
        TrimFromIs(Delete(s, s.order[i]), i + 1);
        TrimmedBehind(s, Delete(s, s.order[i]), TrimFrom(s, i), i);
      } else {
        TrimFromIs(s, i + 1);
        TrimmedBehind(s, s, TrimFrom(s, i), i);
      }
    }
  }

  lemma TrimmedBehind(s: State, less: State, next: State, i: nat)
    requires i < |s.order| && |s.jobs| > MAX_JOBS && TrimmedFrom(less, next, i + 1)
    requires less == if Deletable(s, s.order[i]) then Delete(s, s.order[i]) else s
    ensures TrimmedFrom(s, next, i)
  {
    if Deletable(s, s.order[i]) {
      SizeWithout(s.jobs, s.order[i]);
    }
    forall id | id in s.jobs && id !in next.jobs
      ensures Terminal(s, id) && OldestFirst(s, next, i, id)
    {
      DroppedFirst(s, less, next, i, id);
    }
    if |next.jobs| > 512 {
      forall a | i <= a < |s.order| && Terminal(s, s.order[a])
        ensures s.order[a] !in next.jobs
      {
        assert s.order[a] in less.jobs ==> Terminal(less, s.order[a]);
      }
    }
  }

  lemma DroppedFirst(s: State, less: State, next: State, i: nat, id: Id)
    requires i < |s.order| && TrimmedFrom(less, next, i + 1) && id in s.jobs && id !in next.jobs
    requires less == if Deletable(s, s.order[i]) then Delete(s, s.order[i]) else s
    ensures Terminal(s, id) && OldestFirst(s, next, i, id)
  {
    if Deletable(s, s.order[i]) && id == s.order[i] {
      assert OldestFirst(s, next, i, id);
    } else {
      assert Terminal(less, id) && OldestFirst(less, next, i + 1, id);
      var b :| i + 1 <= b < |s.order| && s.order[b] == id
               && forall a :: i + 1 <= a < b && Terminal(less, s.order[a]) ==> s.order[a] !in next.jobs;
      forall a | i <= a < b && Terminal(s, s.order[a])
        ensures s.order[a] !in next.jobs
      {
        assert s.order[a] in less.jobs ==> Terminal(less, s.order[a]);
      }
    }
  }

  /** The entries of a cache whose jobs are known. */
  function OfJobs(cache: seq<Cached>, jobs: map<Id, Job>): seq<Cached> {
    if cache == [] then []
    else (if cache[0].id in jobs then [cache[0]] else []) + OfJobs(cache[1..], jobs)
  }

  ghost predicate AllKnown(cache: seq<Cached>, jobs: map<Id, Job>) {
    forall entry :: entry in cache ==> entry.id in jobs
  }

  lemma {:induction false} AllOfJobs(cache: seq<Cached>, jobs: map<Id, Job>)
    requires AllKnown(cache, jobs)
    ensures OfJobs(cache, jobs) == cache
  {
    if cache != [] {
      assert cache[0] in cache && forall entry :: entry in cache[1..] ==> entry in cache;
      AllOfJobs(cache[1..], jobs);
    }
  }

  lemma {:induction false} WithoutOfJobs(cache: seq<Cached>, id: Id, jobs: map<Id, Job>)
    requires id !in jobs
    ensures OfJobs(WithoutJob(cache, id), jobs) == OfJobs(cache, jobs)
  {
    if cache != [] {
      WithoutOfJobs(cache[1..], id, jobs);
    }
  }

  /** The cache forgets the entries of the dropped jobs, and of the rest it keeps the last 128. */
  ghost predicate CacheTrimmed(s: State, next: State) {
    var kept := OfJobs(s.cache, next.jobs);
    next.cache == kept[if |kept| > 128 then |kept| - 128 else 0..]
  }

  lemma {:induction false} TrimFromCache(s: State, i: nat)
    requires AllKnown(s.cache, s.jobs)
    ensures TrimFrom(s, i).cache == OfJobs(s.cache, TrimFrom(s, i).jobs)
    decreases |s.order| - i
  {
    if i < |s.order| && |s.jobs| > MAX_JOBS {
      if Deletable(s, s.order[i]) {
        WithoutJobIs(s.cache, s.order[i]);
        var less := Delete(s, s.order[i]);
        TrimFromCache(less, i + 1);
        TrimFromKeeps(less, i + 1);
        WithoutOfJobs(s.cache, s.order[i], TrimFrom(s, i).jobs);
      } else {
        TrimFromCache(s, i + 1);
      }
    } else {
      AllOfJobs(s.cache, s.jobs);
    }
  }

  lemma TrimIs(s: State)
    ensures TrimmedFrom(s, Trim(s), 0)
    ensures AllKnown(s.cache, s.jobs) ==> CacheTrimmed(s, Trim(s))
  {
    TrimFromIs(s, 0);
    if AllKnown(s.cache, s.jobs) {
      TrimFromCache(s, 0);
      var kept := TrimFrom(s, 0).cache;
      assert kept[0..] == kept;
    }
  }

  // ------------------------------------------------------------------ what is known

  /** One of the first `n` events submitted work with this key, for this session, under this id. */
  ghost predicate Submitted(events: seq<Event>, n: nat, id: Id, key: Digest)
    requires n <= |events|
  {
    exists i :: 0 <= i < n && events[i].SubmitEvent? && events[i].id == id
                && events[i].input.prepared.Prepared? && events[i].input.prepared.cacheKey == key
  }

  /** Work keeps its key; new work has the key of its submission, and a new entry that of its work. */
  ghost predicate Traced(s: State, e: Event, next: State) {
    && (forall id :: id in next.pending ==> WorkTraced(s, e, id, next.pending[id].cacheKey))
    && (forall entry :: entry in next.cache ==> entry in s.cache || (entry.id in s.pending && s.pending[entry.id].cacheKey == entry.key))
  }

  ghost predicate WorkTraced(s: State, e: Event, id: Id, key: Digest) {
    || (id in s.pending && s.pending[id].cacheKey == key)
    || (e.SubmitEvent? && e.id == id && e.input.prepared.Prepared? && e.input.prepared.cacheKey == key)
  }

  ghost predicate KeysKept(s: State, next: State) {
    && next.cache == s.cache
    && forall id :: id in next.pending ==> id in s.pending && next.pending[id].cacheKey == s.pending[id].cacheKey
  }

  lemma CancelTraced(c: Config, s: State, id: Id)
    requires Core(s)
    ensures KeysKept(s, Cancel(c, s, id))
  {
    CancelIs(c, s, id);
  }

  lemma {:induction false} CancelAllTraced(c: Config, s: State, ids: seq<Id>)
    requires Core(s)
    ensures KeysKept(s, CancelAll(c, s, ids))
    decreases |ids|
  {
    if ids != [] {
      CancelCore(c, s, ids[0]);
      CancelTraced(c, s, ids[0]);
      CancelAllTraced(c, Cancel(c, s, ids[0]), ids[1..]);
    }
  }

  lemma SettleTraced(c: Config, s: State, id: Id, outcome: Outcome)
    requires Valid(s) && Racing(s, id)
    ensures Traced(s, SettleEvent(id, outcome), Settle(c, s, id, outcome))
  {
    SettleEnds(c, s, id, outcome);
    if Publishes(c, s, id, outcome) {
      var s1 := Noted(s, id, outcome);
      PutIs(s1.cache, s1.pending[id].cacheKey, id);
      var published := s1.(jobs := s1.jobs[id := s1.jobs[id].(status := Completed, published := true)],
                           cache := Put(s1.cache, s1.pending[id].cacheKey, id));
      TrimFromKeeps(published, 0);
      NewestIs(TrimFrom(published, 0).cache);
    } else {
      var job := SettleDecides(c, s, id, outcome);
    }
  }

  lemma {:induction false} StepTraced(c: Config, s: State, e: Event)
    requires Valid(s)
    ensures Traced(s, e, Step(c, s, e))
  {
    if !Possible(s, e) {
      return;
    }
    match e
    case SubmitEvent(input, id) => SubmitTraced(c, s, input, id);
    case GetEvent(id, source) =>
      CancelTraced(c, s, id);
      WithoutJobIs(Cancel(c, s, id).cache, id);
    case CancelEvent(id) => CancelTraced(c, s, id);
    case PumpEvent => PumpCore(s);
    case SettleEvent(id, outcome) => SettleTraced(c, s, id, outcome);
    case FinishEvent(id, late) => FinishReturns(c, s, id, late);
    case RestoreEvent(_, _) =>
    case DisposeEvent =>
      DisposedCore(s);
      CancelAllTraced(c, s.(disposed := true), s.order);
  }

  lemma SubmitTraced(c: Config, s: State, input: Submission, id: Id)
    ensures Traced(s, SubmitEvent(input, id), Submit(c, s, input, id))
  {
    if Answered(c, s, input).None? {
      SubmitTakes(c, s, input, id);
      TrimFromKeeps(Admit(c, s, input, id), 0);
      NewestIs(TrimFrom(Admit(c, s, input, id), 0).cache);
    }
  }

  lemma FollowsTraced(c: Config, s: State, e: Event, next: State)
    requires Valid(s) && Follows(c, s, e, next)
    ensures Traced(s, e, next)
  {
    assert next == Step(c, s, e);
    StepTraced(c, s, e);
  }

  /** In every reachable state pending work and cached results carry the key under which their job was submitted. */
  lemma {:induction false} KeysAreSubmitted(c: Config, states: seq<State>, events: seq<Event>, n: nat)
    requires Execution(c, states, events) && states[0] == INITIAL && n <= |events|
    ensures forall id :: id in states[n].pending ==> Submitted(events, n, id, states[n].pending[id].cacheKey)
    ensures forall entry :: entry in states[n].cache ==> Submitted(events, n, entry.id, entry.key)
  {
    if n > 0 {
      KeysAreSubmitted(c, states, events, n - 1);
      InitialValid();
      ExecutionValid(c, states, events, n - 1);
      FollowsTraced(c, states[n - 1], events[n - 1], states[n]);
      forall id, key | Submitted(events, n - 1, id, key)
        ensures Submitted(events, n, id, key)
      {
      }
    }
  }

  /**
   * A job that `submit` answers with was itself submitted with the same material, session, model and limits,
   * as the cache key digests them; it is completed, or it is the session's active job.
   */
  lemma KnownIsSameWork(c: Config, states: seq<State>, events: seq<Event>, n: nat, input: Submission, id: Id, reply: Reply)
    requires Execution(c, states, events) && states[0] == INITIAL && n <= |events|
    requires Replies(c, states[n], input, id, reply) && reply.Known?
    ensures input.prepared.Prepared? && Submitted(events, n, reply.id, input.prepared.cacheKey)
    ensures reply.id in states[n].jobs
    ensures || (states[n].jobs[reply.id].status == Completed && states[n].jobs[reply.id].published)
            || (Busy(states[n], input.namespace) && states[n].sessions[input.namespace].active == Some(reply.id))
  {
    var s := states[n];
    InitialValid();
    ExecutionValid(c, states, events, n);
    KeysAreSubmitted(c, states, events, n);
    if Done(s, input) {
      assert Cached(input.prepared.cacheKey, reply.id) in s.cache;
      assert JobValid(s, reply.id);
    } else {
      assert WorkValid(s, reply.id);
    }
  }
}
