/** The enhancement manager's mutable form: each method changes its fields as the specification says. */
module EnhancementManaging {
  import opened Texts
  import opened Enhancement
  import opened EnhancementProof
  import opened EnhancementJobs

  class EnhancementManager {
    const config: Config
    var sessions: map<Namespace, Session>
    var jobs: map<Id, Job>
    var order: seq<Id>
    var cache: seq<Cached>
    var pending: map<Id, Work>
    var queue: seq<Id>
    var running: int
    var disposed: bool

    function View(): State
      reads this
    {
      State(sessions, jobs, order, cache, pending, queue, running, disposed)
    }

    constructor (config: Config)
      ensures View() == INITIAL && Valid(View()) && this.config == config
    {
      this.config := config;
      sessions, jobs, order, cache, pending, queue := map[], map[], [], [], map[], [];
      running, disposed := 0, false;
      new;
      InitialValid();
    }

    method PumpQueue()
      modifies this
      ensures View() == Pump(old(View())) && Pumped(old(View()), View())
    {
      PumpedPump(View());
      StartQueued();
    }

    method StartQueued()
      modifies this
      ensures View() == Pump(old(View()))
    {
      while !disposed && running < MAX_RUNNING && queue != []
        invariant Pump(View()) == Pump(old(View()))
        decreases |queue|
      {
        var id := queue[0];
        queue := queue[1..];
        running := running + 1;
        jobs := Mark(jobs, id, Running, None);
      }
    }

    method ReleaseWork(id: Id)
      requires id in pending
      modifies this
      ensures View() == Release(old(View()), id)
    {
      sessions := Deactivate(sessions, pending[id].session);
      pending := pending - {id};
    }

    method CancelJob(id: Id)
      requires Valid(View())
      modifies this
      ensures View() == Cancel(config, old(View()), id) && Valid(View()) && Cancels(config, old(View()), id, View())
    {
      CancelValid(config, View(), id);
      CancelIs(config, View(), id);
      if id !in pending || id !in jobs || jobs[id].status == Completed {
        return;
      }
      CancelPending(id);
    }

    method CancelPending(id: Id)
      requires Cancellable(View(), id)
      modifies this
      ensures View() == Cancel(config, old(View()), id)
    {
      jobs := Mark(jobs, id, Cancelled, Some(WasCancelled));
      if id in queue {
        queue := Drop(queue, id);
        sessions := Charge(sessions, pending[id].session, NOTHING.Minus(config.request));
        ReleaseWork(id);
        StartQueued();
      } else {
        pending := pending[id := pending[id].(aborted := true)];
      }
    }

    method TrimJobs()
      modifies this
      ensures View() == Trim(old(View())) && TrimmedFrom(old(View()), View(), 0)
      ensures old(AllKnown(cache, jobs)) ==> CacheTrimmed(old(View()), View())
    {
      TrimIs(View());
      TrimOldJobs();
      TrimCache();
    }

    method TrimOldJobs()
      modifies this
      ensures View() == TrimFrom(old(View()), 0)
    {
      ghost var target := TrimFrom(View(), 0);
      var i := 0;
      while i < |order| && |jobs| > MAX_JOBS
        invariant 0 <= i <= |order| && order == old(order)
        invariant TrimFrom(View(), i) == target
        decreases |order| - i
      {
        TrimOne(i);
        i := i + 1;
      }
    }

    method TrimOne(i: nat)
      requires i < |order| && |jobs| > MAX_JOBS
      modifies this
      ensures TrimFrom(View(), i + 1) == TrimFrom(old(View()), i) && order == old(order)
    {
      var id := order[i];
      if id in jobs && id !in pending && jobs[id].status != Queued && jobs[id].status != Running {
        jobs := jobs - {id};
        cache := WithoutJob(cache, id);
        assert View() == Delete(old(View()), id);
      }
    }

    method TrimCache()
      modifies this
      ensures View() == old(View()).(cache := Newest(old(cache)))
    {
      while |cache| > MAX_CACHED
        invariant View() == old(View()).(cache := cache) && Newest(cache) == Newest(old(cache))
        decreases |cache|
      {
        cache := cache[1..];
      }
    }

    /** `submit`; `id` is the fresh random id a new job would get. */
    method SubmitInput(input: Submission, id: Id) returns (reply: Reply)
      requires Valid(View()) && id !in order
      modifies this
      ensures View() == Submit(config, old(View()), input, id) && Valid(View())
      ensures Replies(config, old(View()), input, id, reply)
      ensures reply.Accepted? ==> input.prepared.Prepared? && Taken(config, old(View()), input, id, View())
      ensures !reply.Accepted? ==> View() == old(View())
    {
      SubmitValid(config, View(), input, id);
      AnsweredIs(config, View(), input, id);
      if Answered(config, View(), input).None? {
        SubmitTakes(config, View(), input, id);
      }
      reply := SubmitChecked(input, id);
    }

    method SubmitChecked(input: Submission, id: Id) returns (reply: Reply)
      modifies this
      ensures View() == Submit(config, old(View()), input, id)
      ensures reply == match Answered(config, old(View()), input) case Some(given) => given case None => Accepted(id)
    {
      var answer := Answered(config, View(), input);
      if answer.Some? {
        return answer.value;
      }
      AdmitInput(input, id);
      return Accepted(id);
    }

    method AdmitInput(input: Submission, id: Id)
      requires input.prepared.Prepared?
      modifies this
      ensures View() == Trim(Admit(config, old(View()), input, id))
    {
      var key := input.namespace;
      var session := if key in sessions then sessions[key] else Session(NOTHING, None);
      sessions := sessions[key := Session(session.spend.Plus(config.request), Some(id))];
      jobs := jobs[id := Job(Queued, input.sourceKey, None, false)];
      order := order + [id];
      pending := pending[id := Work(key, input.prepared.cacheKey, false, false, UNKNOWN)];
      queue := queue + [id];
      TrimJobs();
    }

    /** `get`; a job of another source than the caller's current one is withdrawn. */
    method GetJob(id: Id, source: Option<Text>) returns (job: Option<Job>)
      requires Valid(View())
      modifies this
      ensures View() == Get(config, old(View()), id, source) && Valid(View())
      ensures job == if id in jobs then Some(jobs[id]) else None
      ensures old(Overtaken(View(), id, source)) ==> Outdated(config, old(View()), id, View())
      ensures !old(Overtaken(View(), id, source)) ==> View() == old(View())
    {
      GetValid(config, View(), id, source);
      GetIs(config, View(), id, source);
      job := ReadJob(id, source);
    }

    method ReadJob(id: Id, source: Option<Text>) returns (job: Option<Job>)
      requires Valid(View())
      modifies this
      ensures View() == Get(config, old(View()), id, source)
      ensures job == if id in jobs then Some(jobs[id]) else None
    {
      if id !in jobs {
        return None;
      }
      if source.Some? && jobs[id].sourceKey != source.value {
        CancelCore(config, View(), id);
        CancelJob(id);
        jobs := jobs[id := jobs[id].(status := Rejected, reason := Some(StaleSource), published := false)];
        cache := WithoutJob(cache, id);
      }
      return Some(jobs[id]);
    }

    /** The continuation of `run` after its race. */
    method SettleRace(id: Id, outcome: Outcome)
      requires Valid(View()) && Racing(View(), id)
      modifies this
      ensures View() == Settle(config, old(View()), id, outcome) && Valid(View())
      ensures id in old(jobs) && RaceEnds(config, old(View()), id, outcome, View())
      ensures jobs[id].status == Completed ==> Cached(pending[id].cacheKey, id) in cache
    {
      SettleValid(config, View(), id, outcome);
      SettleEnds(config, View(), id, outcome);
      Decide(id, outcome);
    }

    method Decide(id: Id, outcome: Outcome)
      requires id in pending && id in jobs
      modifies this
      ensures View() == Settle(config, old(View()), id, outcome)
    {
      var aborted := pending[id].aborted;
      pending := pending[id := pending[id].(
        settled := true, usage := UsageAfter(outcome), aborted := aborted || outcome.Expired?)];
      if !outcome.Delivered? {
        FailRunning(id, if outcome.Expired? then TimedOut else ProviderError);
      } else if aborted {
        return;
      } else if OverBudget(config, outcome.usage) {
        jobs := Mark(jobs, id, Rejected, Some(ProviderBudget));
      } else if outcome.verdict.Flawed? {
        jobs := Mark(jobs, id, Rejected, Some(BadEntries));
      } else if outcome.verdict.Threw? {
        FailRunning(id, ProviderError);
      } else {
        jobs := jobs[id := jobs[id].(status := Completed, published := true)];
        cache := Put(cache, pending[id].cacheKey, id);
        TrimJobs();
      }
    }

    method FailRunning(id: Id, reason: Reason)
      requires id in jobs
      modifies this
      ensures View() == Fail(old(View()), id, reason)
    {
      if jobs[id].status == Running {
        jobs := Mark(jobs, id, Failed, Some(reason));
      }
    }

    /** The end of `run`: the provider's promise settled. */
    method FinishRun(id: Id, late: Option<Usage>)
      requires Valid(View()) && CleaningUp(View(), id)
      modifies this
      ensures View() == Finish(config, old(View()), id, late) && Valid(View())
      ensures old(WorkPending(View(), id)) && exists mid :: Returned(config, old(View()), id, late, mid) && Pumped(mid, View())
    {
      FinishValid(config, View(), id, late);
      FinishReturns(config, View(), id, late);
      ReturnPermit(id, late);
    }

    method ReturnPermit(id: Id, late: Option<Usage>)
      requires id in pending
      modifies this
      ensures View() == Finish(config, old(View()), id, late)
    {
      var usage := if late.Some? then late.value else pending[id].usage;
      sessions := Charge(sessions, pending[id].session, Actual(config, usage).Minus(config.request));
      running := running - 1;
      ReleaseWork(id);
      StartQueued();
    }

    /** `restoreUsage`; refused when disposed, malformed or out of sessions. */
    method RestoreUsage(key: Namespace, usage: Tokens) returns (ok: bool)
      requires Valid(View())
      modifies this
      ensures ok <==> !old(disposed) && usage.input >= 0 && usage.output >= 0 && (key in old(sessions) || |old(sessions)| < 128)
      ensures ok ==> key in sessions && Restored(old(sessions), key, usage, sessions[key]) && sessions - {key} == old(sessions) - {key}
      ensures !ok ==> View() == old(View())
      ensures View() == Step(config, old(View()), RestoreEvent(key, usage)) && Valid(View())
    {
      StepValid(config, View(), RestoreEvent(key, usage));
      RestoreIs(View(), key, usage);
      ok := TryRestore(key, usage);
    }

    method TryRestore(key: Namespace, usage: Tokens) returns (ok: bool)
      modifies this`sessions
      ensures ok <==> Possible(old(View()), RestoreEvent(key, usage))
      ensures sessions == if ok then Restore(old(View()), key, usage).sessions else old(sessions)
    {
      if disposed || usage.input < 0 || usage.output < 0 || (key !in sessions && |sessions| >= MAX_SESSIONS) {
        return false;
      }
      sessions := if key in sessions
      then sessions[key := sessions[key].(spend := Larger(sessions[key].spend, usage))]
      else sessions[key := Session(usage, None)];
      return true;
    }

    method DisposeAll()
      requires Valid(View())
      modifies this
      ensures View() == Dispose(config, old(View())) && Valid(View()) && disposed && cache == [] && queue == []
      ensures forall id :: id in old(jobs) ==> ShutDown(old(View()), id, View())
    {
      DisposeValid(config, View());
      forall id | id in jobs
        ensures ShutDown(View(), id, Dispose(config, View()))
      {
        DisposeShuts(config, View(), id);
      }
      disposed := true;
      CancelEvery();
      cache := [];
    }

    method CancelEvery()
      modifies this
      ensures View() == CancelAll(config, old(View()), old(order))
    {
      var ids := order;
      var i := 0;
      while i < |ids|
        invariant 0 <= i <= |ids|
        invariant CancelAll(config, View(), ids[i..]) == CancelAll(config, old(View()), ids)
      {
        if Cancellable(View(), ids[i]) {
          CancelPending(ids[i]);
        }
        i := i + 1;
      }
    }
  }
}
