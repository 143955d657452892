/** The plugin runtime's mutable form: its hooks and job bodies change its fields as specified. */
module PluginRuntimes {
  import opened Texts
  import opened Publication
  import opened PublicationProof
  import opened PublicationViews

  class PluginRuntime {
    var sessions: map<StateId, Session>
    var mapped: set<StateId>
    var jobs: map<JobId, Job>
    var queue: seq<Item>
    var queuedBytes: int
    var running: set<JobId>
    var disposed: bool
    const layered: bool
    const mode: Mode

    function Abstract(): State
      reads this
    {
      State(sessions, mapped, jobs, queue, queuedBytes, running, disposed, layered, mode)
    }

    constructor (layered: bool, mode: Mode)
      ensures Abstract() == Initial(layered, mode) && Valid(Abstract())
    {
      this.layered, this.mode := layered, mode;
      sessions, mapped, jobs, queue, queuedBytes, running, disposed := map[], {}, map[], [], 0, {}, false;
      new;
      InitialValid();
    }

    method PumpQueue()
      modifies this
      ensures Abstract() == Pump(old(Abstract())) && Pumped(old(Abstract()), Abstract())
    {
      PumpedPump(Abstract());
      StartQueued();
    }

    method StartQueued()
      modifies this
      ensures Abstract() == Pump(old(Abstract()))
    {
      while !disposed && |running| < MAX_ACTIVE && queue != []
        invariant Pump(Abstract()) == Pump(old(Abstract()))
        decreases |queue|
      {
        var item := queue[0];
        queue := queue[1..];
        queuedBytes := queuedBytes - item.bytes;
        running := running + {item.job};
      }
    }

    method EnqueueJob(id: JobId, job: Job, bytes: nat) returns (accepted: bool)
      modifies this
      ensures accepted == Accepts(old(Abstract()), bytes) && Abstract() == Enqueue(old(Abstract()), id, job, bytes)
      ensures accepted == old(Room(Abstract(), bytes)) && Enqueued(old(Abstract()), id, job, bytes, Abstract())
      ensures sessions == old(sessions) && jobs == if accepted then old(jobs)[id := job] else old(jobs)
      ensures old(QueueValid(Abstract()) && Busy(Abstract()) && id !in jobs) && !job.PollJob? ==> QueueValid(Abstract())
    {
      EnqueueKeeps(Abstract(), id, job, bytes);
      EnqueueIs(Abstract(), id, job, bytes);
      EnqueueSessions(Abstract(), id, job, bytes);
      accepted := Push(id, job, bytes);
    }

    method Push(id: JobId, job: Job, bytes: nat) returns (accepted: bool)
      modifies this
      ensures accepted == Accepts(old(Abstract()), bytes) && Abstract() == Enqueue(old(Abstract()), id, job, bytes)
    {
      if disposed || |queue| + |running| >= MAX_JOBS || queuedBytes + bytes > MAX_QUEUED_BYTES {
        return false;
      }
      jobs := jobs[id := job];
      queue := queue + [Item(id, bytes)];
      queuedBytes := queuedBytes + bytes;
      StartQueued();
      return true;
    }

    method ClearSessionView(st: StateId, job: JobId)
      requires Valid(Abstract()) && st in sessions && job !in jobs
      modifies this
      ensures Abstract() == ClearView(old(Abstract()), st, job) && Valid(Abstract())
      ensures ClearedAs(old(Abstract()), st, old(sessions)[st], job, Abstract())
    {
      ClearIs(Abstract(), st, sessions[st], job);
      ClearValid(Abstract(), st, sessions[st], job);
      ClearSession(st, sessions[st], job);
    }

    method ClearSession(st: StateId, session: Session, job: JobId)
      modifies this
      ensures Abstract() == ClearAs(old(Abstract()), st, session, job)
    {
      sessions := sessions[st := Bumped(session).(view := None)];
      if mode.On? {
        var accepted := EnqueueJob(job, PlainJob, 0);
      }
    }

    /** A transform's messages become the private snapshot; a new compaction epoch clears the view. */
    method ObserveSnapshot(st: StateId, epoch: Text, entries: seq<Entry>, job: JobId)
      requires Valid(Abstract()) && st in sessions && job !in jobs
      modifies this
      ensures Abstract() == Observe(old(Abstract()), st, epoch, entries, job) && Valid(Abstract())
      ensures Observed(old(Abstract()), st, epoch, entries, job, Abstract())
    {
      ObserveIs(Abstract(), st, epoch, entries, job);
      ObserveValid(Abstract(), st, epoch, entries, job);
      var session := sessions[st];
      var seen := session.(snapshot := Some(entries), epoch := Some(epoch));
      if session.epoch.Some? && session.epoch.value != epoch {
        ClearSession(st, seen, job);
      } else {
        sessions := sessions[st := seen];
      }
    }

    /** The loop that looks for the last user message. */
    method FindPrefixEnd(entries: seq<Entry>) returns (end: nat)
      ensures end == PrefixEnd(entries)
    {
      end := |entries|;
      assert entries[..end] == entries;
      while end > 0 && !entries[end - 1].user
        invariant end <= |entries| && PrefixEnd(entries[..end]) == PrefixEnd(entries)
      {
        assert entries[..end][..end - 1] == entries[..end - 1];
        end := end - 1;
      }
    }

    /** A message event: an edited source of the view clears it, one of the snapshot stops the plans for it. */
    method OnMessageEvent(st: StateId, message: Option<Text>, job: JobId)
      requires Valid(Abstract()) && st in sessions && job !in jobs
      modifies this
      ensures Abstract() == MessageEdit(old(Abstract()), st, message, job) && Valid(Abstract())
      ensures Edited(old(Abstract()), st, message, job, Abstract())
    {
      EditIs(Abstract(), st, message, job);
      MessageEditValid(Abstract(), st, message, job);
      var session := sessions[st];
      if AffectsView(session, message) {
        ClearSession(st, session.(snapshot := None), job);
        return;
      }
      if session.snapshot.Some? {
        var raw := session.snapshot.value;
        var end := FindPrefixEnd(raw);
        var sources := if layered && end > 0 then raw[..end] else raw;
        if Affects(Some(Ids(sources)), message) {
          sessions := sessions[st := Bumped(session).(snapshot := None)];
        }
      }
    }

    /** `schedule`: a refused job leaves the session free again. */
    method ScheduleSession(st: StateId, job: JobId, bytes: nat)
      requires Valid(Abstract()) && st in sessions && job !in jobs
      modifies this
      ensures Abstract() == Schedule(old(Abstract()), st, job, bytes) && Valid(Abstract())
      ensures Scheduled(old(Abstract()), st, job, bytes, Abstract())
    {
      ScheduleIs(Abstract(), st, job, bytes);
      ScheduleValid(Abstract(), st, job, bytes);
      MarkAndEnqueue(st, job, bytes);
    }

    method MarkAndEnqueue(st: StateId, job: JobId, bytes: nat)
      requires st in sessions
      modifies this
      ensures Abstract() == Schedule(old(Abstract()), st, job, bytes)
    {
      var session := sessions[st];
      if mode.Off? || session.hydrating || session.paused || session.busy || session.snapshot.None? {
        return;
      }
      sessions := sessions[st := session.(busy := true)];
      var accepted := EnqueueJob(job, PlanJob(st, session.generation, session.snapshot.value), bytes);
      if !accepted {
        sessions := sessions[st := session];
        assert sessions == old(sessions);
      }
    }

    method HydrateSession(st: StateId, job: JobId)
      requires Valid(Abstract()) && st in sessions && job !in jobs
      modifies this
      ensures Abstract() == Hydrate(old(Abstract()), st, job) && Valid(Abstract())
      ensures Hydrating(old(Abstract()), st, job, Abstract())
    {
      HydrateIs(Abstract(), st, job);
      HydrateValid(Abstract(), st, job);
      RequestView(st, job);
    }

    method RequestView(st: StateId, job: JobId)
      requires st in sessions
      modifies this
      ensures Abstract() == Hydrate(old(Abstract()), st, job)
    {
      var session := sessions[st];
      if session.hydrated || mode.Off? {
        return;
      }
      sessions := sessions[st := session.(hydrated := true, hydrating := true)];
      var accepted := EnqueueJob(job, HydrateJob(st, session.generation), 0);
      if !accepted {
        sessions := sessions[st := session];
        assert sessions == old(sessions);
      }
    }

    /** The end of a planning job's body: install unless something invalidated the session, then free it. */
    method EndPlan(id: JobId, result: Option<View>)
      requires Valid(Abstract()) && id in running && id in jobs && jobs[id].PlanJob? && jobs[id].state in sessions
      modifies this
      ensures Abstract() == PlanEnds(old(Abstract()), id, result) && Valid(Abstract())
      ensures forall st :: st in old(sessions) ==>
                st in sessions && ViewMoves(old(Abstract()), PlanEnd(id, result), st, sessions[st].view)
      ensures old(jobs)[id].state in sessions && !sessions[old(jobs)[id].state].busy
    {
      PlanEndsValid(Abstract(), id, result);
      AllMove(Abstract(), PlanEnd(id, result));
      FreePlan(id, result);
    }

    method FreePlan(id: JobId, result: Option<View>)
      requires id in jobs && jobs[id].PlanJob? && jobs[id].state in sessions
      modifies this
      ensures Abstract() == PlanEnds(old(Abstract()), id, result)
    {
      var st, generation := jobs[id].state, jobs[id].generation;
      var session := sessions[st];
      var installs := result.Some? && mode.On? && !disposed && !session.paused && generation == session.generation;
      assert installs <==> Installs(Abstract(), jobs[id], result);
      if installs {
        session := session.(view := result);
      }
      sessions := sessions[st := session.(busy := false)];
      jobs := jobs[id := PlainJob];
      assert Abstract().sessions == PlanEnds(old(Abstract()), id, result).sessions;
    }

    /** The end of a poll: the candidate replaces the view it was made from, if that is still the view. */
    method EndPoll(id: JobId, result: Option<View>)
      requires Valid(Abstract()) && id in jobs && jobs[id].PollJob? && jobs[id].state in sessions
      modifies this
      ensures Abstract() == PollEnds(old(Abstract()), id, result) && Valid(Abstract())
      ensures forall st :: st in old(sessions) ==>
                st in sessions && ViewMoves(old(Abstract()), PollEnd(id, result), st, sessions[st].view)
    {
      PollEndsValid(Abstract(), id, result);
      AllMove(Abstract(), PollEnd(id, result));
      ShowCandidate(id, result);
    }

    method ShowCandidate(id: JobId, result: Option<View>)
      requires id in jobs && jobs[id].PollJob? && jobs[id].state in sessions
      modifies this
      ensures Abstract() == PollEnds(old(Abstract()), id, result)
    {
      var st, generation, base := jobs[id].state, jobs[id].generation, jobs[id].base;
      var session := sessions[st];
      if result.Some? && !disposed && !session.paused && generation == session.generation &&
         session.view.Some? && session.view.value.historyHash == base.historyHash {
        sessions := sessions[st := session.(view := result)];
      }
      jobs := jobs - {id};
    }

    /** The end of a hydration: install only into an empty, unchanged session of the same epoch, then schedule. */
    method EndHydrate(id: JobId, result: Option<View>, failed: bool, next: JobId, bytes: nat)
      requires Valid(Abstract()) && id in running && id in jobs && jobs[id].HydrateJob? && jobs[id].state in sessions
      requires next !in jobs
      modifies this
      ensures Abstract() == HydrateEnds(old(Abstract()), id, result, failed, next, bytes) && Valid(Abstract())
      ensures forall st :: st in old(sessions) ==>
                st in sessions && ViewMoves(old(Abstract()), HydrateEnd(id, result, failed, next, bytes), st, sessions[st].view)
    {
      HydrateEndsValid(Abstract(), id, result, failed, next, bytes);
      AllMove(Abstract(), HydrateEnd(id, result, failed, next, bytes));
      FinishHydrate(id, result, failed, next, bytes);
    }

    method FinishHydrate(id: JobId, result: Option<View>, failed: bool, next: JobId, bytes: nat)
      requires id in jobs && jobs[id].HydrateJob? && jobs[id].state in sessions
      modifies this
      ensures Abstract() == HydrateEnds(old(Abstract()), id, result, failed, next, bytes)
    {
      HydrateEndsIs(Abstract(), id, result, failed, next, bytes);
      var st := jobs[id].state;
      EndHydrateBody(id, result, failed);
      if !disposed && st in mapped && sessions[st].hydrated {
        MarkAndEnqueue(st, next, bytes);
      }
    }

    method EndHydrateBody(id: JobId, result: Option<View>, failed: bool)
      requires id in jobs && jobs[id].HydrateJob? && jobs[id].state in sessions
      modifies this`sessions, this`jobs
      ensures Abstract() == Settled(Update(old(Abstract()), old(jobs)[id].state, HydratedSession(old(Abstract()), id, result, failed)), id)
    {
      var st, generation := jobs[id].state, jobs[id].generation;
      var session := sessions[st];
      var installs := !failed && result.Some? && !disposed && session.view.None? && generation == session.generation &&
                      result.value.epoch == (if session.epoch.Some? then session.epoch.value else []);
      assert installs <==> !failed && Installs(Abstract(), jobs[id], result);
      if installs {
        session := session.(view := result);
      }
      session := session.(hydrated := session.hydrated && !failed, hydrating := false);
      assert session == HydratedSession(Abstract(), id, result, failed);
      sessions := sessions[st := session];
      jobs := jobs[id := PlainJob];
    }

    method ReturnPermit(id: JobId)
      requires Valid(Abstract()) && id in running && id in jobs && jobs[id].PlainJob?
      modifies this
      ensures Abstract() == Finish(old(Abstract()), id) && Valid(Abstract())
      ensures Pumped(old(Abstract()).(jobs := old(jobs) - {id}, running := old(running) - {id}), Abstract())
    {
      PermitValid(Abstract(), id);
      jobs := jobs - {id};
      running := running - {id};
      PumpQueue();
    }

    method DisposeRuntime()
      requires Valid(Abstract())
      modifies this
      ensures Abstract() == Dispose(old(Abstract())) && Valid(Abstract())
      ensures Disposed(old(Abstract()), Abstract())
    {
      DisposeValid(Abstract());
      DisposeIs(Abstract());
      Shut();
    }

    method Shut()
      modifies this
      ensures Abstract() == Dispose(old(Abstract()))
    {
      disposed := true;
      jobs := jobs - (set item | item in queue :: item.job);
      queue, queuedBytes := [], 0;
      sessions := BumpAll(sessions, mapped);
    }
  }
}
