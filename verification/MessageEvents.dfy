/** Which edits stop a plan: every message that a live plan was made from is watched. */
module MessageEvents {
  import opened Texts
  import opened Messages
  import opened Publication
  import opened PublicationProof
  import Digests
  import Planning

  // ---------------------------------------------------------------- the watched messages

  lemma {:induction false} PrefixEndIsLastUser(entries: seq<Entry>)
    ensures var end := PrefixEnd(entries);
            && (end > 0 ==> entries[end - 1].user)
            && (forall i :: end <= i < |entries| ==> !entries[i].user)
  {
    if entries != [] && !entries[|entries| - 1].user {
      PrefixEndIsLastUser(entries[..|entries| - 1]);
      assert forall i :: 0 <= i < |entries| - 1 ==> entries[..|entries| - 1][i] == entries[i];
    }
  }

  /** A history that starts with the sources of a plan watches all of them. */
  lemma SourcesStayWatched(layered: bool, raw: seq<Entry>, now: seq<Entry>)
    requires PlanSources(layered, raw) <= now
    ensures PlanSources(layered, raw) <= PlanSources(layered, now)
  {
    PrefixEndIsLastUser(raw);
    PrefixEndIsLastUser(now);
    var end := PrefixEnd(raw);
    if layered && end > 0 {
      assert now[end - 1] == raw[end - 1];
    } else if layered && PrefixEnd(now) > 0 {
      assert PlanSources(layered, raw) == raw && forall i :: 0 <= i < |raw| ==> now[i] == raw[i];
    }
  }

  // ------------------------------------------------------------------ the current snapshot

  predicate HasSnapshot(s: State, st: StateId) {
    st in s.sessions && s.sessions[st].snapshot.Some?
  }

  /** A snapshot goes only when the generation moves. */
  lemma {:induction false} SnapshotLasts(s: State, e: Event, next: State, st: StateId)
    requires Follows(s, e, next) && HasSnapshot(s, st) && GenerationOf(next, st) == GenerationOf(s, st)
    ensures HasSnapshot(next, st)
  {
    assert next == Step(s, e);
    if Possible(s, e) {
      if OfSession(e) {
        SessionStep(s, e);
      } else {
        JobStep(s, e, st);
      }
    }
  }

  lemma {:induction false} SnapshotLastsLong(states: seq<State>, events: seq<Event>, st: StateId, m: nat, n: nat)
    requires Execution(states, events) && m <= n <= |events| && HasSnapshot(states[m], st)
    requires GenerationOf(states[n], st) == GenerationOf(states[m], st)
    ensures HasSnapshot(states[n], st)
  {
    if m < n {
      GenerationGrows(states, events, st, m, n - 1);
      GenerationMoves(states[n - 1], events[n - 1], states[n], st);
      SnapshotLastsLong(states, events, st, m, n - 1);
      SnapshotLasts(states[n - 1], events[n - 1], states[n], st);
    }
  }

  // ----------------------------------------------------------------------- no edit is missed

  /** The event names a message that the job's plan is made from. */
  predicate NamesSource(layered: bool, e: Event, job: Job) {
    e.MessageEvent? && job.PlanJob? && e.st == job.state && (e.message.Some? ==> e.message.value in Ids(PlanSources(layered, job.raw)))
  }

  lemma WatchedIds(xs: seq<Entry>, ys: seq<Entry>, id: Text)
    requires xs <= ys && id in Ids(xs)
    ensures id in Ids(ys)
  {
    var i :| 0 <= i < |Ids(xs)| && Ids(xs)[i] == id;
    assert Ids(ys)[i] == id;
  }

  /**
   * When an event names a source of a planning job and that job still installs its plan later, the snapshot
   * of that moment did not start with the sources any more: the plan is for a history that is already gone,
   * and its binding to the current one fails.
   */
  lemma NoEditIsMissed(states: seq<State>, events: seq<Event>, id: JobId, result: Option<View>, m: nat, k: nat, n: nat)
    requires Execution(states, events) && Valid(states[0]) && m <= k < n <= |events|
    requires id in states[m].jobs && Possible(states[k], events[k]) && Installs(states[n], states[m].jobs[id], result)
    requires NamesSource(states[k].layered, events[k], states[m].jobs[id])
    ensures var job := states[m].jobs[id];
            && HasSnapshot(states[k], job.state)
            && !(PlanSources(states[k].layered, job.raw) <= states[k].sessions[job.state].snapshot.value)
  {
    var job := states[m].jobs[id];
    ExecutionValid(states, events, m);
    assert JobValid(states[m], job);
    GenerationGrows(states, events, job.state, m, k);
    GenerationGrows(states, events, job.state, k, n);
    SnapshotLastsLong(states, events, job.state, m, k);
    NoStaleInstallOf(states, events, id, result, m, k, n);
    StillBoundIsWatched(states[k], events[k], job);
  }

  lemma StillBoundIsWatched(s: State, e: Event, job: Job)
    requires NamesSource(s.layered, e, job) && HasSnapshot(s, job.state)
    requires !AffectsSnapshot(s.layered, s.sessions[job.state], e.message)
    ensures !(PlanSources(s.layered, job.raw) <= s.sessions[job.state].snapshot.value)
  {
    var now := s.sessions[job.state].snapshot.value;
    if PlanSources(s.layered, job.raw) <= now {
      SourcesStayWatched(s.layered, job.raw, now);
      WatchedIds(PlanSources(s.layered, job.raw), PlanSources(s.layered, now), e.message.value);
      assert false;
    }
  }

  // ------------------------------------------------------------- the excepted case occurs

  /** A plan is queued for one history, another history is observed, and a message of the first one is edited. */
  function GoneHistory(before: Entry, now: Entry, epoch: Text): seq<Event> {
    [Event.Open(0), Event.Snapshot(0, epoch, [before], 0), ScheduleRequest(0, 1, 0), Event.Snapshot(0, epoch, [now], 0),
     MessageEvent(0, Some(before.id), 0)]
  }

  function OneSession(epoch: Text, entry: Entry, busy: bool): Session {
    Session(0, None, Some(epoch), false, false, false, busy, Some([entry]))
  }

  function Opened(session: Session): State {
    State(map[0 := session], {0}, map[], [], 0, {}, false, true, On)
  }

  function InPlanning(session: Session, raw: seq<Entry>): State {
    State(map[0 := session], {0}, map[1 := PlanJob(0, 0, raw)], [], 0, {1}, false, true, On)
  }

  lemma OpensOne(epoch: Text, entry: Entry)
    ensures Step(Initial(true, On), Event.Open(0)) == Opened(NEW_SESSION)
    ensures Step(Opened(NEW_SESSION), Event.Snapshot(0, epoch, [entry], 0)) == Opened(OneSession(epoch, entry, false))
  {
    assert map[0 := NEW_SESSION][0 := OneSession(epoch, entry, false)] == map[0 := OneSession(epoch, entry, false)];
  }

  lemma PlansOne(epoch: Text, entry: Entry)
    ensures Step(Opened(OneSession(epoch, entry, false)), ScheduleRequest(0, 1, 0)) == InPlanning(OneSession(epoch, entry, true), [entry])
  {
    var marked := Opened(OneSession(epoch, entry, true));
    assert Update(Opened(OneSession(epoch, entry, false)), 0, OneSession(epoch, entry, true)) == marked;
    var queued := marked.(jobs := map[1 := PlanJob(0, 0, [entry])], queue := [Item(1, 0)]);
    assert marked.jobs[1 := PlanJob(0, 0, [entry])] == queued.jobs && marked.queue + [Item(1, 0)] == queued.queue;
    assert Start(queued) == InPlanning(OneSession(epoch, entry, true), [entry]);
    assert Pump(queued) == Start(queued);
  }

  lemma ObservesAnother(epoch: Text, before: Entry, now: Entry)
    requires now.user && before.id != now.id
    ensures var planned := InPlanning(OneSession(epoch, before, true), [before]);
            var after := InPlanning(OneSession(epoch, now, true), [before]);
            && Step(planned, Event.Snapshot(0, epoch, [now], 0)) == after
            && Step(after, MessageEvent(0, Some(before.id), 0)) == after
  {
    var after := InPlanning(OneSession(epoch, now, true), [before]);
    assert map[0 := OneSession(epoch, before, true)][0 := OneSession(epoch, now, true)] == map[0 := OneSession(epoch, now, true)];
    assert PlanSources(true, [now]) == [now] && Ids([now]) == [now.id];
    assert !AffectsSnapshot(true, after.sessions[0], Some(before.id));
  }

  /**
   * The excepted case occurs: a plan in flight survives the edit of its source when the host has meanwhile
   * shown another history of the same epoch, and it is still installed.
   */
  lemma GonePlanInstalls(before: Entry, now: Entry, epoch: Text, view: View) returns (states: seq<State>)
    requires before.user && now.user && before.id != now.id
    ensures Execution(states, GoneHistory(before, now, epoch)) && states[0] == Initial(true, On)
    ensures 1 in states[3].jobs && Possible(states[4], GoneHistory(before, now, epoch)[4])
    ensures NamesSource(true, GoneHistory(before, now, epoch)[4], states[3].jobs[1])
    ensures Installs(states[5], states[3].jobs[1], Some(view))
  {
    OpensOne(epoch, before);
    PlansOne(epoch, before);
    ObservesAnother(epoch, before, now);
    var planned := InPlanning(OneSession(epoch, before, true), [before]);
    var after := InPlanning(OneSession(epoch, now, true), [before]);
    states := [Initial(true, On), Opened(NEW_SESSION), Opened(OneSession(epoch, before, false)), planned, after, after];
    assert PlanSources(true, [before]) == [before];
    assert Ids([before]) == [before.id] && [before.id][0] == before.id;
  }

  /** An edit of a source of the view itself always clears the view. */
  lemma EditedViewIsCleared(s: State, e: Event, next: State)
    requires Follows(s, e, next) && e.MessageEvent? && Possible(s, e) && AffectsView(s.sessions[e.st], e.message)
    ensures e.st in next.sessions && next.sessions[e.st].view.None? && next.sessions[e.st].snapshot.None?
    ensures GenerationOf(next, e.st) == GenerationOf(s, e.st) + 1
  {
    assert next == Step(s, e);
    MessageEditSessions(s, e.st, e.message, e.job);
  }

  // ------------------------------------------------------------- what the sources are

  function EntriesOf(ms: seq<Message>): seq<Entry> {
    seq(|ms|, i requires 0 <= i < |ms| => Entry(ms[i].id, ms[i].role.User?))
  }

  /** The sources are exactly the messages that the planner's snapshot lists. */
  lemma SourcesAreSnapshot(ms: seq<Message>, end: nat)
    requires Planning.IsSourceEnd(ms, end)
    ensures PlanSources(true, EntriesOf(ms)) == EntriesOf(ms[..end])
  {
    PrefixEndIsLastUser(EntriesOf(ms));
    var last := PrefixEnd(EntriesOf(ms));
    assert forall i :: 0 <= i < |ms| ==> EntriesOf(ms)[i].user == ms[i].role.User?;
    if last > 0 {
      assert last <= end;
      assert end < |ms| ==> EntriesOf(ms)[end - 1].user;
    }
  }

  /** A plan whose snapshot binds a history was made from messages that the history still starts with. */
  lemma BoundStartsAlike(sha: Text -> Digest, planned: seq<Message>, ms: seq<Message>)
    requires Digests.Injective(sha)
    requires (forall i :: 0 <= i < |planned| ==> Digests.MessageSound(planned[i])) && (forall i :: 0 <= i < |ms| ==> Digests.MessageSound(ms[i]))
    requires SnapshotBinds(Digests.HashingOf(sha), ms, Digests.SnapshotOf(sha, planned))
    ensures EntriesOf(planned) <= EntriesOf(ms)
  {
    Digests.SnapshotBindsSameSource(sha, planned, ms);
  }
}
