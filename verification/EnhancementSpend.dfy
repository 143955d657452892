/** Where a session's spend comes from, and what can publish a job. */
module EnhancementSpend {
  import opened Texts
  import opened Enhancement
  import opened EnhancementProof

  // ------------------------------------------------------------------- conservation

  /** The spend of a session without the reservation of its active job. */
  function Settled(c: Config, s: State, key: Namespace): Tokens {
    if ActiveOf(s, key).Some? then SpendOf(s, key).Minus(c.request) else SpendOf(s, key)
  }

  function FinalUsage(s: State, id: Id, late: Option<Usage>): Usage {
    if late.Some? then late.value else if id in s.pending then s.pending[id].usage else UNKNOWN
  }

  lemma {:induction false} PlusNothing(t: Tokens)
    ensures t.Plus(NOTHING) == t
  {
  }

  lemma {:induction false} PlusAssociates(a: Tokens, x: Tokens, y: Tokens)
    ensures a.Plus(x).Plus(y) == a.Plus(x.Plus(y))
  {
  }

  /** What an event charges to a session for good: a finished request, or the raise of a restore. */
  function Charged(c: Config, s: State, e: Event, key: Namespace): Tokens {
    if !Possible(s, e) then NOTHING else
    match e
    case FinishEvent(id, late) => if s.pending[id].session == key then Actual(c, FinalUsage(s, id, late)) else NOTHING
    case RestoreEvent(target, usage) =>
      if target == key then Larger(SpendOf(s, key), usage).Minus(SpendOf(s, key)) else NOTHING
    case _ => NOTHING
  }

  /** What the first `n` events of a run charge to a session. */
  function TotalCharged(c: Config, states: seq<State>, events: seq<Event>, key: Namespace, n: nat): Tokens
    requires n <= |events| && n <= |states|
  {
    if n == 0 then NOTHING
    else TotalCharged(c, states, events, key, n - 1).Plus(Charged(c, states[n - 1], events[n - 1], key))
  }

  lemma {:induction false} PumpSessions(s: State)
    ensures Pump(s).sessions == s.sessions
    decreases |s.queue|
  {
    if !s.disposed && s.running < MAX_RUNNING && s.queue != [] {
      PumpSessions(Start(s));
    }
  }

  /** The job is its session's active one. */
  ghost predicate Holds(s: State, id: Id) {
    id in s.pending && s.pending[id].session in s.sessions && s.sessions[s.pending[id].session].active == Some(id)
  }

  lemma {:induction false} PendingHolds(s: State, id: Id)
    requires WorksValid(s) && id in s.pending
    ensures Holds(s, id)
  {
    assert WorkValid(s, id);
  }

  lemma {:induction false} WithdrawSettles(c: Config, s: State, id: Id, key: Namespace)
    requires Holds(s, id)
    ensures Settled(c, Withdraw(c, s, id), key) == Settled(c, s, key)
    ensures SpendOf(Withdraw(c, s, id), key) == SpendOf(s, key)
         || (ActiveOf(s, key).Some? && SpendOf(Withdraw(c, s, id), key) == SpendOf(s, key).Minus(c.request))
  {
  }

  lemma {:induction false} CancelSettles(c: Config, s: State, id: Id, key: Namespace)
    requires Core(s)
    ensures Settled(c, Cancel(c, s, id), key) == Settled(c, s, key)
    ensures SpendOf(Cancel(c, s, id), key) == SpendOf(s, key)
         || (ActiveOf(s, key).Some? && SpendOf(Cancel(c, s, id), key) == SpendOf(s, key).Minus(c.request))
  {
    if Cancellable(s, id) && id in s.queue {
      PendingHolds(s, id);
      WithdrawSettles(c, s, id, key);
      PumpSessions(Withdraw(c, s, id));
    }
  }

  lemma {:induction false} CancelAllSettles(c: Config, s: State, ids: seq<Id>, key: Namespace)
    requires Core(s) && ConfigValid(c)
    ensures Settled(c, CancelAll(c, s, ids), key) == Settled(c, s, key)
    ensures SpendOf(CancelAll(c, s, ids), key).AtMost(SpendOf(s, key))
    decreases |ids|
  {
    if ids != [] {
      CancelCore(c, s, ids[0]);
      CancelSettles(c, s, ids[0], key);
      CancelAllSettles(c, Cancel(c, s, ids[0]), ids[1..], key);
    }
  }

  lemma {:induction false} SubmitSettles(c: Config, s: State, input: Submission, id: Id, key: Namespace)
    ensures Settled(c, Submit(c, s, input, id), key) == Settled(c, s, key)
    ensures SpendOf(Submit(c, s, input, id), key) == SpendOf(s, key) || SpendOf(Submit(c, s, input, id), key).AtMost(c.session)
  {
    if Answered(c, s, input).None? {
      TrimFromKeeps(Admit(c, s, input, id), 0);
    }
  }

  lemma {:induction false} SettleSettles(c: Config, s: State, id: Id, outcome: Outcome)
    requires id in s.pending
    ensures Settle(c, s, id, outcome).sessions == s.sessions
  {
    if Publishes(c, s, id, outcome) && id in s.jobs {
      var s1 := Noted(s, id, outcome);
      TrimFromKeeps(s1.(jobs := s1.jobs[id := s1.jobs[id].(status := Completed, published := true)],
                        cache := Put(s1.cache, s1.pending[id].cacheKey, id)), 0);
    } else if Publishes(c, s, id, outcome) {
      var s1 := Noted(s, id, outcome);
      TrimFromKeeps(s1.(cache := Put(s1.cache, s1.pending[id].cacheKey, id)), 0);
    }
  }

  lemma {:induction false} ReleasedSettles(c: Config, s: State, id: Id, actual: Tokens, key: Namespace)
    requires Holds(s, id) && SessionsValid(s)
    ensures var next := Released(s, id, actual.Minus(c.request));
            && Settled(c, next, key) == Settled(c, s, key).Plus(if s.pending[id].session == key then actual else NOTHING)
            && SpendOf(next, key) == (if s.pending[id].session == key
                                      then SpendOf(s, key).Plus(actual.Minus(c.request)) else SpendOf(s, key))
  {
    if s.pending[id].session == key {
      ReleasedOwn(c, s, id, actual);
    } else {
      ReleasedOther(c, s, id, actual.Minus(c.request), key);
      PlusNothing(Settled(c, s, key));
    }
  }

  lemma {:induction false} ReleasedOwn(c: Config, s: State, id: Id, actual: Tokens)
    requires Holds(s, id)
    ensures var next, key := Released(s, id, actual.Minus(c.request)), s.pending[id].session;
            && Settled(c, next, key) == Settled(c, s, key).Plus(actual)
            && SpendOf(next, key) == SpendOf(s, key).Plus(actual.Minus(c.request))
  {
  }

  lemma {:induction false} ReleasedOther(c: Config, s: State, id: Id, extra: Tokens, key: Namespace)
    requires Holds(s, id) && s.pending[id].session != key
    ensures SpendOf(Released(s, id, extra), key) == SpendOf(s, key) && ActiveOf(Released(s, id, extra), key) == ActiveOf(s, key)
    ensures Settled(c, Released(s, id, extra), key) == Settled(c, s, key)
  {
  }

  lemma {:induction false} FinishSettles(c: Config, s: State, id: Id, late: Option<Usage>, key: Namespace)
    requires Holds(s, id) && SessionsValid(s)
    ensures var next, actual := Finish(c, s, id, late), Actual(c, FinalUsage(s, id, late));
            && Settled(c, next, key) == Settled(c, s, key).Plus(if s.pending[id].session == key then actual else NOTHING)
            && SpendOf(next, key) == (if s.pending[id].session == key
                                      then SpendOf(s, key).Plus(actual.Minus(c.request)) else SpendOf(s, key))
  {
    var actual := Actual(c, FinalUsage(s, id, late));
    ReleasedSettles(c, s, id, actual, key);
    SameSessions(c, Finish(c, s, id, late), Released(s, id, actual.Minus(c.request)), key) by {
      PumpSessions(Released(s, id, actual.Minus(c.request)));
      assert Finish(c, s, id, late) == Pump(Released(s, id, actual.Minus(c.request)));
    }
  }

  lemma {:induction false} SameSessions(c: Config, a: State, b: State, key: Namespace)
    requires a.sessions == b.sessions
    ensures Settled(c, a, key) == Settled(c, b, key) && SpendOf(a, key) == SpendOf(b, key)
  {
  }

  lemma {:induction false} DisposeSettles(c: Config, s: State, key: Namespace)
    requires Core(s) && ConfigValid(c)
    ensures Settled(c, Dispose(c, s), key) == Settled(c, s, key)
    ensures SpendOf(Dispose(c, s), key).AtMost(SpendOf(s, key))
  {
    DisposedCore(s);
    CancelAllSettles(c, s.(disposed := true), s.order, key);
  }

  lemma {:induction false} GetSettles(c: Config, s: State, id: Id, source: Option<Text>, key: Namespace)
    requires Core(s) && ConfigValid(c)
    ensures Settled(c, Get(c, s, id, source), key) == Settled(c, s, key)
    ensures SpendOf(Get(c, s, id, source), key).AtMost(SpendOf(s, key))
  {
    CancelSettles(c, s, id, key);
  }

  lemma {:induction false} RestoreSettles(c: Config, s: State, target: Namespace, usage: Tokens, key: Namespace)
    ensures SpendOf(Restore(s, target, usage), key) ==
            if target == key then (if key in s.sessions then Larger(SpendOf(s, key), usage) else usage) else SpendOf(s, key)
    ensures ActiveOf(Restore(s, target, usage), key) == ActiveOf(s, key)
  {
  }

  lemma {:induction false} QuietCharges(c: Config, s: State, e: Event, next: State, key: Namespace)
    requires Follows(c, s, e, next) && (e.PumpEvent? || e.SettleEvent? || !Possible(s, e))
    ensures Settled(c, next, key) == Settled(c, s, key).Plus(Charged(c, s, e, key)) && SpendOf(next, key) == SpendOf(s, key)
  {
    assert next == Step(c, s, e);
    PumpSessions(s);
    if Possible(s, e) && e.SettleEvent? {
      SettleSettles(c, s, e.id, e.outcome);
    }
    SameSessions(c, next, s, key);
  }

  lemma {:induction false} SubmitCharges(c: Config, s: State, e: Event, next: State, key: Namespace)
    requires Follows(c, s, e, next) && e.SubmitEvent? && Possible(s, e)
    ensures Settled(c, next, key) == Settled(c, s, key).Plus(Charged(c, s, e, key))
    ensures SpendOf(next, key) == SpendOf(s, key) || SpendOf(next, key).AtMost(c.session)
  {
    assert next == Step(c, s, e);
    SubmitSettles(c, s, e.input, e.id, key);
  }

  lemma {:induction false} StopCharges(c: Config, s: State, e: Event, next: State, key: Namespace)
    requires Follows(c, s, e, next) && (e.CancelEvent? || e.GetEvent? || e.DisposeEvent?)
    requires Core(s) && ConfigValid(c)
    ensures Settled(c, next, key) == Settled(c, s, key)
    ensures SpendOf(next, key).AtMost(SpendOf(s, key))
  {
    assert next == Step(c, s, e);
    match e
    case CancelEvent(id) => CancelSettles(c, s, id, key);
    case GetEvent(id, source) => GetSettles(c, s, id, source, key);
    case DisposeEvent => DisposeSettles(c, s, key);
  }

  lemma {:induction false} NothingCharged(c: Config, s: State, e: Event, key: Namespace)
    requires !e.FinishEvent? && !e.RestoreEvent?
    ensures Charged(c, s, e, key) == NOTHING
  {
  }

  lemma {:induction false} FinishCharges(c: Config, s: State, e: Event, next: State, key: Namespace)
    requires Follows(c, s, e, next) && e.FinishEvent? && Possible(s, e) && WorksValid(s) && SessionsValid(s)
    ensures Settled(c, next, key) == Settled(c, s, key).Plus(Charged(c, s, e, key))
    ensures SpendOf(next, key) == SpendOf(s, key)
         || SpendOf(next, key) == SpendOf(s, key).Plus(Actual(c, FinalUsage(s, e.id, e.late)).Minus(c.request))
  {
    assert next == Step(c, s, e);
    PendingHolds(s, e.id);
    FinishSettles(c, s, e.id, e.late, key);
  }

  lemma {:induction false} RestoreCharges(c: Config, s: State, e: Event, next: State, key: Namespace)
    requires Follows(c, s, e, next) && e.RestoreEvent? && Possible(s, e)
    ensures Settled(c, next, key) == Settled(c, s, key).Plus(Charged(c, s, e, key))
    ensures SpendOf(next, key) == SpendOf(s, key) || SpendOf(next, key) == Larger(SpendOf(s, key), e.usage)
  {
    assert next == Step(c, s, e);
    RestoreSettles(c, s, e.key, e.usage, key);
  }

  /** One step moves a session's settled spend by exactly what the step charges. */
  lemma {:induction false} StepCharges(c: Config, s: State, e: Event, next: State, key: Namespace, charged: Tokens)
    requires Core(s) && ConfigValid(c) && Follows(c, s, e, next) && charged == Charged(c, s, e, key)
    ensures Settled(c, next, key) == Settled(c, s, key).Plus(charged)
  {
    if !Possible(s, e) || e.PumpEvent? || e.SettleEvent? {
      QuietCharges(c, s, e, next, key);
    } else if e.SubmitEvent? {
      SubmitCharges(c, s, e, next, key);
    } else if e.FinishEvent? {
      FinishCharges(c, s, e, next, key);
    } else if e.RestoreEvent? {
      RestoreCharges(c, s, e, next, key);
    } else {
      StopCharges(c, s, e, next, key);
      NothingCharged(c, s, e, key);
      PlusNothing(Settled(c, s, key));
    }
  }

  /** A valid state, stated through a quantifier so that its parts stay folded. */
  ghost predicate Sane(s: State) {
    forall at :: at == s ==> Valid(at)
  }

  lemma {:induction false} StepMoves(c: Config, s: State, e: Event, next: State, key: Namespace, charged: Tokens)
    requires Sane(s) && ConfigValid(c) && Follows(c, s, e, next) && charged == Charged(c, s, e, key)
    ensures Settled(c, next, key) == Settled(c, s, key).Plus(charged)
  {
    assert Valid(s);
    StepCharges(c, s, e, next, key, charged);
  }

  lemma {:induction false} ExecutionSane(c: Config, states: seq<State>, events: seq<Event>, n: nat)
    requires Execution(c, states, events) && Sane(states[0]) && n <= |events|
    ensures Sane(states[n])
  {
    assert Valid(states[0]);
    ExecutionValid(c, states, events, n);
  }

  lemma {:induction false} OneMoreCharge(
      c: Config, states: seq<State>, events: seq<Event>, key: Namespace, n: nat, settled: Tokens, charged: Tokens)
    requires Execution(c, states, events) && Sane(states[0]) && ConfigValid(c) && 0 < n <= |events|
    requires Settled(c, states[n - 1], key) == settled && charged == Charged(c, states[n - 1], events[n - 1], key)
    ensures Settled(c, states[n], key) == settled.Plus(charged)
  {
    ExecutionSane(c, states, events, n - 1);
    StepMoves(c, states[n - 1], events[n - 1], states[n], key, charged);
  }

  lemma {:induction false} ChargesAddUp(c: Config, states: seq<State>, events: seq<Event>, key: Namespace, n: nat)
      returns (settled: Tokens, total: Tokens)
    requires Execution(c, states, events) && Sane(states[0]) && ConfigValid(c) && n <= |events|
    ensures settled == Settled(c, states[n], key) && total == TotalCharged(c, states, events, key, n)
    ensures settled == Settled(c, states[0], key).Plus(total)
  {
    settled, total := Settled(c, states[n], key), TotalCharged(c, states, events, key, n);
    if n > 0 {
      var before, sum := ChargesAddUp(c, states, events, key, n - 1);
      var charged := Charged(c, states[n - 1], events[n - 1], key);
      OneMoreCharge(c, states, events, key, n, before, charged);
      assert total == sum.Plus(charged);
      PlusAssociates(Settled(c, states[0], key), sum, charged);
    } else {
      PlusNothing(settled);
    }
  }

  /**
   * Over any run a session's spend is what finished requests and restores charged to it, plus one full
   * reservation exactly while it has an active job.
   */
  lemma {:induction false} SpendIsAccounted(c: Config, states: seq<State>, events: seq<Event>, key: Namespace, n: nat)
    requires Execution(c, states, events) && states[0] == INITIAL && ConfigValid(c) && n <= |events|
    ensures SpendOf(states[n], key)
         == TotalCharged(c, states, events, key, n).Plus(if ActiveOf(states[n], key).Some? then c.request else NOTHING)
  {
    InitialValid();
    var settled, total := ChargesAddUp(c, states, events, key, n);
  }

  lemma {:induction false} ChargesAreNonNegative(c: Config, states: seq<State>, events: seq<Event>, key: Namespace, n: nat)
    requires ConfigValid(c) && n <= |events| && n <= |states|
    ensures NOTHING.AtMost(TotalCharged(c, states, events, key, n))
  {
    if n > 0 {
      ChargesAreNonNegative(c, states, events, key, n - 1);
    }
  }

  /** From the start on, no session's spend is ever negative, nor is what is left of it without its reservation. */
  lemma {:induction false} SpendIsNeverNegative(c: Config, states: seq<State>, events: seq<Event>, key: Namespace, n: nat)
    requires Execution(c, states, events) && states[0] == INITIAL && ConfigValid(c) && n <= |events|
    ensures NOTHING.AtMost(Settled(c, states[n], key)) && Settled(c, states[n], key).AtMost(SpendOf(states[n], key))
  {
    SpendIsAccounted(c, states, events, key, n);
    ChargesAreNonNegative(c, states, events, key, n);
  }

  // ------------------------------------------------------------------------ the limit

  /** The provider reports no more than was reserved, and no restore exceeds the limit. */
  predicate Honest(c: Config, s: State, e: Event) {
    match e
    case FinishEvent(id, late) => Actual(c, FinalUsage(s, id, late)).AtMost(c.request)
    case RestoreEvent(_, usage) => usage.AtMost(c.session)
    case _ => true
  }

  lemma {:induction false} StepWithinLimit(c: Config, s: State, e: Event, next: State, key: Namespace)
    requires Core(s) && ConfigValid(c) && Follows(c, s, e, next) && Honest(c, s, e)
    requires SpendOf(s, key).AtMost(c.session)
    ensures SpendOf(next, key).AtMost(c.session)
  {
    if !Possible(s, e) || e.PumpEvent? || e.SettleEvent? {
      QuietCharges(c, s, e, next, key);
    } else if e.SubmitEvent? {
      SubmitCharges(c, s, e, next, key);
    } else if e.FinishEvent? {
      FinishCharges(c, s, e, next, key);
    } else if e.RestoreEvent? {
      RestoreCharges(c, s, e, next, key);
    } else {
      StopCharges(c, s, e, next, key);
    }
  }

  /** While providers stay within their ceilings, no session ever spends more than its limit. */
  lemma {:induction false} SpendStaysWithinLimit(c: Config, states: seq<State>, events: seq<Event>, key: Namespace, n: nat)
    requires Execution(c, states, events) && states[0] == INITIAL && ConfigValid(c) && n <= |events|
    requires forall i :: 0 <= i < n ==> Honest(c, states[i], events[i])
    ensures SpendOf(states[n], key).AtMost(c.session)
  {
    if n > 0 {
      InitialValid();
      ExecutionValid(c, states, events, n - 1);
      SpendStaysWithinLimit(c, states, events, key, n - 1);
      StepWithinLimit(c, states[n - 1], events[n - 1], states[n], key);
    }
  }

  /**
   * A restored consumption counts in full exactly when the session has no active job or had already
   * settled that much: the maximum is taken over the reservation, which is given back later.
   */
  lemma RestoreCountsExactly(c: Config, s: State, key: Namespace, usage: Tokens)
    requires c.request.input > 0 && c.request.output > 0
    requires NOTHING.AtMost(usage)
    ensures usage.AtMost(Settled(c, Restore(s, key, usage), key)) <==>
            ActiveOf(s, key).None? || usage.AtMost(Settled(c, s, key))
  {
    var before, after := SpendOf(s, key), SpendOf(Restore(s, key, usage), key);
    assert key in s.sessions ==> after == Larger(before, usage);
    assert key !in s.sessions ==> after == usage;
  }

  lemma {:induction false} ChargesGrow(c: Config, states: seq<State>, events: seq<Event>, key: Namespace, k: nat, n: nat)
    requires ConfigValid(c) && k <= n <= |events| && n <= |states|
    ensures TotalCharged(c, states, events, key, k).AtMost(TotalCharged(c, states, events, key, n))
  {
    if k < n {
      ChargesGrow(c, states, events, key, k, n - 1);
    }
  }

  /** What the events from the `k`-th to before the `n`-th charge to a session. */
  function LaterCharged(c: Config, states: seq<State>, events: seq<Event>, key: Namespace, k: nat, n: nat): Tokens
    requires k <= n <= |events| && n <= |states|
  {
    TotalCharged(c, states, events, key, n).Minus(TotalCharged(c, states, events, key, k))
  }

  lemma SettledSince(c: Config, states: seq<State>, events: seq<Event>, key: Namespace, k: nat, n: nat)
    requires Execution(c, states, events) && Sane(states[0]) && ConfigValid(c) && k <= n <= |events|
    ensures Settled(c, states[n], key) == Settled(c, states[k], key).Plus(LaterCharged(c, states, events, key, k, n))
    ensures NOTHING.AtMost(LaterCharged(c, states, events, key, k, n))
  {
    var before, charged := ChargesAddUp(c, states, events, key, k);
    var after, total := ChargesAddUp(c, states, events, key, n);
    ChargesGrow(c, states, events, key, k, n);
  }

  /** In both kinds of tokens what was settled before and charged later covers the usage, or later charges reach the reservation. */
  predicate Covered(c: Config, before: Tokens, later: Tokens, usage: Tokens) {
    && (usage.input <= before.input + later.input || c.request.input <= later.input)
    && (usage.output <= before.output + later.output || c.request.output <= later.output)
  }

  lemma RestoredSettled(c: Config, s: State, key: Namespace, usage: Tokens, later: Tokens)
    requires NOTHING.AtMost(usage) && NOTHING.AtMost(later)
    ensures usage.AtMost(Settled(c, Restore(s, key, usage), key).Plus(later)) <==>
            ActiveOf(s, key).None? || Covered(c, Settled(c, s, key), later, usage)
  {
    var before, after := SpendOf(s, key), SpendOf(Restore(s, key, usage), key);
    assert key in s.sessions ==> after == Larger(before, usage);
    assert key !in s.sessions ==> after == usage;
  }

  lemma FollowsRestore(c: Config, s: State, key: Namespace, usage: Tokens, next: State)
    requires Follows(c, s, RestoreEvent(key, usage), next) && Possible(s, RestoreEvent(key, usage))
    ensures next == Restore(s, key, usage)
  {
    assert next == Step(c, s, RestoreEvent(key, usage));
  }

  /**
   * Over runs: at every later time the settled spend covers a restored usage exactly when no job was active
   * at the restore, or what was settled before it and charged after it covers the usage anyway. Otherwise
   * the restore is lost.
   */
  lemma RestoreCountsOverRuns(
      c: Config, states: seq<State>, events: seq<Event>, key: Namespace, usage: Tokens, k: nat, n: nat)
    requires Execution(c, states, events) && states[0] == INITIAL && ConfigValid(c) && k < n <= |events|
    requires events[k] == RestoreEvent(key, usage) && Possible(states[k], events[k])
    ensures usage.AtMost(Settled(c, states[n], key)) <==>
            || ActiveOf(states[k], key).None?
            || Covered(c, Settled(c, states[k], key), LaterCharged(c, states, events, key, k + 1, n), usage)
  {
    InitialValid();
    SettledSince(c, states, events, key, k + 1, n);
    assert Follows(c, states[k], events[k], states[k + 1]);
    FollowsRestore(c, states[k], key, usage, states[k + 1]);
    RestoredSettled(c, states[k], key, usage, LaterCharged(c, states, events, key, k + 1, n));
  }

  /** A restore of 800 tokens while 1000 are reserved, and a request that then used ten, leave a spend of ten. */
  lemma RestoreAbsorbed(c: Config, s: State, id: Id, key: Namespace)
    requires Valid(s) && c.request == Tokens(1000, 1000) && ActiveOf(s, key) == Some(id) && SpendOf(s, key) == c.request
    requires CleaningUp(s, id)
    ensures var restored := Restore(s, key, Tokens(800, 800));
            CleaningUp(restored, id) &&
            SpendOf(Finish(c, restored, id, Some(Usage(Some(10), Some(10)))), key) == Tokens(10, 10)
  {
    var restored := Restore(s, key, Tokens(800, 800));
    RestoreValid(s, key, Tokens(800, 800));
    assert s.sessions[key].active == Some(id) && s.pending[id].session == key;
    PendingHolds(restored, id);
    FinishSettles(c, restored, id, Some(Usage(Some(10), Some(10))), key);
  }

  /** A request, its provider's failure, a restore while the permit is still held, and the usage reported last. */
  function AbsorbingRun(input: Submission, id: Id): seq<Event> {
    [SubmitEvent(input, id), PumpEvent, SettleEvent(id, Rejection(UNKNOWN)), RestoreEvent(input.namespace, Tokens(800, 800)),
     FinishEvent(id, Some(Usage(Some(10), Some(10))))]
  }

  /** What a request that fails leaves before its provider has settled. */
  lemma FailedKeepsReservation(c: Config, input: Submission, id: Id)
    requires c.request == Tokens(1000, 1000) && Answered(c, INITIAL, input).None? && input.prepared.Prepared?
    ensures Step(c, INITIAL, SubmitEvent(input, id)) == Admit(c, INITIAL, input, id)
    ensures var running := Step(c, Admit(c, INITIAL, input, id), PumpEvent);
            && Possible(running, SettleEvent(id, Rejection(UNKNOWN)))
            && var failed := Step(c, running, SettleEvent(id, Rejection(UNKNOWN)));
            && CleaningUp(failed, id) && ActiveOf(failed, input.namespace) == Some(id)
            && SpendOf(failed, input.namespace) == c.request && input.namespace in failed.sessions && !failed.disposed
  {
    var queued := Admit(c, INITIAL, input, id);
    assert queued.queue == [id] && Start(queued).queue == [];
    assert Pump(queued) == Start(queued);
  }

  function Run(c: Config, s: State, events: seq<Event>): (states: seq<State>)
    ensures |states| == |events| + 1 && states[0] == s
    decreases |events|
  {
    if events == [] then [s] else [s] + Run(c, Step(c, s, events[0]), events[1..])
  }

  lemma {:induction false} RunIsExecution(c: Config, s: State, events: seq<Event>)
    ensures Execution(c, Run(c, s, events), events)
    decreases |events|
  {
    if events != [] {
      var next := Step(c, s, events[0]);
      var rest := Run(c, next, events[1..]);
      RunIsExecution(c, next, events[1..]);
      forall i, j | 0 <= i < |events| && j == i + 1
        ensures Follows(c, ([s] + rest)[i], events[i], ([s] + rest)[j])
      {
        if i > 0 {
          assert Follows(c, rest[i - 1], events[1..][i - 1], rest[j - 1]);
        }
      }
    }
  }

  /** The states of a run of five events. */
  lemma RunOfFive(c: Config, s: State, events: seq<Event>)
    requires |events| == 5
    ensures var r := Run(c, s, events);
            && r[1] == Step(c, s, events[0]) && r[2] == Step(c, r[1], events[1]) && r[3] == Step(c, r[2], events[2])
            && r[4] == Step(c, r[3], events[3]) && r[5] == Step(c, r[4], events[4])
  {
    RunIsExecution(c, s, events);
    var r := Run(c, s, events);
    forall i | 0 <= i < 5
      ensures r[i + 1] == Step(c, r[i], events[i])
    {
      assert Follows(c, r[i], events[i], r[i + 1]);
    }
  }

  /** The same from the start: a run in which a restore of 800 tokens and a use of ten leave a spend of ten. */
  lemma RestoreIsForgotten(c: Config, input: Submission, id: Id)
    requires ConfigValid(c) && c.request == Tokens(1000, 1000) && Answered(c, INITIAL, input).None? && input.prepared.Prepared?
    ensures var states := Run(c, INITIAL, AbsorbingRun(input, id));
            && Execution(c, states, AbsorbingRun(input, id))
            && Possible(states[3], RestoreEvent(input.namespace, Tokens(800, 800)))
            && SpendOf(states[5], input.namespace) == Tokens(10, 10)
  {
    var events := AbsorbingRun(input, id);
    RunIsExecution(c, INITIAL, events);
    RunOfFive(c, INITIAL, events);
    var states := Run(c, INITIAL, events);
    FailedKeepsReservation(c, input, id);
    InitialValid();
    ExecutionValid(c, states, events, 3);
    RestoreAndFinish(c, states[3], id, input.namespace);
  }

  lemma RestoreAndFinish(c: Config, s: State, id: Id, key: Namespace)
    requires Valid(s) && c.request == Tokens(1000, 1000) && ActiveOf(s, key) == Some(id) && SpendOf(s, key) == c.request
    requires CleaningUp(s, id) && !s.disposed
    ensures Possible(s, RestoreEvent(key, Tokens(800, 800)))
    ensures var restored := Step(c, s, RestoreEvent(key, Tokens(800, 800)));
            SpendOf(Step(c, restored, FinishEvent(id, Some(Usage(Some(10), Some(10))))), key) == Tokens(10, 10)
  {
    RestoreAbsorbed(c, s, id, key);
  }

  // ---------------------------------------------------------------------- publication

  predicate IsCompleted(s: State, id: Id) {
    id in s.jobs && s.jobs[id].status == Completed
  }

  /** No job is published between two states. */
  ghost predicate PublishesNone(s: State, next: State) {
    forall id :: IsCompleted(next, id) ==> IsCompleted(s, id)
  }

  lemma {:induction false} PumpPublishesNone(s: State)
    requires Core(s)
    ensures PublishesNone(s, Pump(s))
    decreases |s.queue|
  {
    if !s.disposed && s.running < MAX_RUNNING && s.queue != [] {
      StartCore(s);
      PumpPublishesNone(Start(s));
    }
  }

  lemma {:induction false} CancelPublishesNone(c: Config, s: State, id: Id)
    requires Core(s)
    ensures PublishesNone(s, Cancel(c, s, id))
  {
    if Cancellable(s, id) && id in s.queue {
      WithdrawCore(c, s, id);
      PumpPublishesNone(Withdraw(c, s, id));
    }
  }

  lemma {:induction false} CancelAllPublishesNone(c: Config, s: State, ids: seq<Id>)
    requires Core(s)
    ensures PublishesNone(s, CancelAll(c, s, ids))
    decreases |ids|
  {
    if ids != [] {
      CancelCore(c, s, ids[0]);
      CancelPublishesNone(c, s, ids[0]);
      CancelAllPublishesNone(c, Cancel(c, s, ids[0]), ids[1..]);
    }
  }

  lemma {:induction false} SettlePublishesOne(c: Config, s: State, id: Id, outcome: Outcome)
    requires Valid(s) && Racing(s, id)
    ensures forall x :: IsCompleted(Settle(c, s, id, outcome), x) && !IsCompleted(s, x) ==> x == id && Publishes(c, s, id, outcome)
  {
    assert WorkValid(s, id);
    if Publishes(c, s, id, outcome) {
      PublishPublishesOne(Noted(s, id, outcome), id);
    } else {
      var job := SettleDecides(c, s, id, outcome);
    }
  }

  lemma PublishPublishesOne(s: State, id: Id)
    requires id in s.pending && id in s.jobs
    ensures forall x :: IsCompleted(Publish(s, id), x) && !IsCompleted(s, x) ==> x == id
  {
    TrimFromKeeps(s.(jobs := s.jobs[id := s.jobs[id].(status := Completed, published := true)],
                     cache := Put(s.cache, s.pending[id].cacheKey, id)), 0);
  }

  lemma {:induction false} SubmitPublishesNone(c: Config, s: State, input: Submission, id: Id)
    requires Valid(s)
    ensures PublishesNone(s, Submit(c, s, input, id))
  {
    if Answered(c, s, input).None? {
      TrimFromKeeps(Admit(c, s, input, id), 0);
    }
  }

  lemma {:induction false} DisposePublishesNone(c: Config, s: State)
    requires Core(s)
    ensures PublishesNone(s, Dispose(c, s))
  {
    DisposedCore(s);
    CancelAllPublishesNone(c, s.(disposed := true), s.order);
    forall id | IsCompleted(Dispose(c, s), id)
      ensures IsCompleted(s, id)
    {
      assert IsCompleted(CancelAll(c, s.(disposed := true), s.order), id);
      assert IsCompleted(s.(disposed := true), id);
    }
  }

  lemma {:induction false} FinishPublishesNone(c: Config, s: State, id: Id, late: Option<Usage>)
    requires Valid(s) && CleaningUp(s, id)
    ensures PublishesNone(s, Finish(c, s, id, late))
  {
    var extra := Actual(c, FinalUsage(s, id, late)).Minus(c.request);
    ReleasedCore(s, id, extra);
    PumpPublishesNone(Released(s, id, extra));
    forall x | IsCompleted(Finish(c, s, id, late), x)
      ensures IsCompleted(s, x)
    {
      assert IsCompleted(Released(s, id, extra), x);
    }
  }

  /**
   * A job becomes completed only by a sound delivery within its ceilings that wins the race before any
   * cancellation, timeout or disposal fired its signal.
   */
  lemma {:induction false} OnlySoundDeliveriesPublish(c: Config, s: State, e: Event, id: Id)
    requires Valid(s) && IsCompleted(Step(c, s, e), id) && !IsCompleted(s, id)
    ensures e.SettleEvent? && e.id == id && Publishes(c, s, id, e.outcome) && !s.pending[id].aborted && !s.disposed
  {
    if !Possible(s, e) {
      return;
    }
    match e
    case SubmitEvent(input, created) => SubmitPublishesNone(c, s, input, created);
    case GetEvent(asked, source) => CancelPublishesNone(c, s, asked);
    case CancelEvent(asked) => CancelPublishesNone(c, s, asked);
    case PumpEvent => PumpPublishesNone(s);
    case SettleEvent(racing, outcome) => SettlePublishesOne(c, s, racing, outcome);
    case FinishEvent(done, late) => FinishPublishesNone(c, s, done, late);
    case RestoreEvent(_, _) =>
    case DisposeEvent => DisposePublishesNone(c, s);
  }
}
