/** The storage ledger: reserve, write, grant and reconcile under a mutex that a crash releases. */
module Ownership {
  import opened Texts

  type Hash = Text

  datatype RowState = Pending | Published

  datatype Row = Row(hash: Hash, size: nat, state: RowState)

  datatype Ref = Ref(session: Text, hash: Hash)

  /** Where the one publisher that holds the mutex stands. */
  datatype Phase =
    | Began
    | Reconciled
    | Reserved(session: Text, hash: Hash, size: nat)
    | Written(session: Text, hash: Hash, size: nat)
    | Closing
    | Closed

  /** What survives a crash is everything but the holder of the mutex. */
  datatype State = State(objects: set<Hash>, rows: seq<Row>, refs: set<Ref>, holder: Option<Phase>)

  // ------------------------------------------------------------------------- the ledger

  predicate HasRow(rows: seq<Row>, hash: Hash) {
    exists i :: 0 <= i < |rows| && rows[i].hash == hash
  }

  function RowOf(rows: seq<Row>, hash: Hash): (r: Option<Row>)
    ensures r.Some? <==> HasRow(rows, hash)
    ensures r.Some? ==> r.value.hash == hash && r.value in rows
  {
    if rows == [] then None
    else if rows[0].hash == hash then Some(rows[0])
    else
      assert rows == [rows[0]] + rows[1..];
      assert forall i :: 0 <= i < |rows| - 1 ==> rows[1..][i] == rows[i + 1];
      RowOf(rows[1..], hash)
  }

  function Usage(rows: seq<Row>): nat {
    if rows == [] then 0 else rows[0].size + Usage(rows[1..])
  }

  /** Whether a reservation is accepted: a known object of the same size, or a new one within the limit. */
  predicate Accepts(rows: seq<Row>, hash: Hash, size: nat, limit: nat) {
    match RowOf(rows, hash)
    case Some(row) => row.size == size
    case None => Usage(rows) + size <= limit
  }

  function Reserve(rows: seq<Row>, hash: Hash, size: nat, limit: nat): seq<Row> {
    if RowOf(rows, hash).None? && Usage(rows) + size <= limit then rows + [Row(hash, size, Pending)] else rows
  }

  /** Pending rows are published when their object exists and dropped when it does not. */
  function Reconcile(rows: seq<Row>, objects: set<Hash>): seq<Row> {
    if rows == [] then []
    else if rows[0].state.Published? then [rows[0]] + Reconcile(rows[1..], objects)
    else if rows[0].hash in objects then [rows[0].(state := Published)] + Reconcile(rows[1..], objects)
    else Reconcile(rows[1..], objects)
  }

  // -------------------------------------------------------------------------- the steps

  datatype Event =
    | Begin
    | FirstReconcile
    | ReserveStep(session: Text, hash: Hash, size: nat, limit: nat)
    | WriteStep(linked: bool)
    | GrantStep
    | LastReconcile
    | Release
    | Crash
    | Backfill(hash: Hash, size: nat)

  /** Each step needs its predecessor; a crash and the backfill of an existing object can happen at any time. */
  predicate Possible(s: State, e: Event) {
    match e
    case Begin => s.holder.None?
    case FirstReconcile => s.holder == Some(Began)
    case ReserveStep(_, _, _, _) => s.holder == Some(Reconciled)
    case WriteStep(_) => s.holder.Some? && s.holder.value.Reserved?
    case GrantStep => s.holder.Some? && s.holder.value.Written?
    case LastReconcile => s.holder == Some(Closing)
    case Release => s.holder == Some(Closed)
    case Crash => s.holder.Some?
    case Backfill(hash, _) => hash in s.objects
  }

  function Step(s: State, e: Event): State {
    if !Possible(s, e) then s else
    match e
    case Begin => s.(holder := Some(Began))
    case FirstReconcile => s.(rows := Reconcile(s.rows, s.objects), holder := Some(Reconciled))
    case ReserveStep(session, hash, size, limit) =>
      s.(rows := Reserve(s.rows, hash, size, limit),
         holder := Some(if Accepts(s.rows, hash, size, limit) then Reserved(session, hash, size) else Closing))
    case WriteStep(linked) =>
      var held := s.holder.value;
      if linked then s.(objects := s.objects + {held.hash}, holder := Some(Written(held.session, held.hash, held.size)))
      else s.(holder := Some(Closing))
    case GrantStep => s.(refs := s.refs + {Ref(s.holder.value.session, s.holder.value.hash)}, holder := Some(Closing))
    case LastReconcile => s.(rows := Reconcile(s.rows, s.objects), holder := Some(Closed))
    case Release => s.(holder := None)
    case Crash => s.(holder := None)
    case Backfill(hash, size) => s.(rows := if RowOf(s.rows, hash).None? then s.rows + [Row(hash, size, Pending)] else s.rows)
  }

  ghost predicate Execution(states: seq<State>, events: seq<Event>) {
    && |states| == |events| + 1
    && forall i, j :: 0 <= i < |events| && j == i + 1 ==> states[j] == Step(states[i], events[i])
  }

  // ---------------------------------------------------------------------- the invariant

  ghost predicate OneRowEach(rows: seq<Row>) {
    forall i, j :: 0 <= i < j < |rows| ==> rows[i].hash != rows[j].hash
  }

  /** Published rows have their objects. */
  ghost predicate PublishedExist(rows: seq<Row>, objects: set<Hash>) {
    forall row :: row in rows && row.state.Published? ==> row.hash in objects
  }

  /** The ledger counts the object with this size. */
  ghost predicate Holds(rows: seq<Row>, hash: Hash, size: nat) {
    exists i :: 0 <= i < |rows| && rows[i].hash == hash && rows[i].size == size
  }

  /** The publisher's own row, with its size, is there from the reservation on, and its object from the write on. */
  ghost predicate HolderValid(s: State) {
    s.holder.Some? ==>
      && (s.holder.value.Reserved? || s.holder.value.Written? ==> Holds(s.rows, s.holder.value.hash, s.holder.value.size))
      && (s.holder.value.Written? ==> s.holder.value.hash in s.objects)
  }

  /** `legacy` are the objects that were there before any ledger. */
  ghost predicate Valid(s: State, legacy: set<Hash>) {
    && OneRowEach(s.rows) && PublishedExist(s.rows, s.objects) && HolderValid(s)
    && (forall hash :: hash in s.objects ==> hash in legacy || HasRow(s.rows, hash))
    && (forall ref :: ref in s.refs ==> ref.hash in s.objects)
  }

  // ------------------------------------------------------------------------ small lemmas

  lemma {:induction false} ConsRow(head: Row, rest: seq<Row>)
    ensures forall hash :: HasRow([head] + rest, hash) <==> hash == head.hash || HasRow(rest, hash)
  {
    var all := [head] + rest;
    forall hash
      ensures HasRow(all, hash) <==> hash == head.hash || HasRow(rest, hash)
    {
      assert all[0] == head && forall i :: 0 <= i < |rest| ==> all[i + 1] == rest[i];
    }
  }

  lemma {:induction false} PushRow(rows: seq<Row>, row: Row)
    ensures forall hash :: HasRow(rows + [row], hash) <==> HasRow(rows, hash) || hash == row.hash
    ensures Usage(rows + [row]) == Usage(rows) + row.size
    ensures OneRowEach(rows) && !HasRow(rows, row.hash) ==> OneRowEach(rows + [row])
  {
    if rows == [] {
      assert rows + [row] == [row] + [];
      ConsRow(row, []);
    } else {
      PushRow(rows[1..], row);
      assert rows + [row] == [rows[0]] + (rows[1..] + [row]);
      assert rows == [rows[0]] + rows[1..];
      ConsRow(rows[0], rows[1..] + [row]);
      ConsRow(rows[0], rows[1..]);
    }
  }

  lemma {:induction false} TailRows(rows: seq<Row>)
    requires rows != [] && OneRowEach(rows)
    ensures OneRowEach(rows[1..]) && !HasRow(rows[1..], rows[0].hash)
  {
    assert forall i :: 0 <= i < |rows| - 1 ==> rows[1..][i] == rows[i + 1];
  }

  lemma {:induction false} ConsDistinct(head: Row, rest: seq<Row>)
    requires OneRowEach(rest) && !HasRow(rest, head.hash)
    ensures OneRowEach([head] + rest)
  {
  }

  /** Published, or pending with its object on disk. */
  ghost predicate Survives(row: Row, objects: set<Hash>) {
    row.state == Published || row.hash in objects
  }

  /** The rows that survive, each with its hash and size and now published, and no other. */
  ghost predicate Reconciles(rows: seq<Row>, objects: set<Hash>, after: seq<Row>) {
    && OneRowEach(after)
    && (forall row :: row in rows && Survives(row, objects) ==> Row(row.hash, row.size, Published) in after)
    && (forall row :: row in after ==> row.state == Published && Surviving(rows, objects, row.hash, row.size))
  }

  ghost predicate Surviving(rows: seq<Row>, objects: set<Hash>, hash: Hash, size: nat) {
    exists row :: row in rows && row.hash == hash && row.size == size && Survives(row, objects)
  }

  /** The rows that do not survive. */
  ghost predicate Drops(rows: seq<Row>, objects: set<Hash>, dropped: seq<Row>) {
    OneRowEach(dropped) && forall row :: row in dropped <==> row in rows && !Survives(row, objects)
  }

  /**
   * Reconciling keeps hash and size of every row that survives, leaves nothing pending, and lowers usage by
   * exactly the sizes of the rows that it drops.
   */
  lemma {:induction false} ReconcileIs(rows: seq<Row>, objects: set<Hash>) returns (dropped: seq<Row>)
    requires OneRowEach(rows)
    ensures Reconciles(rows, objects, Reconcile(rows, objects)) && Drops(rows, objects, dropped)
    ensures Usage(rows) == Usage(Reconcile(rows, objects)) + Usage(dropped)
  {
    dropped := [];
    if rows != [] {
      TailRows(rows);
      var rest := ReconcileIs(rows[1..], objects);
      var after := Reconcile(rows[1..], objects);
      assert rows == [rows[0]] + rows[1..];
      ReconciledCons(rows[0], rows[1..], objects, after, rest);
      dropped := if Survives(rows[0], objects) then rest else [rows[0]] + rest;
    }
  }

  lemma ReconciledCons(head: Row, tail: seq<Row>, objects: set<Hash>, after: seq<Row>, dropped: seq<Row>)
    requires !HasRow(tail, head.hash) && Reconciles(tail, objects, after) && Drops(tail, objects, dropped)
    ensures Survives(head, objects) ==>
              && Reconciles([head] + tail, objects, [Row(head.hash, head.size, Published)] + after)
              && Drops([head] + tail, objects, dropped)
    ensures !Survives(head, objects) ==>
              && Reconciles([head] + tail, objects, after)
              && Drops([head] + tail, objects, [head] + dropped)
  {
    forall row | row in after
      ensures Surviving([head] + tail, objects, row.hash, row.size) && row.hash != head.hash
    {
      var kept :| kept in tail && kept.hash == row.hash && kept.size == row.size && Survives(kept, objects);
      assert kept in [head] + tail;
    }
    forall row | row in dropped
      ensures row.hash != head.hash
    {
      assert row in tail;
    }
    assert head in [head] + tail;
    if Survives(head, objects) {
      assert Surviving([head] + tail, objects, head.hash, head.size);
      ConsDistinct(Row(head.hash, head.size, Published), after);
    } else {
      ConsDistinct(head, dropped);
    }
  }

  /** What a reconciliation leaves, and that a pending row at the end is all that a second one looks at. */
  lemma {:induction false} ReconcileLast(left: seq<Row>, last: Row, objects: set<Hash>)
    requires (forall row :: row in left ==> row.state == Published) && last.state == Pending
    ensures Reconcile(left, objects) == left
    ensures Reconcile(left + [last], objects) == left + if last.hash in objects then [Row(last.hash, last.size, Published)] else []
  {
    if left == [] {
      assert left + [last] == [last] && [last][1..] == [];
    } else {
      assert (left + [last])[1..] == left[1..] + [last];
      ReconcileLast(left[1..], last, objects);
    }
  }

  lemma SurvivorsHeld(rows: seq<Row>, objects: set<Hash>, after: seq<Row>, hash: Hash, size: nat)
    requires Reconciles(rows, objects, after) && Holds(rows, hash, size) && hash in objects
    ensures Holds(after, hash, size)
  {
    var i :| 0 <= i < |rows| && rows[i].hash == hash && rows[i].size == size;
    assert rows[i] in rows && Survives(rows[i], objects);
    assert Row(hash, size, Published) in after;
  }

  lemma RowHeld(rows: seq<Row>, hash: Hash)
    requires HasRow(rows, hash)
    ensures exists size :: Holds(rows, hash, size)
  {
    var i :| 0 <= i < |rows| && rows[i].hash == hash;
    assert Holds(rows, hash, rows[i].size);
  }

  // ------------------------------------------------------------------------ every run

  lemma {:induction false} ReconcileValid(s: State, legacy: set<Hash>, phase: Phase)
    requires Valid(s, legacy) && !phase.Reserved? && !phase.Written?
    ensures Valid(s.(rows := Reconcile(s.rows, s.objects), holder := Some(phase)), legacy)
  {
    var dropped := ReconcileIs(s.rows, s.objects);
    var after := Reconcile(s.rows, s.objects);
    forall hash | hash in s.objects && HasRow(s.rows, hash)
      ensures HasRow(after, hash)
    {
      RowHeld(s.rows, hash);
      var size :| Holds(s.rows, hash, size);
      SurvivorsHeld(s.rows, s.objects, after, hash, size);
    }
  }

  lemma {:induction false} StepValid(s: State, e: Event, legacy: set<Hash>)
    requires Valid(s, legacy)
    ensures Valid(Step(s, e), legacy)
  {
    if Possible(s, e) {
      match e
      case FirstReconcile => ReconcileValid(s, legacy, Reconciled);
      case LastReconcile => ReconcileValid(s, legacy, Closed);
      case ReserveStep(session, hash, size, limit) =>
        PushRow(s.rows, Row(hash, size, Pending));
        ReserveHolds(s.rows, hash, size, limit);
      case Backfill(hash, size) =>
        PushRow(s.rows, Row(hash, size, Pending));
        BackfillKeeps(s, hash, size);
      case _ =>
    }
  }

  lemma PushHeld(rows: seq<Row>, row: Row, hash: Hash, size: nat)
    ensures Holds(rows, hash, size) ==> Holds(rows + [row], hash, size)
    ensures Holds(rows + [row], row.hash, row.size)
  {
    assert (rows + [row])[|rows|] == row;
    if Holds(rows, hash, size) {
      var i :| 0 <= i < |rows| && rows[i].hash == hash && rows[i].size == size;
      assert (rows + [row])[i] == rows[i];
    }
  }

  /** An accepted reservation leaves a row with its own hash and size. */
  lemma ReserveHolds(rows: seq<Row>, hash: Hash, size: nat, limit: nat)
    ensures Accepts(rows, hash, size, limit) ==> Holds(Reserve(rows, hash, size, limit), hash, size)
  {
    PushHeld(rows, Row(hash, size, Pending), hash, size);
  }

  lemma BackfillKeeps(s: State, hash: Hash, size: nat)
    requires HolderValid(s) && hash in s.objects
    ensures HolderValid(Step(s, Backfill(hash, size)))
  {
    if s.holder.Some? && (s.holder.value.Reserved? || s.holder.value.Written?) {
      PushHeld(s.rows, Row(hash, size, Pending), s.holder.value.hash, s.holder.value.size);
    }
  }

  /**
   * With a crash possible between any two steps: every object written through a publication is counted in
   * the ledger, and every granted reference has its object on disk.
   */
  lemma {:induction false} ExecutionValid(states: seq<State>, events: seq<Event>, legacy: set<Hash>, n: nat)
    requires Execution(states, events) && Valid(states[0], legacy) && n <= |events|
    ensures Valid(states[n], legacy)
  {
    if n > 0 {
      ExecutionValid(states, events, legacy, n - 1);
      StepValid(states[n - 1], events[n - 1], legacy);
    }
  }

  /** The object was reserved with this size before the `n`th event. */
  ghost predicate ReservedEarlier(events: seq<Event>, n: nat, session: Text, hash: Hash, size: nat)
    requires n <= |events|
  {
    exists j :: 0 <= j < n && events[j].ReserveStep? && events[j].session == session && events[j].hash == hash && events[j].size == size
  }

  lemma {:induction false} HolderReserved(states: seq<State>, events: seq<Event>, n: nat)
    requires Execution(states, events) && states[0].holder.None? && n <= |events|
    ensures states[n].holder.Some? && (states[n].holder.value.Reserved? || states[n].holder.value.Written?) ==>
              ReservedEarlier(events, n, states[n].holder.value.session, states[n].holder.value.hash, states[n].holder.value.size)
  {
    if n > 0 {
      HolderReserved(states, events, n - 1);
      assert states[n] == Step(states[n - 1], events[n - 1]);
    }
  }

  /** A row whose object exists keeps its size through every step. */
  lemma {:induction false} HeldOn(s: State, e: Event, hash: Hash, size: nat)
    requires OneRowEach(s.rows) && Holds(s.rows, hash, size) && hash in s.objects
    ensures Holds(Step(s, e).rows, hash, size) && hash in Step(s, e).objects
  {
    if Possible(s, e) {
      match e
      case FirstReconcile =>
        var dropped := ReconcileIs(s.rows, s.objects);
        SurvivorsHeld(s.rows, s.objects, Reconcile(s.rows, s.objects), hash, size);
      case LastReconcile =>
        var dropped := ReconcileIs(s.rows, s.objects);
        SurvivorsHeld(s.rows, s.objects, Reconcile(s.rows, s.objects), hash, size);
      case ReserveStep(_, named, own, _) => PushHeld(s.rows, Row(named, own, Pending), hash, size);
      case Backfill(named, own) => PushHeld(s.rows, Row(named, own, Pending), hash, size);
      case _ =>
    }
  }

  /**
   * With a crash possible between any two steps: once an object was written through a publication, the ledger
   * counts it, for good, with the size that a reservation before the write gave.
   */
  lemma {:induction false} WrittenSizeStays(states: seq<State>, events: seq<Event>, legacy: set<Hash>, w: nat, n: nat)
    requires Execution(states, events) && Valid(states[0], legacy) && states[0].holder.None?
    requires w < n <= |events| && events[w] == WriteStep(true) && Possible(states[w], events[w])
    ensures var held := states[w].holder.value;
            && ReservedEarlier(events, w, held.session, held.hash, held.size)
            && held.hash in states[n].objects && Holds(states[n].rows, held.hash, held.size)
  {
    ExecutionValid(states, events, legacy, n - 1);
    assert states[n] == Step(states[n - 1], events[n - 1]);
    if n == w + 1 {
      HolderReserved(states, events, w);
    } else {
      WrittenSizeStays(states, events, legacy, w, n - 1);
      HeldOn(states[n - 1], events[n - 1], states[w].holder.value.hash, states[w].holder.value.size);
    }
  }

  /** An accepted reservation never takes the ledger over its limit, and a refused one changes nothing. */
  lemma ReservationsFit(rows: seq<Row>, hash: Hash, size: nat, limit: nat)
    ensures Accepts(rows, hash, size, limit) ==> HasRow(Reserve(rows, hash, size, limit), hash)
    ensures Reserve(rows, hash, size, limit) == rows || Usage(Reserve(rows, hash, size, limit)) == Usage(rows) + size <= limit
    ensures !Accepts(rows, hash, size, limit) ==> Reserve(rows, hash, size, limit) == rows
  {
    PushRow(rows, Row(hash, size, Pending));
  }

  /** On a reconciled ledger a known object is accepted at its own size only, and a new one within the limit. */
  lemma LeftAccepts(left: seq<Row>, hash: Hash, size: nat, limit: nat)
    requires OneRowEach(left) && forall row :: row in left ==> row.state == Published
    ensures Accepts(left, hash, size, limit) <==>
            if HasRow(left, hash) then Row(hash, size, Published) in left else Usage(left) + size <= limit
    ensures HasRow(left, hash) ==> Reserve(left, hash, size, limit) == left
  {
    var known := RowOf(left, hash);
    if known.Some? && Row(hash, size, Published) in left {
      var i :| 0 <= i < |left| && left[i] == Row(hash, size, Published);
      var j :| 0 <= j < |left| && left[j] == known.value;
      assert i == j;
    }
  }

  predicate WithinLimit(e: Event, limit: nat) {
    match e
    case ReserveStep(_, _, _, own) => own <= limit
    case Backfill(_, _) => false
    case _ => true
  }

  /** Without backfills the whole ledger stays within the largest limit anybody reserves under. */
  lemma {:induction false} LedgerStaysWithinLimit(states: seq<State>, events: seq<Event>, limit: nat, legacy: set<Hash>, n: nat)
    requires Execution(states, events) && Valid(states[0], legacy) && n <= |events| && Usage(states[0].rows) <= limit
    requires forall i :: 0 <= i < n ==> WithinLimit(events[i], limit)
    ensures Usage(states[n].rows) <= limit
  {
    if n > 0 {
      LedgerStaysWithinLimit(states, events, limit, legacy, n - 1);
      ExecutionValid(states, events, legacy, n - 1);
      UsageStep(states[n - 1], events[n - 1], limit);
    }
  }

  lemma {:induction false} UsageStep(s: State, e: Event, limit: nat)
    requires OneRowEach(s.rows) && Usage(s.rows) <= limit && WithinLimit(e, limit)
    ensures Usage(Step(s, e).rows) <= limit
  {
    if Possible(s, e) {
      match e
      case FirstReconcile => var dropped := ReconcileIs(s.rows, s.objects);
      case LastReconcile => var dropped := ReconcileIs(s.rows, s.objects);
      case ReserveStep(session, hash, size, own) => ReservationsFit(s.rows, hash, size, own);
      case _ =>
    }
  }

  /** A reserved but never written row of a crashed publisher is gone after the next reconciliation. */
  lemma AbandonedRowsAreFreed(s: State, hash: Hash, legacy: set<Hash>)
    requires Valid(s, legacy) && hash !in s.objects && s.holder == Some(Began)
    ensures !HasRow(Step(s, FirstReconcile).rows, hash)
  {
    var dropped := ReconcileIs(s.rows, s.objects);
    var after := Reconcile(s.rows, s.objects);
    var row := RowOf(after, hash);
  }

  // ------------------------------------------------------------------------- the store

  class OwnershipStore {
    var objects: set<Hash>
    var rows: seq<Row>
    var refs: set<Ref>
    var holder: Option<Phase>

    function View(): State
      reads this
    {
      State(objects, rows, refs, holder)
    }

    constructor (legacy: set<Hash>)
      ensures View() == State(legacy, [], {}, None) && Valid(View(), legacy)
    {
      objects, rows, refs, holder := legacy, [], {}, None;
    }

    method ReconcilePending()
      requires OneRowEach(rows)
      modifies this`rows
      ensures rows == Reconcile(old(rows), objects) && Reconciles(old(rows), objects, rows)
      ensures Usage(rows) <= Usage(old(rows))
    {
      ghost var dropped := ReconcileIs(rows, objects);
      SweepPending();
    }

    method SweepPending()
      modifies this`rows
      ensures rows == Reconcile(old(rows), objects)
    {
      var kept: seq<Row> := [];
      var i := 0;
      ghost var goal := Reconcile(rows, objects);
      assert rows[0..] == rows;
      while i < |rows|
        invariant 0 <= i <= |rows| && rows == old(rows)
        invariant kept + Reconcile(rows[i..], objects) == goal
      {
        var row := rows[i];
        assert rows[i..][1..] == rows[i + 1..];
        if row.state.Published? {
          kept := kept + [row];
        } else if row.hash in objects {
          kept := kept + [row.(state := Published)];
        }
        i := i + 1;
      }
      rows := kept;
    }

    method TryReserve(hash: Hash, size: nat, limit: nat) returns (accepted: bool)
      modifies this`rows
      ensures accepted == Accepts(old(rows), hash, size, limit) && rows == Reserve(old(rows), hash, size, limit)
      ensures accepted ==> HasRow(rows, hash) && Holds(rows, hash, size)
      ensures rows == old(rows) || (accepted && Usage(rows) == Usage(old(rows)) + size <= limit)
    {
      ReservationsFit(rows, hash, size, limit);
      ReserveHolds(rows, hash, size, limit);
      var existing := RowOf(rows, hash);
      if existing.Some? {
        return existing.value.size == size;
      }
      if Usage(rows) + size > limit {
        return false;
      }
      rows := rows + [Row(hash, size, Pending)];
      return true;
    }

    /**
     * One whole publication without a crash, where `left` is the ledger as the first reconciliation leaves it.
     * A known object is granted at its own size only, and a new one within the limit. Once granted, the object
     * exists, is counted as published with the reserved size, and belongs to the session. The ledger is `left`
     * with at most that row added: when it was new and its object exists in the end.
     */
    method Publish(session: Text, hash: Hash, size: nat, limit: nat, linked: bool, ghost legacy: set<Hash>)
        returns (granted: bool, ghost left: seq<Row>)
      requires Valid(View(), legacy) && holder.None?
      modifies this
      ensures Valid(View(), legacy) && holder.None?
      ensures Reconciles(old(rows), old(objects), left)
      ensures granted <==> linked && (if HasRow(left, hash) then Row(hash, size, Published) in left else Usage(left) + size <= limit)
      ensures granted ==> objects == old(objects) + {hash} && refs == old(refs) + {Ref(session, hash)}
      ensures granted ==> Row(hash, size, Published) in rows
      ensures !granted ==> objects == old(objects) && refs == old(refs)
      ensures if !HasRow(left, hash) && Usage(left) + size <= limit && (linked || hash in old(objects))
              then rows == left + [Row(hash, size, Published)] && Usage(rows) == Usage(left) + size <= limit
              else rows == left
    {
      var accepted;
      OpenLedger(legacy);
      left := rows;
      accepted := ReserveOpen(session, hash, size, limit, legacy);
      granted := false;
      if accepted {
        granted := WriteAndGrant(session, hash, size, linked, legacy);
      }
      ghost var held := rows;
      CloseLedger(legacy);
      ReconcileLast(left, Row(hash, size, Pending), objects);
      PushRow(left, Row(hash, size, Published));
      assert held == left || held == left + [Row(hash, size, Pending)];
    }

    method OpenLedger(ghost legacy: set<Hash>)
      requires Valid(View(), legacy) && holder.None?
      modifies this`rows, this`holder
      ensures Valid(View(), legacy) && holder == Some(Reconciled) && Reconciles(old(rows), objects, rows)
    {
      StepValid(View(), Begin, legacy);
      holder := Some(Began);
      StepValid(View(), FirstReconcile, legacy);
      ReconcilePending();
      holder := Some(Reconciled);
    }

    method ReserveOpen(session: Text, hash: Hash, size: nat, limit: nat, ghost legacy: set<Hash>) returns (accepted: bool)
      requires Valid(View(), legacy) && holder == Some(Reconciled) && forall row :: row in rows ==> row.state == Published
      modifies this`rows, this`holder
      ensures Valid(View(), legacy) && holder == Some(if accepted then Reserved(session, hash, size) else Closing)
      ensures accepted <==>
              if HasRow(old(rows), hash) then Row(hash, size, Published) in old(rows) else Usage(old(rows)) + size <= limit
      ensures rows == if accepted && !HasRow(old(rows), hash) then old(rows) + [Row(hash, size, Pending)] else old(rows)
    {
      LeftAccepts(rows, hash, size, limit);
      StepValid(View(), ReserveStep(session, hash, size, limit), legacy);
      accepted := TryReserve(hash, size, limit);
      holder := Some(if accepted then Reserved(session, hash, size) else Closing);
    }

    method WriteAndGrant(session: Text, hash: Hash, size: nat, linked: bool, ghost legacy: set<Hash>) returns (granted: bool)
      requires Valid(View(), legacy) && holder == Some(Reserved(session, hash, size))
      modifies this`objects, this`refs, this`holder
      ensures Valid(View(), legacy) && holder == Some(Closing) && granted == linked
      ensures granted ==> objects == old(objects) + {hash} && refs == old(refs) + {Ref(session, hash)}
      ensures !granted ==> objects == old(objects) && refs == old(refs)
    {
      StepValid(View(), WriteStep(linked), legacy);
      if !linked {
        holder := Some(Closing);
        return false;
      }
      objects := objects + {hash};
      holder := Some(Written(session, hash, size));
      StepValid(View(), GrantStep, legacy);
      refs := refs + {Ref(session, hash)};
      holder := Some(Closing);
      return true;
    }

    method CloseLedger(ghost legacy: set<Hash>)
      requires Valid(View(), legacy) && holder == Some(Closing)
      modifies this`rows, this`holder
      ensures Valid(View(), legacy) && holder.None?
      ensures rows == Reconcile(old(rows), objects)
    {
      StepValid(View(), LastReconcile, legacy);
      ReconcilePending();
      holder := Some(Closed);
      StepValid(View(), Release, legacy);
      holder := None;
    }
  }
}
