/** The turns a plan must leave alone, computed alike by the planner and by the host adapter. */
module Retention {
  import opened Texts
  import opened Messages
  import opened Substitution
  import opened Contract

  predicate StartsTurn(ms: seq<Message>, i: nat)
    requires i < |ms|
  {
    i == 0 || ms[i].role.User?
  }

  /** Where the turns of the first `n` messages start. */
  function TurnStarts(ms: seq<Message>, n: nat): (r: seq<nat>)
    requires n <= |ms|
    ensures |r| <= n
    ensures n > 0 ==> |r| > 0 && r[0] == 0
    ensures forall k :: 0 <= k < |r| ==> r[k] < n && StartsTurn(ms, r[k])
    ensures forall i, j :: 0 <= i < j < |r| ==> r[i] < r[j]
  {
    if n == 0 then []
    else if StartsTurn(ms, n - 1) then TurnStarts(ms, n - 1) + [n - 1]
    else TurnStarts(ms, n - 1)
  }

  /** Start of the retained tail: `retain` completed turns and the active one. */
  function RecentStart(ms: seq<Message>, retain: nat): (r: nat)
    ensures r <= |ms| && (ms != [] ==> r < |ms|)
  {
    var starts := TurnStarts(ms, |ms|);
    if starts == [] then 0
    else if |starts| > retain + 1 then starts[|starts| - retain - 1] else starts[0]
  }

  /** How many turns start at `from` or later, before `n`: at the first message, and with every message of the user. */
  function Turns(ms: seq<Message>, from: nat, n: nat): nat
    requires n <= |ms|
  {
    if n <= from then 0 else Turns(ms, from, n - 1) + if n == 1 || ms[n - 1].role == User then 1 else 0
  }

  /** A turn starts at `r`, and `retain` turns start behind it, or it is the first one and there are fewer. */
  ghost predicate Retains(ms: seq<Message>, retain: nat, r: nat) {
    if ms == [] then r == 0
    else
      && r < |ms| && (r == 0 || ms[r].role == User)
      && Turns(ms, r, |ms|) <= retain + 1 && (r > 0 ==> Turns(ms, r, |ms|) == retain + 1)
  }

  lemma {:induction false} TurnsCount(ms: seq<Message>, n: nat, j: nat)
    requires n <= |ms| && j < |TurnStarts(ms, n)|
    ensures Turns(ms, TurnStarts(ms, n)[j], n) == |TurnStarts(ms, n)| - j
  {
    if StartsTurn(ms, n - 1) && j == |TurnStarts(ms, n)| - 1 {
      assert Turns(ms, n - 1, n - 1) == 0;
    } else {
      TurnsCount(ms, n - 1, j);
    }
  }

  lemma RecentStartRetains(ms: seq<Message>, retain: nat)
    ensures Retains(ms, retain, RecentStart(ms, retain))
  {
    var starts := TurnStarts(ms, |ms|);
    if starts != [] {
      TurnsCount(ms, |ms|, if |starts| > retain + 1 then |starts| - retain - 1 else 0);
    }
  }

  /** No other boundary is as good. */
  lemma {:induction false} RetainsOnce(ms: seq<Message>, retain: nat, a: nat, b: nat)
    requires Retains(ms, retain, a) && Retains(ms, retain, b)
    ensures a == b
  {
    if a < b {
      TurnsShrink(ms, a, b, |ms|);
    } else if b < a {
      TurnsShrink(ms, b, a, |ms|);
    }
  }

  lemma {:induction false} TurnsShrink(ms: seq<Message>, a: nat, b: nat, n: nat)
    requires a < b < |ms| && b < n <= |ms| && (a == 0 || ms[a].role == User)
    ensures Turns(ms, a, n) > Turns(ms, b, n)
  {
    if n > b + 1 {
      TurnsShrink(ms, a, b, n - 1);
    } else {
      TurnsCovers(ms, a, b);
    }
  }

  lemma {:induction false} TurnsCovers(ms: seq<Message>, a: nat, n: nat)
    requires a < n <= |ms| && (a == 0 || ms[a].role == User)
    ensures Turns(ms, a, n) > 0
  {
    if n > a + 1 {
      TurnsCovers(ms, a, n - 1);
    }
  }

  method ComputeRecentStart(ms: seq<Message>, retain: nat) returns (r: nat)
    ensures r == RecentStart(ms, retain) && Retains(ms, retain, r)
  {
    RecentStartRetains(ms, retain);
    var starts: seq<nat> := [];
    for i := 0 to |ms|
      invariant starts == TurnStarts(ms, i)
    {
      if i == 0 || ms[i].role.User? {
        starts := starts + [i];
      }
    }
    var index := if |starts| > retain + 1 then |starts| - retain - 1 else 0;
    r := if index < |starts| then starts[index] else 0;
  }

  lemma {:induction false} TurnStartsPrefix(ms: seq<Message>, tail: seq<Message>, n: nat)
    requires n <= |ms|
    ensures TurnStarts(ms + tail, n) == TurnStarts(ms, n)
  {
    if n > 0 {
      TurnStartsPrefix(ms, tail, n - 1);
    }
  }

  lemma {:induction false} TurnStartsGrow(ms: seq<Message>, n: nat, m: nat)
    requires n <= m <= |ms|
    ensures |TurnStarts(ms, n)| <= |TurnStarts(ms, m)|
    ensures TurnStarts(ms, m)[..|TurnStarts(ms, n)|] == TurnStarts(ms, n)
  {
    if n < m {
      TurnStartsGrow(ms, n, m - 1);
    }
  }

  /** Appending messages only moves the boundary forward. */
  lemma BoundaryAdvances(ms: seq<Message>, tail: seq<Message>, retain: nat)
    ensures RecentStart(ms, retain) <= RecentStart(ms + tail, retain)
  {
    var longer := ms + tail;
    TurnStartsPrefix(ms, tail, |ms|);
    TurnStartsGrow(longer, |ms|, |longer|);
    var a, b := TurnStarts(ms, |ms|), TurnStarts(longer, |longer|);
    assert b[..|a|] == a;
    if |a| > retain + 1 {
      assert b[|a| - retain - 1] == a[|a| - retain - 1];
    } else if a != [] {
      assert b[0] == a[0];
    }
  }

  lemma {:induction false} LastStartIsLastUser(ms: seq<Message>, n: nat, u: nat)
    requires u < n <= |ms| && ms[u].role.User?
    ensures u in TurnStarts(ms, n)
  {
    if u < n - 1 {
      LastStartIsLastUser(ms, n - 1, u);
    }
  }

  /** The boundary never lies behind the last user message, so a snapshot up to it covers everything older. */
  lemma BoundaryBeforeLastUser(ms: seq<Message>, retain: nat, u: nat)
    requires u < |ms| && ms[u].role.User?
    requires forall i :: u < i < |ms| ==> ms[i].role.Assistant?
    ensures RecentStart(ms, retain) <= u
  {
    LastStartIsLastUser(ms, |ms|, u);
    var starts := TurnStarts(ms, |ms|);
    var k :| 0 <= k < |starts| && starts[k] == u;
  }

  /** With no user message there is one turn and nothing may be edited. */
  lemma NoUserNoHistory(ms: seq<Message>, retain: nat)
    requires forall i :: 0 <= i < |ms| ==> ms[i].role.Assistant?
    ensures RecentStart(ms, retain) == 0
  {
  }

  /** The host's guard: no operation names a retained message. */
  ghost predicate RespectsRetention(ms: seq<Message>, ops: seq<ViewOperation>, retain: nat) {
    forall op, i :: op in ops && RecentStart(ms, retain) <= i < |ms| ==> ms[i].id !in IdsOf(op)
  }

  /** A plan built below the boundary of a history passes the guard of every longer history. */
  lemma GuardNeverTightens(h: Hashing, ms: seq<Message>, tail: seq<Message>, ops: seq<ViewOperation>, bound: nat, retain: nat)
    requires bound <= |ms| && UniqueIds(ms + tail)
    requires forall op :: op in ops ==> Fits(h, ms, bound, op)
    requires forall op :: op in ops ==> Start(ms, op) + Width(op) <= RecentStart(ms, retain)
    ensures RespectsRetention(ms + tail, ops, retain)
  {
    BoundaryAdvances(ms, tail, retain);
    var longer := ms + tail;
    forall op, i | op in ops && RecentStart(longer, retain) <= i < |longer|
      ensures longer[i].id !in IdsOf(op)
    {
      forall k | 0 <= k < |IdsOf(op)|
        ensures longer[i].id != IdsOf(op)[k]
      {
        assert Fits(h, ms, bound, op);
        if op.Range? {
          assert RangeSource(h, ms[Start(ms, op) + k], op.messageIds[k], op.sourceDigests[k]);
        }
        assert longer[Start(ms, op) + k].id == IdsOf(op)[k];
      }
    }
  }
}
