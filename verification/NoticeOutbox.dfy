/**
  The outbox of notices to a person: queued once per fact, relayed until
  accepted, set aside for review after twenty recorded failures. Times are
  nanoseconds.
*/
module NoticeOutbox {
  import opened Options

  const MAX_ATTEMPTS: nat := 20
  const SECOND: int := 1_000_000_000

  /** A row's id is its place in the table: the database's fresh key. */
  datatype Row = Row(
    key: string, user: string, kind: string, reference: string, createdAt: int,
    attempts: nat, nextAttempt: int, delivered: Option<int>, review: bool)

  /** One call of the relay for a row, and whether it was accepted. */
  datatype Call = Call(row: nat, accepted: bool)

  datatype State = State(rows: seq<Row>, calls: seq<Call>)

  const Empty := State([], [])

  // ---- queueing ------------------------------------------------------------------

  predicate HasKey(rows: seq<Row>, key: string) { exists x :: 0 <= x < |rows| && rows[x].key == key }

  predicate KeyFits(key: string) { 1 <= |key| <= 200 }

  function Fresh(key: string, user: string, kind: string, reference: string, now: int): Row {
    Row(key, user, kind, reference, now, 0, now, None, false)
  }

  function Enqueue(s: State, key: string, user: string, kind: string, reference: string, now: int): State {
    if !KeyFits(key) || HasKey(s.rows, key) then s else s.(rows := s.rows + [Fresh(key, user, kind, reference, now)])
  }

  // ---- relaying ------------------------------------------------------------------

  function Power2(n: nat): (p: nat)
    ensures p >= 1
  {
    if n == 0 then 1 else 2 * Power2(n - 1)
  }

  /** The wait after the failure that found `attempts` recorded ones. */
  function Delay(attempts: nat): (d: int)
    ensures SECOND <= d <= 600 * SECOND
  {
    SECOND * if Power2(attempts) <= 600 then Power2(attempts) else 600
  }

  predicate Due(r: Row, now: int) { r.delivered.None? && !r.review && r.nextAttempt <= now }

  /** The first n rows' next one due that no other relay holds. */
  function NextDue(rows: seq<Row>, n: nat, held: set<nat>, now: int): (best: Option<nat>)
    requires n <= |rows|
    ensures best.Some? ==> best.value < n
  {
    if n == 0 then None
    else
      var best := NextDue(rows, n - 1, held, now);
      if Due(rows[n - 1], now) && n - 1 !in held && (best.None? || rows[n - 1].nextAttempt < rows[best.value].nextAttempt)
      then Some(n - 1) else best
  }

  function Failed(r: Row, now: int): Row {
    r.(attempts := r.attempts + 1, review := r.attempts + 1 >= MAX_ATTEMPTS, nextAttempt := now + Delay(r.attempts))
  }

  function Accepted(r: Row, now: int): Row { r.(delivered := Some(now)) }

  datatype Outcome = NothingDue | Relayed | NotCommitted

  /** What surrounds one relay transaction: rows held elsewhere, the relay's answer, whether the commit is lost. */
  datatype Try = Try(held: set<nat>, now: int, accepted: bool, commits: bool)

  function Dispatch(s: State, t: Try): (State, Outcome) {
    match NextDue(s.rows, |s.rows|, t.held, t.now)
    case None => (s, NothingDue)
    case Some(x) =>
      var calls := s.calls + [Call(x, t.accepted)];
      if !t.commits then (s.(calls := calls), NotCommitted)
      else
        (State(s.rows[x := if t.accepted then Accepted(s.rows[x], t.now) else Failed(s.rows[x], t.now)], calls), Relayed)
  }

  /** Relays until nothing is due, a transaction is lost, or the tries are used up; counts the relayed rows. */
  function Drain(s: State, tries: seq<Try>): (State, nat, bool)
    decreases |tries|
  {
    if tries == [] then (s, 0, true)
    else
      var (t, out) := Dispatch(s, tries[0]);
      match out
      case NothingDue => (t, 0, true)
      case NotCommitted => (t, 0, false)
      case Relayed => var (u, n, ok) := Drain(t, tries[1..]); (u, n + 1, ok)
  }

  // ---- what relaying picks ---------------------------------------------------------

  /** The earliest due row, the older of two equals; none only when none is due. */
  lemma {:induction false} NextDueIsEarliest(rows: seq<Row>, n: nat, held: set<nat>, now: int)
    requires n <= |rows|
    ensures match NextDue(rows, n, held, now)
            case None => forall y :: 0 <= y < n && y !in held ==> !Due(rows[y], now)
            case Some(x) =>
              && Due(rows[x], now) && x !in held
              && (forall y :: 0 <= y < n && y !in held && Due(rows[y], now) ==>
                    rows[x].nextAttempt < rows[y].nextAttempt || (rows[x].nextAttempt == rows[y].nextAttempt && x <= y))
  {
    if n > 0 { NextDueIsEarliest(rows, n - 1, held, now); }
  }

  // ---- what every run keeps ----------------------------------------------------------

  datatype Step = Queue(key: string, user: string, kind: string, reference: string, now: int) | Relay(t: Try)

  function Do(s: State, step: Step): State {
    match step
    case Queue(key, user, kind, reference, now) => Enqueue(s, key, user, kind, reference, now)
    case Relay(t) => Dispatch(s, t).0
  }

  function Exec(s: State, steps: seq<Step>): State
    decreases |steps|
  {
    if steps == [] then s else Do(Exec(s, steps[..|steps| - 1]), steps[|steps| - 1])
  }

  /** The waits before the given number of failures, added up. */
  function Delays(attempts: nat): int {
    if attempts == 0 then 0 else Delays(attempts - 1) + Delay(attempts - 1)
  }

  function Count(calls: seq<Call>, row: nat, accepted: bool): nat
    decreases |calls|
  {
    if calls == [] then 0
    else
      var n := |calls| - 1;
      Count(calls[..n], row, accepted) + if calls[n] == Call(row, accepted) then 1 else 0
  }

  /** Calls not recorded because the worker died or its commit was lost. */
  function Lost(steps: seq<Step>): nat
    decreases |steps|
  {
    if steps == [] then 0
    else
      var n := |steps| - 1;
      Lost(steps[..n]) + if steps[n].Relay? && !steps[n].t.commits then 1 else 0
  }

  ghost predicate RowOk(r: Row) {
    && r.attempts <= MAX_ATTEMPTS
    && (r.review <==> r.attempts == MAX_ATTEMPTS)
    && (r.review ==> r.delivered.None?)
    && r.nextAttempt >= r.createdAt + Delays(r.attempts)
  }

  /** What the relay calls say about a row, give or take the lost ones. */
  ghost predicate CallsMatch(s: State, x: nat, lost: nat)
    requires x < |s.rows|
  {
    var ok := if s.rows[x].delivered.Some? then 1 else 0;
    && ok <= Count(s.calls, x, true) <= ok + lost
    && s.rows[x].attempts <= Count(s.calls, x, false) <= s.rows[x].attempts + lost
  }

  ghost predicate Inv(s: State, lost: nat) {
    && (forall x :: 0 <= x < |s.rows| ==> RowOk(s.rows[x]) && CallsMatch(s, x, lost))
    && (forall x, y :: 0 <= x < y < |s.rows| ==> s.rows[x].key != s.rows[y].key)
    && (forall c :: 0 <= c < |s.calls| ==> s.calls[c].row < |s.rows|)
  }

  lemma {:induction false} CountOfNoRow(calls: seq<Call>, x: nat, accepted: bool)
    requires forall c :: 0 <= c < |calls| ==> calls[c].row < x
    ensures Count(calls, x, accepted) == 0
    decreases |calls|
  {
    if calls != [] { CountOfNoRow(calls[..|calls| - 1], x, accepted); }
  }

  lemma CountPlusOne(calls: seq<Call>, c: Call, x: nat, accepted: bool)
    ensures Count(calls + [c], x, accepted) == Count(calls, x, accepted) + if c == Call(x, accepted) then 1 else 0
  {
    assert (calls + [c])[..|calls|] == calls;
  }

  lemma QueueKeeps(s: State, key: string, user: string, kind: string, reference: string, now: int, lost: nat)
    requires Inv(s, lost)
    ensures Inv(Enqueue(s, key, user, kind, reference, now), lost)
  {
    var t := Enqueue(s, key, user, kind, reference, now);
    if t != s {
      var n := |s.rows|;
      CountOfNoRow(s.calls, n, true);
      CountOfNoRow(s.calls, n, false);
      forall x | 0 <= x < |t.rows| ensures RowOk(t.rows[x]) && CallsMatch(t, x, lost) {
        if x < n { assert RowOk(s.rows[x]) && CallsMatch(s, x, lost); }
      }
    }
  }

  lemma FailedRowOk(r: Row, now: int)
    requires RowOk(r) && Due(r, now)
    ensures RowOk(Failed(r, now))
  {
    hide Delay;
  }

  lemma CallMatches(s: State, u: State, x: nat, t: Try, y: nat, lost: nat)
    requires x < |s.rows| == |u.rows| && y < |s.rows| && Due(s.rows[x], t.now) && CallsMatch(s, y, lost)
    requires u.calls == s.calls + [Call(x, t.accepted)]
    requires u.rows == if !t.commits then s.rows
                       else s.rows[x := if t.accepted then Accepted(s.rows[x], t.now) else Failed(s.rows[x], t.now)]
    ensures CallsMatch(u, y, if t.commits then lost else lost + 1)
  {
    hide Delay;
    CountPlusOne(s.calls, Call(x, t.accepted), y, true);
    CountPlusOne(s.calls, Call(x, t.accepted), y, false);
  }

  lemma DispatchKeeps(s: State, t: Try, lost: nat)
    requires Inv(s, lost)
    ensures Inv(Dispatch(s, t).0, if t.commits then lost else lost + 1)
  {
    hide RowOk, CallsMatch, Failed;
    NextDueIsEarliest(s.rows, |s.rows|, t.held, t.now);
    var u := Dispatch(s, t).0;
    var more := if t.commits then lost else lost + 1;
    match NextDue(s.rows, |s.rows|, t.held, t.now)
    case None => LostGrows(s, lost, more);
    case Some(x) =>
      KeyStays(s.rows[x], t.now);
      forall y | 0 <= y < |u.rows| ensures RowOk(u.rows[y]) && CallsMatch(u, y, more) {
        if y == x { FailedRowOk(s.rows[x], t.now); AcceptedRowOk(s.rows[x], t.now); }
        CallMatches(s, u, x, t, y, lost);
      }
  }

  lemma KeyStays(r: Row, now: int)
    ensures Failed(r, now).key == r.key
  {}

  lemma AcceptedRowOk(r: Row, now: int)
    requires RowOk(r) && Due(r, now)
    ensures RowOk(Accepted(r, now))
  {}

  lemma LostGrows(s: State, lost: nat, more: nat)
    requires Inv(s, lost) && lost <= more
    ensures Inv(s, more)
  {
    forall x | 0 <= x < |s.rows| ensures CallsMatch(s, x, more) { assert CallsMatch(s, x, lost); }
  }

  lemma {:induction false} RunKeeps(steps: seq<Step>)
    ensures Inv(Exec(Empty, steps), Lost(steps))
    decreases |steps|
  {
    hide Inv, Enqueue, Dispatch;
    if steps == [] {
      assert Inv(Empty, 0) by { EmptyOk(); }
    } else {
      var n := |steps| - 1;
      RunKeeps(steps[..n]);
      var s := Exec(Empty, steps[..n]);
      match steps[n]
      case Queue(key, user, kind, reference, now) => QueueKeeps(s, key, user, kind, reference, now, Lost(steps[..n]));
      case Relay(t) => DispatchKeeps(s, t, Lost(steps[..n]));
    }
  }

  lemma EmptyOk()
    ensures Inv(Empty, 0)
  {}

  // ---- main results ------------------------------------------------------------------

  /**
    In every run: one row per fact; a row records at most twenty failures and
    needs review exactly after the twentieth; a delivered row was accepted by
    the relay, and calls and records differ only by the lost transactions.
  */
  lemma OutboxSafety(steps: seq<Step>, x: nat, y: nat)
    requires var s := Exec(Empty, steps); x < |s.rows| && y < |s.rows|
    ensures var s := Exec(Empty, steps);
            && (s.rows[x].key == s.rows[y].key ==> x == y)
            && s.rows[x].attempts <= MAX_ATTEMPTS
            && (s.rows[x].review <==> s.rows[x].attempts == MAX_ATTEMPTS)
            && (s.rows[x].delivered.Some? ==> Call(x, true) in s.calls && !s.rows[x].review)
            && CallsMatch(s, x, Lost(steps))
  {
    hide Exec;
    RunKeeps(steps);
    var s := Exec(Empty, steps);
    assert RowOk(s.rows[x]) && CallsMatch(s, x, Lost(steps));
    if s.rows[x].delivered.Some? { CountedCall(s.calls, x, true); }
  }

  lemma {:induction false} CountedCall(calls: seq<Call>, x: nat, accepted: bool)
    requires Count(calls, x, accepted) > 0
    ensures Call(x, accepted) in calls
    decreases |calls|
  {
    var n := |calls| - 1;
    if calls[n] != Call(x, accepted) { CountedCall(calls[..n], x, accepted); }
  }

  /** Without crashes every notice is relayed at most twenty times without success and accepted at most once. */
  lemma AtMostOnceWithoutCrashes(steps: seq<Step>, x: nat)
    requires Lost(steps) == 0 && x < |Exec(Empty, steps).rows|
    ensures var s := Exec(Empty, steps);
            && Count(s.calls, x, true) == (if s.rows[x].delivered.Some? then 1 else 0)
            && Count(s.calls, x, false) == s.rows[x].attempts <= MAX_ATTEMPTS
  {
    hide Exec;
    OutboxSafety(steps, x, x);
  }

  /** Only the relay's bookkeeping may differ. */
  predicate SameNotice(r: Row, q: Row) {
    q.(attempts := r.attempts, nextAttempt := r.nextAttempt, delivered := r.delivered, review := r.review) == r
  }

  /** A row once queued keeps its place and content, and is left alone for good once delivered or under review. */
  lemma {:induction false} RowsStay(s: State, steps: seq<Step>, x: nat)
    requires x < |s.rows|
    ensures var u := Exec(s, steps);
            && x < |u.rows| && SameNotice(s.rows[x], u.rows[x])
            && (s.rows[x].delivered.Some? || s.rows[x].review ==>
                  u.rows[x] == s.rows[x] && forall accepted :: Count(u.calls, x, accepted) == Count(s.calls, x, accepted))
    decreases |steps|
  {
    hide Delay, NextDue, Count;
    if steps != [] {
      var n := |steps| - 1;
      RowsStay(s, steps[..n], x);
      var m := Exec(s, steps[..n]);
      if steps[n].Relay? {
        var t := steps[n].t;
        NextDueIsEarliest(m.rows, |m.rows|, t.held, t.now);
        var best := NextDue(m.rows, |m.rows|, t.held, t.now);
        if best.Some? {
          CountPlusOne(m.calls, Call(best.value, t.accepted), x, true);
          CountPlusOne(m.calls, Call(best.value, t.accepted), x, false);
        }
      }
    }
  }

  function Time(step: Step): int { if step.Queue? then step.now else step.t.now }

  /** No notice is forgotten: at every moment it is delivered, under review, or due within ten minutes of the last step. */
  lemma {:induction false} NothingIsForgotten(steps: seq<Step>, latest: int, x: nat)
    requires forall n :: 0 <= n < |steps| ==> Time(steps[n]) <= latest
    requires x < |Exec(Empty, steps).rows|
    ensures var r := Exec(Empty, steps).rows[x];
            forall later :: later >= latest + 600 * SECOND ==> r.delivered.Some? || r.review || Due(r, later)
    decreases |steps|
  {
    hide Delay;
    var n := |steps| - 1;
    if steps != [] && x < |Exec(Empty, steps[..n]).rows| {
      NothingIsForgotten(steps[..n], latest, x);
    }
    if steps != [] { assert Time(steps[n]) <= latest; }
  }

  lemma DelaysOfTwenty()
    ensures Delays(MAX_ATTEMPTS) == 7023 * SECOND
  {
    assert Delays(5) == 31 * SECOND;
    assert Power2(5) == 32;
    assert Delays(10) == 1023 * SECOND;
    PowersPass(10);
    PowersPass(11);
    PowersPass(12);
    PowersPass(13);
    PowersPass(14);
    assert Delays(15) == 4023 * SECOND;
    PowersPass(15);
    PowersPass(16);
    PowersPass(17);
    PowersPass(18);
    PowersPass(19);
  }

  lemma {:induction false} PowersPass(n: nat)
    requires n >= 10
    ensures Power2(n) >= 1024 && Delay(n) == 600 * SECOND
  {
    if n == 10 {
      assert Power2(5) == 32;
    } else {
      PowersPass(n - 1);
    }
  }

  /**
    An outage shorter than 6423 seconds never sets a notice aside: the
    twentieth failure is at least that long after it was queued, because its
    next attempt would come 600 seconds later.
  */
  lemma ReviewTakesTime(steps: seq<Step>, x: nat)
    requires x < |Exec(Empty, steps).rows| && Exec(Empty, steps).rows[x].review
    ensures var r := Exec(Empty, steps).rows[x]; r.nextAttempt - 600 * SECOND >= r.createdAt + 6423 * SECOND
  {
    hide Exec, Delay;
    RunKeeps(steps);
    DelaysOfTwenty();
    assert RowOk(Exec(Empty, steps).rows[x]);
  }

  /** A drain relays at most as many rows as it has tries, and stops short only when nothing is due or a transaction is lost. */
  lemma {:induction false} DrainStops(s: State, tries: seq<Try>)
    ensures var (u, n, ok) := Drain(s, tries);
            && n <= |tries|
            && (ok && n < |tries| ==> forall x :: 0 <= x < |u.rows| && x !in tries[n].held ==> !Due(u.rows[x], tries[n].now))
            && (!ok ==> n < |tries| && !tries[n].commits)
            && |u.calls| == |s.calls| + n + (if ok then 0 else 1)
    decreases |tries|
  {
    hide Failed, NextDue;
    if tries != [] {
      NextDueIsEarliest(s.rows, |s.rows|, tries[0].held, tries[0].now);
      if Dispatch(s, tries[0]).1.Relayed? {
        DrainStops(Dispatch(s, tries[0]).0, tries[1..]);
      }
    }
  }

  // ---- what one transaction leaves -------------------------------------------------------

  /** The wait after a failure that found n recorded ones: a second, doubled each time, at most ten minutes. */
  lemma Waits(n: nat)
    ensures Delay(n) == (if n < 10 then [1, 2, 4, 8, 16, 32, 64, 128, 256, 512][n] else 600) * 1_000_000_000
  {
    assert Power2(3) == 8 && Power2(6) == 64 && Power2(9) == 512;
    if n >= 10 { PowersPass(n); }
  }

  /** A row the relay may take: neither delivered, under review nor waiting, and not held elsewhere. */
  predicate Free(rows: seq<Row>, x: nat, held: set<nat>, now: int) {
    x < |rows| && x !in held && rows[x].delivered == None && !rows[x].review && rows[x].nextAttempt <= now
  }

  ghost predicate Earliest(rows: seq<Row>, x: nat, held: set<nat>, now: int) {
    && Free(rows, x, held, now)
    && forall y: nat :: Free(rows, y, held, now) ==>
         rows[x].nextAttempt < rows[y].nextAttempt || (rows[x].nextAttempt == rows[y].nextAttempt && x <= y)
  }

  lemma PicksTheEarliest(rows: seq<Row>, held: set<nat>, now: int)
    ensures var best := NextDue(rows, |rows|, held, now);
            if best.Some? then Earliest(rows, best.value, held, now) else forall y: nat :: !Free(rows, y, held, now)
  {
    NextDueIsEarliest(rows, |rows|, held, now);
  }

  /** The row after the relay's answer was committed: delivered, or one failure further. */
  predicate RelayEnds(r: Row, q: Row, accepted: bool, now: int) {
    q == if accepted then r.(delivered := Some(now))
         else r.(attempts := r.attempts + 1, review := r.attempts + 1 >= 20,
                 nextAttempt := now + (if r.attempts < 10 then [1, 2, 4, 8, 16, 32, 64, 128, 256, 512][r.attempts] else 600) * 1_000_000_000)
  }

  /**
    One relay transaction: it takes the earliest free row. If it commits, an
    accepted notice is delivered, and a refused one counts the failure, waits,
    and needs review after the twentieth. A lost commit leaves the row as it
    was; the call has happened. With no free row nothing changes.
  */
  lemma RelayMeans(s: State, t: Try)
    ensures var (u, out) := Dispatch(s, t);
            || (u == s && out == NothingDue && forall y: nat :: !Free(s.rows, y, t.held, t.now))
            || exists x: nat :: Earliest(s.rows, x, t.held, t.now)
                 && u.calls == s.calls + [Call(x, t.accepted)]
                 && (if t.commits then out == Relayed && |u.rows| == |s.rows| && u.rows == s.rows[x := u.rows[x]] && RelayEnds(s.rows[x], u.rows[x], t.accepted, t.now)
                     else out == NotCommitted && u.rows == s.rows)
  {
    hide Delay, NextDue;
    PicksTheEarliest(s.rows, t.held, t.now);
    var best := NextDue(s.rows, |s.rows|, t.held, t.now);
    if best.Some? {
      hide Earliest;
      var x := best.value;
      Waits(s.rows[x].attempts);
      var u := Dispatch(s, t).0;
      assert t.commits ==> u.rows == s.rows[x := u.rows[x]] && RelayEnds(s.rows[x], u.rows[x], t.accepted, t.now);
    }
  }

  /** A notice is queued exactly when its key has 1 to 200 bytes and is new; it is due at once. */
  lemma QueueMeans(s: State, key: string, user: string, kind: string, reference: string, now: int)
    ensures Enqueue(s, key, user, kind, reference, now)
         == if 1 <= |key| <= 200 && forall x :: 0 <= x < |s.rows| ==> s.rows[x].key != key
            then s.(rows := s.rows + [Row(key, user, kind, reference, now, 0, now, None, false)]) else s
  {}

  // ---- the table updated in place ----------------------------------------------------

  class Outbox {
    var rows: seq<Row>
    var calls: seq<Call>

    function Now(): State
      reads this
    {
      State(rows, calls)
    }

    constructor ()
      ensures Now() == Empty
    {
      rows, calls := [], [];
    }

    method EnqueueOnce(key: string, user: string, kind: string, reference: string, now: int) returns (ok: bool)
      modifies this
      ensures ok <==> KeyFits(key)
      ensures Now() == Enqueue(old(Now()), key, user, kind, reference, now)
    {
      if |key| < 1 || |key| > 200 {
        return false;
      }
      for n := 0 to |rows|
        invariant unchanged(this)
        invariant !HasKey(rows[..n], key)
      {
        if rows[n].key == key {
          return true;
        }
      }
      assert rows[..|rows|] == rows;
      rows := rows + [Fresh(key, user, kind, reference, now)];
      return true;
    }

    method FindDue(held: set<nat>, now: int) returns (best: Option<nat>)
      ensures best == NextDue(rows, |rows|, held, now)
    {
      best := None;
      for n := 0 to |rows|
        invariant best == NextDue(rows, n, held, now)
      {
        if Due(rows[n], now) && n !in held && (best.None? || rows[n].nextAttempt < rows[best.value].nextAttempt) {
          best := Some(n);
        }
      }
    }

    method RelayNext(t: Try) returns (out: Outcome)
      modifies this
      ensures (Now(), out) == Dispatch(old(Now()), t)
    {
      hide Delay;
      var best := FindDue(t.held, t.now);
      if best.None? {
        return NothingDue;
      }
      var row := rows[best.value];
      calls := calls + [Call(best.value, t.accepted)];
      if t.accepted {
        row := row.(delivered := Some(t.now));
      } else {
        row := row.(review := row.attempts + 1 >= MAX_ATTEMPTS, nextAttempt := t.now + Delay(row.attempts));
        row := row.(attempts := row.attempts + 1);
      }
      if !t.commits {
        return NotCommitted;
      }
      rows := rows[best.value := row];
      return Relayed;
    }

    method DrainDue(tries: seq<Try>) returns (n: nat, ok: bool)
      modifies this
      ensures (Now(), n, ok) == Drain(old(Now()), tries)
    {
      hide Dispatch;
      n := 0;
      while n < |tries|
        invariant n <= |tries|
        invariant Drain(old(Now()), tries) == (var (u, m, k) := Drain(Now(), tries[n..]); (u, n + m, k))
      {
        assert tries[n..][0] == tries[n] && tries[n..][1..] == tries[n + 1..];
        var out := RelayNext(tries[n]);
        if out.NothingDue? {
          return n, true;
        }
        if out.NotCommitted? {
          return n, false;
        }
        n := n + 1;
      }
      return n, true;
    }
  }
}
