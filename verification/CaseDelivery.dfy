/**
  Delivery of case notices: a worker leases a due row, publishes it and
  records the outcome, each in its own statement, and may die in between.
  Times are nanoseconds.
*/
module CaseDelivery {
  import opened Options

  const MAX_ATTEMPTS: nat := 5
  const SECOND: int := 1_000_000_000
  const LEASE: int := 30 * SECOND

  datatype Row = Row(item: string, attempts: nat, nextAttempt: int, lease: Option<int>, delivered: bool, parked: bool)

  /** What happened to rows, in order: a lease is an attempt. */
  datatype Event = Leased(row: nat) | Published(row: nat, accepted: bool) | Replayed(row: nat)

  /** Where the worker is inside a pass whose clock was read once, at its start. */
  datatype Worker =
    | Idle
    | Between(now: int)
    | Holding(now: int, row: nat, attempts: nat)
    | Answered(now: int, row: nat, attempts: nat, accepted: bool)

  datatype State = State(rows: seq<Row>, worker: Worker, clock: int, events: seq<Event>)

  function Start(clock: int): State { State([], Idle, clock, []) }

  predicate Expired(r: Row, now: int) { r.lease.None? || r.lease.value <= now }

  predicate Due(r: Row, now: int) { !r.delivered && !r.parked && r.nextAttempt <= now && Expired(r, now) }

  /** A worker may have died during the last attempt: the expired lease still uses up the budget. */
  function Exhausted(r: Row, now: int): Row {
    if !r.delivered && r.attempts >= MAX_ATTEMPTS && Expired(r, now) then r.(parked := true) else r
  }

  function ParkAll(rows: seq<Row>, now: int): (parked: seq<Row>)
    ensures |parked| == |rows|
    ensures forall x :: 0 <= x < |rows| ==> parked[x] == Exhausted(rows[x], now)
  {
    if rows == [] then [] else ParkAll(rows[..|rows| - 1], now) + [Exhausted(rows[|rows| - 1], now)]
  }

  /** The first n rows' earliest due one that no transaction holds. */
  function NextDue(rows: seq<Row>, n: nat, held: set<nat>, now: int): (best: Option<nat>)
    requires n <= |rows|
    ensures best.Some? ==> best.value < n && Due(rows[best.value], now)
  {
    if n == 0 then None
    else
      var best := NextDue(rows, n - 1, held, now);
      if Due(rows[n - 1], now) && n - 1 !in held && (best.None? || rows[n - 1].nextAttempt < rows[best.value].nextAttempt)
      then Some(n - 1) else best
  }

  function Power2(n: nat): nat { if n == 0 then 1 else 2 * Power2(n - 1) }

  /** The wait after a failed attempt, without the jitter. */
  function Backoff(attempts: nat): int {
    var d := 30 * Power2(if attempts <= 7 then attempts else 7);
    SECOND * if d <= 3600 then d else 3600
  }

  /** The outcome written to a row, unless it was leased again meanwhile. */
  function Recorded(r: Row, attempts: nat, accepted: bool, dbNow: int, jitter: int): Row {
    if r.attempts != attempts then r
    else if accepted then r.(delivered := true, lease := None)
    else r.(lease := None, parked := attempts >= MAX_ATTEMPTS, nextAttempt := dbNow + Backoff(attempts) + jitter)
  }

  predicate Replayable(r: Row, item: string) { r.item == item && r.parked && !r.delivered }

  function ReplayRow(r: Row, item: string, dbNow: int): Row {
    if Replayable(r, item) then r.(attempts := 0, parked := false, lease := None, nextAttempt := dbNow) else r
  }

  function ReplayAll(rows: seq<Row>, item: string, dbNow: int): (out: seq<Row>)
    ensures |out| == |rows|
    ensures forall x :: 0 <= x < |rows| ==> out[x] == ReplayRow(rows[x], item, dbNow)
  {
    if rows == [] then [] else ReplayAll(rows[..|rows| - 1], item, dbNow) + [ReplayRow(rows[|rows| - 1], item, dbNow)]
  }

  function ReplayEvents(rows: seq<Row>, item: string): seq<Event> {
    if rows == [] then []
    else
      var n := |rows| - 1;
      ReplayEvents(rows[..n], item) + if Replayable(rows[n], item) then [Replayed(n)] else []
  }

  datatype Step =
    | Enqueue(item: string, dbNow: int)
    | Begin(now: int)
    | Lease(held: set<nat>)
    | Publish(accepted: bool)
    | Record(dbNow: int, jitter: int)
    | End
    | Crash
    | Replay(item: string, dbNow: int)

  predicate Jitter(j: int) { 0 <= j < 10 * SECOND }

  /** One statement, publish call or failure; a step that does not fit the state changes nothing. */
  function Do(s: State, step: Step): State {
    match step
    case Enqueue(item, dbNow) => s.(rows := s.rows + [Row(item, 0, dbNow, None, false, false)])
    case Begin(now) =>
      if s.worker.Idle? && now >= s.clock then s.(rows := ParkAll(s.rows, now), worker := Between(now), clock := now) else s
    case Lease(held) =>
      if !s.worker.Between? then s
      else (
        match NextDue(s.rows, |s.rows|, held, s.worker.now)
        case None => s.(worker := Idle)
        case Some(x) =>
          var r := s.rows[x];
          s.(rows := s.rows[x := r.(lease := Some(s.worker.now + LEASE), attempts := r.attempts + 1)],
             worker := Holding(s.worker.now, x, r.attempts + 1), events := s.events + [Leased(x)]))
    case Publish(accepted) =>
      if !s.worker.Holding? then s
      else
        s.(worker := Answered(s.worker.now, s.worker.row, s.worker.attempts, accepted),
           events := s.events + [Published(s.worker.row, accepted)])
    case Record(dbNow, jitter) =>
      if !s.worker.Answered? || s.worker.row >= |s.rows| || !Jitter(jitter) then s
      else
        var w := s.worker;
        s.(rows := s.rows[w.row := Recorded(s.rows[w.row], w.attempts, w.accepted, dbNow, jitter)], worker := Between(w.now))
    case End => if s.worker.Between? then s.(worker := Idle) else s
    case Crash => s.(worker := Idle)
    case Replay(item, dbNow) => s.(rows := ReplayAll(s.rows, item, dbNow), events := s.events + ReplayEvents(s.rows, item))
  }

  function Exec(s: State, steps: seq<Step>): State
    decreases |steps|
  {
    if steps == [] then s else Do(Exec(s, steps[..|steps| - 1]), steps[|steps| - 1])
  }

  // ---- what every run keeps ------------------------------------------------------

  /** Leases of a row since it was last replayed. */
  function LeasesSince(events: seq<Event>, x: nat): nat
    decreases |events|
  {
    if events == [] then 0
    else
      var n := |events| - 1;
      if events[n] == Replayed(x) then 0 else LeasesSince(events[..n], x) + if events[n] == Leased(x) then 1 else 0
  }

  /** Publish calls for a row since it was last replayed. */
  function CallsSince(events: seq<Event>, x: nat): nat
    decreases |events|
  {
    if events == [] then 0
    else
      var n := |events| - 1;
      if events[n] == Replayed(x) then 0
      else CallsSince(events[..n], x) + if events[n].Published? && events[n].row == x then 1 else 0
  }

  ghost predicate RowOk(s: State, x: nat)
    requires x < |s.rows|
  {
    var r := s.rows[x];
    && r.attempts == LeasesSince(s.events, x) <= MAX_ATTEMPTS
    && (r.parked ==> r.attempts == MAX_ATTEMPTS && !r.delivered)
    && (r.delivered ==> Published(x, true) in s.events)
    && (r.lease.Some? ==> r.lease.value <= s.clock + LEASE)
    && CallsSince(s.events, x) <= r.attempts
  }

  /** While the worker has a row, its lease stands; between rows, every used-up row is parked, delivered or leased past this pass. */
  ghost predicate WorkerOk(s: State) {
    match s.worker
    case Idle => true
    case Between(now) => now == s.clock && forall x :: 0 <= x < |s.rows| ==> Barred(s.rows[x], now)
    case Holding(now, row, attempts) =>
      && now == s.clock && Held(s, now, row, attempts)
      && CallsSince(s.events, row) < attempts
      && (forall x :: 0 <= x < |s.rows| ==> Barred(s.rows[x], now))
    case Answered(now, row, attempts, accepted) =>
      && now == s.clock && Held(s, now, row, attempts)
      && (accepted ==> Published(row, true) in s.events)
      && (forall x :: 0 <= x < |s.rows| ==> Barred(s.rows[x], now))
  }

  ghost predicate Held(s: State, now: int, row: nat, attempts: nat) {
    && row < |s.rows| && !s.rows[row].delivered && !s.rows[row].parked
    && s.rows[row].attempts == attempts && s.rows[row].lease == Some(now + LEASE)
  }

  /** A row with no attempts left is out of reach of the pass. */
  ghost predicate Barred(r: Row, now: int) { r.attempts >= MAX_ATTEMPTS ==> !Due(r, now) }

  ghost predicate EventsOk(s: State) {
    forall n :: 0 <= n < |s.events| ==> s.events[n].row < |s.rows|
  }

  ghost predicate Inv(s: State) {
    (forall x :: 0 <= x < |s.rows| ==> RowOk(s, x)) && WorkerOk(s) && EventsOk(s)
  }

  lemma {:induction false} NothingSince(events: seq<Event>, x: nat)
    requires forall n :: 0 <= n < |events| ==> events[n].row < x
    ensures LeasesSince(events, x) == 0 && CallsSince(events, x) == 0
    decreases |events|
  {
    if events != [] { NothingSince(events[..|events| - 1], x); }
  }

  lemma OneMore(events: seq<Event>, e: Event, x: nat)
    ensures LeasesSince(events + [e], x)
         == if e == Replayed(x) then 0 else LeasesSince(events, x) + if e == Leased(x) then 1 else 0
    ensures CallsSince(events + [e], x)
         == if e == Replayed(x) then 0 else CallsSince(events, x) + if e.Published? && e.row == x then 1 else 0
  {
    assert (events + [e])[..|events|] == events;
  }

  lemma {:induction false} AfterReplays(events: seq<Event>, rows: seq<Row>, item: string, x: nat)
    ensures LeasesSince(events + ReplayEvents(rows, item), x)
         == if x < |rows| && Replayable(rows[x], item) then 0 else LeasesSince(events, x)
    ensures CallsSince(events + ReplayEvents(rows, item), x)
         == if x < |rows| && Replayable(rows[x], item) then 0 else CallsSince(events, x)
    ensures forall n :: 0 <= n < |ReplayEvents(rows, item)| ==> ReplayEvents(rows, item)[n].Replayed? && ReplayEvents(rows, item)[n].row < |rows|
    decreases |rows|
  {
    hide LeasesSince, CallsSince;
    if rows == [] {
      assert events + ReplayEvents(rows, item) == events;
    } else {
      var n := |rows| - 1;
      AfterReplays(events, rows[..n], item, x);
      var front := events + ReplayEvents(rows[..n], item);
      OneMore(front, Replayed(n), x);
      assert events + ReplayEvents(rows, item)
          == if Replayable(rows[n], item) then front + [Replayed(n)] else front;
    }
  }

  lemma BeginKeeps(s: State, now: int)
    requires Inv(s)
    ensures Inv(Do(s, Begin(now)))
  {
    hide LeasesSince, CallsSince;
    var u := Do(s, Begin(now));
    if u != s {
      forall x | 0 <= x < |u.rows| ensures RowOk(u, x) { assert RowOk(s, x); }
    }
  }

  lemma EnqueueKeeps(s: State, item: string, dbNow: int)
    requires Inv(s)
    ensures Inv(Do(s, Enqueue(item, dbNow)))
  {
    hide LeasesSince, CallsSince;
    var u := Do(s, Enqueue(item, dbNow));
    NothingSince(s.events, |s.rows|);
    forall x | 0 <= x < |u.rows| ensures RowOk(u, x) {
      if x < |s.rows| { assert RowOk(s, x); }
    }
  }

  lemma LeaseKeeps(s: State, held: set<nat>)
    requires Inv(s)
    ensures Inv(Do(s, Lease(held)))
  {
    hide LeasesSince, CallsSince;
    var u := Do(s, Lease(held));
    if u.events == s.events {
      forall x | 0 <= x < |u.rows| ensures RowOk(u, x) { assert RowOk(s, x); }
    } else {
      var y := u.worker.row;
      assert RowOk(s, y) && Barred(s.rows[y], s.worker.now);
      forall x | 0 <= x < |u.rows| ensures RowOk(u, x) {
        assert RowOk(s, x);
        OneMore(s.events, Leased(y), x);
      }
      OneMore(s.events, Leased(y), y);
    }
  }

  lemma PublishKeeps(s: State, accepted: bool)
    requires Inv(s)
    ensures Inv(Do(s, Publish(accepted)))
  {
    hide LeasesSince, CallsSince;
    var u := Do(s, Publish(accepted));
    if s.worker.Holding? {
      var e := Published(s.worker.row, accepted);
      forall x | 0 <= x < |u.rows| ensures RowOk(u, x) {
        assert RowOk(s, x);
        OneMore(s.events, e, x);
      }
      assert u.events[|s.events|] == e;
    }
  }

  lemma RecordKeeps(s: State, dbNow: int, jitter: int)
    requires Inv(s)
    ensures Inv(Do(s, Record(dbNow, jitter)))
  {
    hide LeasesSince, CallsSince, Backoff;
    var u := Do(s, Record(dbNow, jitter));
    if u != s {
      forall x | 0 <= x < |u.rows| ensures RowOk(u, x) { assert RowOk(s, x); }
      assert Barred(s.rows[s.worker.row], s.worker.now);
    }
  }

  lemma ReplayKeeps(s: State, item: string, dbNow: int)
    requires Inv(s)
    ensures Inv(Do(s, Replay(item, dbNow)))
  {
    hide LeasesSince, CallsSince, ReplayEvents;
    var u := Do(s, Replay(item, dbNow));
    forall x | 0 <= x < |u.rows| ensures RowOk(u, x) {
      assert RowOk(s, x);
      AfterReplays(s.events, s.rows, item, x);
    }
    AfterReplays(s.events, s.rows, item, if s.worker.Holding? then s.worker.row else 0);
    forall n | 0 <= n < |u.events| ensures u.events[n].row < |u.rows| {
      if n >= |s.events| { assert u.events[n] == ReplayEvents(s.rows, item)[n - |s.events|]; }
    }
  }

  lemma StepKeeps(s: State, step: Step)
    requires Inv(s)
    ensures Inv(Do(s, step))
  {
    hide LeasesSince, CallsSince;
    match step
    case Enqueue(item, dbNow) => EnqueueKeeps(s, item, dbNow);
    case Begin(now) => BeginKeeps(s, now);
    case Lease(held) => LeaseKeeps(s, held);
    case Publish(accepted) => PublishKeeps(s, accepted);
    case Record(dbNow, jitter) => RecordKeeps(s, dbNow, jitter);
    case Replay(item, dbNow) => ReplayKeeps(s, item, dbNow);
    case _ =>
      forall x | 0 <= x < |s.rows| ensures RowOk(Do(s, step), x) { assert RowOk(s, x); }
  }

  lemma {:induction false} RunKeeps(clock: int, steps: seq<Step>)
    ensures Inv(Exec(Start(clock), steps))
    decreases |steps|
  {
    hide Do;
    if steps != [] {
      RunKeeps(clock, steps[..|steps| - 1]);
      StepKeeps(Exec(Start(clock), steps[..|steps| - 1]), steps[|steps| - 1]);
    }
  }

  // ---- main results ----------------------------------------------------------------

  /**
    With one worker, whatever crashes: between two replays a notice is leased
    at most five times and published at most as often; it is delivered only
    after a publish call was accepted, and set aside only when undelivered
    with all five attempts used.
  */
  lemma FiveAttempts(clock: int, steps: seq<Step>, x: nat)
    requires x < |Exec(Start(clock), steps).rows|
    ensures var s := Exec(Start(clock), steps);
            && CallsSince(s.events, x) <= LeasesSince(s.events, x) == s.rows[x].attempts <= MAX_ATTEMPTS
            && (s.rows[x].delivered ==> Published(x, true) in s.events)
            && (s.rows[x].parked ==> s.rows[x].attempts == MAX_ATTEMPTS && !s.rows[x].delivered)
  {
    hide Exec;
    RunKeeps(clock, steps);
    assert RowOk(Exec(Start(clock), steps), x);
  }

  /** Once delivered, a notice is never leased, published or replayed again. */
  lemma {:induction false} DeliveredIsFinal(clock: int, steps: seq<Step>, m: nat, x: nat)
    requires m <= |steps| && x < |Exec(Start(clock), steps[..m]).rows| && Exec(Start(clock), steps[..m]).rows[x].delivered
    ensures var s := Exec(Start(clock), steps);
            x < |s.rows| && s.rows[x] == Exec(Start(clock), steps[..m]).rows[x]
            && forall n :: |Exec(Start(clock), steps[..m]).events| <= n < |s.events| ==> s.events[n].row != x
    decreases |steps|
  {
    hide Do;
    if m == |steps| {
      assert steps[..m] == steps;
    } else {
      var n := |steps| - 1;
      assert steps[..n][..m] == steps[..m];
      DeliveredIsFinal(clock, steps[..n], m, x);
      RunKeeps(clock, steps[..n]);
      DeliveredStays(Exec(Start(clock), steps[..n]), steps[n], x);
    }
  }

  lemma DeliveredStays(s: State, step: Step, x: nat)
    requires Inv(s) && x < |s.rows| && s.rows[x].delivered
    ensures var u := Do(s, step);
            && x < |u.rows| && u.rows[x] == s.rows[x] && s.events <= u.events
            && forall n :: |s.events| <= n < |u.events| ==> u.events[n].row != x
  {
    hide LeasesSince, CallsSince;
    assert RowOk(s, x);
    if step.Replay? { ReplayEventsAre(s.rows, step.item, x); }
  }

  lemma {:induction false} ReplayEventsAre(rows: seq<Row>, item: string, x: nat)
    requires x < |rows| ==> !Replayable(rows[x], item)
    ensures forall n :: 0 <= n < |ReplayEvents(rows, item)| ==> ReplayEvents(rows, item)[n].row != x
    decreases |rows|
  {
    if rows != [] { ReplayEventsAre(rows[..|rows| - 1], item, x); }
  }

  /** The latest time a step reads from either clock. */
  predicate By(step: Step, latest: int) {
    match step
    case Enqueue(_, dbNow) => dbNow <= latest
    case Begin(now) => now <= latest
    case Record(dbNow, _) => dbNow <= latest
    case Replay(_, dbNow) => dbNow <= latest
    case _ => true
  }

  ghost predicate Ready(r: Row, latest: int) {
    r.nextAttempt <= latest + 3610 * SECOND && (r.lease.Some? ==> r.lease.value <= latest + LEASE)
  }

  lemma BackoffIsBounded(attempts: nat)
    ensures 0 <= Backoff(attempts) <= 3600 * SECOND
  {}

  ghost predicate AllReady(s: State, latest: int) {
    s.clock <= latest && (!s.worker.Idle? ==> s.worker.now <= latest) && forall x :: 0 <= x < |s.rows| ==> Ready(s.rows[x], latest)
  }

  lemma StepStaysReady(s: State, step: Step, latest: int)
    requires AllReady(s, latest) && By(step, latest)
    ensures AllReady(Do(s, step), latest)
  {
    hide Backoff, NextDue, ReplayEvents;
    if s.worker.Answered? { BackoffIsBounded(s.worker.attempts); }
  }

  lemma {:induction false} StaysReady(clock: int, steps: seq<Step>, latest: int)
    requires clock <= latest && forall n :: 0 <= n < |steps| ==> By(steps[n], latest)
    ensures AllReady(Exec(Start(clock), steps), latest)
    decreases |steps|
  {
    hide Do, By;
    if steps != [] {
      var n := |steps| - 1;
      StaysReady(clock, steps[..n], latest);
      StepStaysReady(Exec(Start(clock), steps[..n]), steps[n], latest);
    }
  }

  /**
    No notice is forgotten, even after crashes: a pass that begins 3610
    seconds after everything before it finds each row delivered, set aside, or
    due with attempts left.
  */
  lemma NothingIsForgotten(clock: int, steps: seq<Step>, latest: int, now: int, x: nat)
    requires clock <= latest && forall n :: 0 <= n < |steps| ==> By(steps[n], latest)
    requires now >= latest + 3610 * SECOND && Exec(Start(clock), steps).worker.Idle? && x < |Exec(Start(clock), steps).rows|
    ensures var r := Do(Exec(Start(clock), steps), Begin(now)).rows[x];
            r.delivered || r.parked || (Due(r, now) && r.attempts < MAX_ATTEMPTS)
  {
    hide Exec;
    StaysReady(clock, steps, latest);
    assert Ready(Exec(Start(clock), steps).rows[x], latest);
  }

  /** A lease goes to the earliest due row that is free, and none is due when there is none. */
  lemma {:induction false} LeasesTheEarliest(rows: seq<Row>, n: nat, held: set<nat>, now: int)
    requires n <= |rows|
    ensures match NextDue(rows, n, held, now)
            case None => forall y :: 0 <= y < n && y !in held ==> !Due(rows[y], now)
            case Some(x) =>
              && x !in held
              && (forall y :: 0 <= y < n && y !in held && Due(rows[y], now) ==>
                    rows[x].nextAttempt < rows[y].nextAttempt || (rows[x].nextAttempt == rows[y].nextAttempt && x <= y))
  {
    if n > 0 { LeasesTheEarliest(rows, n - 1, held, now); }
  }

  // ---- what one round leaves -------------------------------------------------------------

  /** The wait after the n-th attempt failed: a minute, doubled each time; the fifth failure sets the row aside. */
  lemma Waits(n: nat)
    requires 1 <= n <= 5
    ensures Backoff(n) == [60, 120, 240, 480, 960][n - 1] * 1_000_000_000
  {
    assert Power2(1) == 2 && Power2(2) == 4 && Power2(3) == 8;
    assert Power2(4) == 16 && Power2(5) == 32;
  }

  /** A row a pass may take: neither delivered, set aside, waiting nor leased, and held by no other transaction. */
  predicate Free(rows: seq<Row>, x: nat, held: set<nat>, now: int) {
    && x < |rows| && x !in held && !rows[x].delivered && !rows[x].parked
    && rows[x].nextAttempt <= now && (rows[x].lease == None || rows[x].lease.value <= now)
  }

  ghost predicate Earliest(rows: seq<Row>, x: nat, held: set<nat>, now: int) {
    && Free(rows, x, held, now)
    && forall y: nat :: Free(rows, y, held, now) ==>
         rows[x].nextAttempt < rows[y].nextAttempt || (rows[x].nextAttempt == rows[y].nextAttempt && x <= y)
  }

  lemma PicksTheEarliest(rows: seq<Row>, held: set<nat>, now: int)
    ensures var best := NextDue(rows, |rows|, held, now);
            if best.Some? then Earliest(rows, best.value, held, now) else forall y: nat :: !Free(rows, y, held, now)
  {
    LeasesTheEarliest(rows, |rows|, held, now);
  }

  /** The row r after a round that ended with the answer: its attempt counted, delivered, waiting or set aside. */
  predicate RoundEnds(r: Row, q: Row, accepted: bool, dbNow: int, jitter: int) {
    && r.attempts < 5
    && q == r.(attempts := r.attempts + 1, lease := None, delivered := accepted, parked := !accepted && r.attempts + 1 == 5,
               nextAttempt := if accepted then r.nextAttempt
                              else dbNow + jitter + [60, 120, 240, 480, 960][r.attempts] * 1_000_000_000)
  }

  /**
    One round of a pass: it takes the earliest free row, counts the attempt and
    leases it for 30 seconds. An accepted publish delivers it; a refused one
    frees it for the next attempt after the wait and jitter, or sets it aside
    after the fifth. No other row changes. With no free row the pass ends.
  */
  lemma RoundMeans(s: State, held: set<nat>, accepted: bool, dbNow: int, jitter: int)
    requires Inv(s) && s.worker.Between? && 0 <= jitter < 10_000_000_000
    ensures var now := s.worker.now;
            var leased := Do(s, Lease(held));
            var u := Do(Do(leased, Publish(accepted)), Record(dbNow, jitter));
            || (leased == u == s.(worker := Idle) && forall y: nat :: !Free(s.rows, y, held, now))
            || exists x: nat :: Earliest(s.rows, x, held, now)
                 && leased == s.(rows := s.rows[x := s.rows[x].(attempts := s.rows[x].attempts + 1, lease := Some(now + 30_000_000_000))],
                                 worker := Holding(now, x, s.rows[x].attempts + 1), events := s.events + [Leased(x)])
                 && u.rows == s.rows[x := u.rows[x]] && RoundEnds(s.rows[x], u.rows[x], accepted, dbNow, jitter)
                 && u == s.(rows := u.rows, worker := Between(now), events := s.events + [Leased(x)] + [Published(x, accepted)])
  {
    hide LeasesSince, CallsSince, Backoff, NextDue, Inv;
    PicksTheEarliest(s.rows, held, s.worker.now);
    var best := NextDue(s.rows, |s.rows|, held, s.worker.now);
    if best.Some? {
      var x := best.value;
      AttemptsLeft(s, x);
      hide Earliest;
      Waits(s.rows[x].attempts + 1);
      var leased := Do(s, Lease(held));
      var r := leased.rows[x];
      var u := Do(Do(leased, Publish(accepted)), Record(dbNow, jitter));
      assert leased.rows == s.rows[x := r];
      assert u.rows == leased.rows[x := u.rows[x]];
      assert RoundEnds(s.rows[x], u.rows[x], accepted, dbNow, jitter);
    }
  }

  lemma AttemptsLeft(s: State, x: nat)
    requires Inv(s) && s.worker.Between? && x < |s.rows| && Due(s.rows[x], s.worker.now)
    ensures s.rows[x].attempts < 5
  {
    hide LeasesSince, CallsSince;
    assert RowOk(s, x) && Barred(s.rows[x], s.worker.now);
  }

  /** An outcome is written only under the attempt it belongs to: a row that was leased again meanwhile is left alone. */
  lemma StaleOutcomeIsFenced(s: State, dbNow: int, jitter: int)
    requires s.worker.Answered? && s.worker.row < |s.rows| && s.rows[s.worker.row].attempts != s.worker.attempts
    ensures Do(s, Record(dbNow, jitter)).rows == s.rows && Do(s, Record(dbNow, jitter)).events == s.events
  {
    assert s.rows[s.worker.row := s.rows[s.worker.row]] == s.rows;
  }

  /** A pass begins by setting aside every undelivered row with five attempts and no live lease, and nothing else. */
  lemma BeginMeans(s: State, now: int, x: nat)
    requires s.worker.Idle? && s.clock <= now && x < |s.rows|
    ensures var u := Do(s, Begin(now));
            && u == s.(rows := u.rows, worker := Between(now), clock := now) && |u.rows| == |s.rows|
            && u.rows[x] == if !s.rows[x].delivered && s.rows[x].attempts >= 5 && (s.rows[x].lease == None || s.rows[x].lease.value <= now)
                            then s.rows[x].(parked := true) else s.rows[x]
  {}

  /** A replay makes the item's undelivered notices that were set aside due at once with all attempts; a new notice starts like that. */
  lemma ReplayMeans(s: State, item: string, dbNow: int, x: nat)
    requires x < |s.rows|
    ensures var u := Do(s, Replay(item, dbNow));
            && u == s.(rows := u.rows, events := u.events) && |u.rows| == |s.rows|
            && u.rows[x] == if s.rows[x].item == item && s.rows[x].parked && !s.rows[x].delivered
                            then Row(item, 0, dbNow, None, false, false) else s.rows[x]
    ensures Do(s, Enqueue(item, dbNow)) == s.(rows := s.rows + [Row(item, 0, dbNow, None, false, false)])
  {}

  // ---- the table updated in place ------------------------------------------------------

  /** What one round of a pass meets: rows held elsewhere, the publisher's answer, whether the outcome is written. */
  datatype Try = Try(held: set<nat>, accepted: bool, recorded: bool, dbNow: int, jitter: int)

  const BATCH: nat := 100

  /** The rest of a pass: lease, publish and record until nothing is due, a write fails or the batch is used up. */
  function Pass(s: State, tries: seq<Try>): State
    decreases |tries|
  {
    if tries == [] then Do(s, End)
    else
      var t := tries[0];
      var leased := Do(s, Lease(t.held));
      if !leased.worker.Holding? then leased
      else
        var answered := Do(leased, Publish(t.accepted));
        if !t.recorded then Do(answered, Crash) else Pass(Do(answered, Record(t.dbNow, t.jitter)), tries[1..])
  }

  class Outbox {
    var rows: seq<Row>
    var worker: Worker
    var clock: int
    var events: seq<Event>

    function Now(): State
      reads this
    {
      State(rows, worker, clock, events)
    }

    constructor (start: int)
      ensures Now() == Start(start)
    {
      rows, worker, clock, events := [], Idle, start, [];
    }

    method ParkExhausted(now: int)
      modifies this`rows
      ensures rows == ParkAll(old(rows), now)
    {
      var parked := [];
      for n := 0 to |rows|
        invariant rows == old(rows)
        invariant parked == ParkAll(rows[..n], now)
      {
        assert rows[..n + 1][..n] == rows[..n];
        var r := rows[n];
        if !r.delivered && r.attempts >= MAX_ATTEMPTS && (r.lease.None? || r.lease.value <= now) {
          r := r.(parked := true);
        }
        parked := parked + [r];
      }
      assert rows[..|rows|] == rows;
      rows := parked;
    }

    method FindDue(held: set<nat>, now: int) returns (best: Option<nat>)
      ensures best == NextDue(rows, |rows|, held, now)
    {
      best := None;
      for n := 0 to |rows|
        invariant best == NextDue(rows, n, held, now)
      {
        if Due(rows[n], now) && n !in held && (best.None? || rows[n].nextAttempt < rows[best.value].nextAttempt) {
          best := Some(n);
        }
      }
    }

    method LeaseNext(held: set<nat>) returns (leased: bool)
      requires worker.Between?
      modifies this
      ensures Now() == Do(old(Now()), Lease(held))
      ensures leased <==> worker.Holding?
      ensures worker.Holding? ==> worker.row < |rows|
    {
      var best := FindDue(held, worker.now);
      if best.None? {
        worker := Idle;
        return false;
      }
      var r := rows[best.value];
      rows := rows[best.value := r.(lease := Some(worker.now + LEASE), attempts := r.attempts + 1)];
      events := events + [Leased(best.value)];
      worker := Holding(worker.now, best.value, r.attempts + 1);
      return true;
    }

    method WriteOutcome(dbNow: int, jitter: int)
      requires worker.Answered? && worker.row < |rows| && Jitter(jitter)
      modifies this
      ensures Now() == Do(old(Now()), Record(dbNow, jitter))
      ensures worker.Between?
    {
      hide Backoff;
      var r := rows[worker.row];
      if r.attempts == worker.attempts {
        if worker.accepted {
          r := r.(delivered := true, lease := None);
        } else {
          r := r.(lease := None, parked := worker.attempts >= MAX_ATTEMPTS, nextAttempt := dbNow + Backoff(worker.attempts) + jitter);
        }
      }
      rows := rows[worker.row := r];
      worker := Between(worker.now);
    }

    /** One pass of the worker; a failed write ends it like a crash. */
    method Deliver(now: int, tries: seq<Try>)
      requires worker.Idle? && now >= clock && |tries| == BATCH
      requires forall n :: 0 <= n < |tries| ==> Jitter(tries[n].jitter)
      modifies this
      ensures Now() == Pass(Do(old(Now()), Begin(now)), tries)
    {
      hide Do;
      ParkExhausted(now);
      worker, clock := Between(now), now;
      ghost var begun := Now();
      assert begun == Do(old(Now()), Begin(now)) by { BeginIs(old(Now()), now); }
      var n := 0;
      while n < BATCH
        invariant n <= BATCH && worker.Between?
        invariant Pass(begun, tries) == Pass(Now(), tries[n..])
      {
        assert tries[n..][0] == tries[n] && tries[n..][1..] == tries[n + 1..];
        var leased := LeaseNext(tries[n].held);
        if !leased {
          return;
        }
        ghost var holding := Now();
        events := events + [Published(worker.row, tries[n].accepted)];
        worker := Answered(worker.now, worker.row, worker.attempts, tries[n].accepted);
        assert Now() == Do(holding, Publish(tries[n].accepted)) by { PublishIs(holding, tries[n].accepted); }
        if !tries[n].recorded {
          CrashIs(Now());
          worker := Idle;
          return;
        }
        WriteOutcome(tries[n].dbNow, tries[n].jitter);
        n := n + 1;
      }
      EndIs(Now());
      worker := Idle;
    }

    method ReplayItem(item: string, dbNow: int)
      modifies this
      ensures Now() == Do(old(Now()), Replay(item, dbNow))
    {
      var out, replayed := ReplayRows(rows, item, dbNow);
      rows, events := out, events + replayed;
    }
  }

  method ReplayRows(rows: seq<Row>, item: string, dbNow: int) returns (out: seq<Row>, replayed: seq<Event>)
    ensures out == ReplayAll(rows, item, dbNow) && replayed == ReplayEvents(rows, item)
  {
    out, replayed := [], [];
    for n := 0 to |rows|
      invariant out == ReplayAll(rows[..n], item, dbNow)
      invariant replayed == ReplayEvents(rows[..n], item)
    {
      assert rows[..n + 1][..n] == rows[..n];
      var r := rows[n];
      if r.item == item && r.parked && !r.delivered {
        r := r.(attempts := 0, parked := false, lease := None, nextAttempt := dbNow);
        replayed := replayed + [Replayed(n)];
      }
      out := out + [r];
    }
    assert rows[..|rows|] == rows;
  }

  lemma BeginIs(s: State, now: int)
    requires s.worker.Idle? && now >= s.clock
    ensures Do(s, Begin(now)) == State(ParkAll(s.rows, now), Between(now), now, s.events)
  {}

  lemma PublishIs(s: State, accepted: bool)
    requires s.worker.Holding?
    ensures Do(s, Publish(accepted)) == State(s.rows, Answered(s.worker.now, s.worker.row, s.worker.attempts, accepted), s.clock, s.events + [Published(s.worker.row, accepted)])
  {}

  lemma CrashIs(s: State)
    ensures Do(s, Crash) == s.(worker := Idle)
  {}

  lemma EndIs(s: State)
    requires s.worker.Between?
    ensures Do(s, End) == s.(worker := Idle)
  {}
}
