/**
  The gateway's request limiter: one-minute windows per key, swept lazily.
  Times are nanoseconds since the clock's zero.
*/
module RateLimiter {
  import opened Options

  const SECOND: int := 1_000_000_000
  const MINUTE: int := 60 * SECOND

  datatype Window = Window(start: int, count: nat)

  datatype Limiter = Limiter(windows: map<string, Window>, sweep: int)

  const Fresh := Limiter(map[], 0)

  datatype Request = Request(key: string, limit: int, now: nat)

  /** Whether a request passes, and how long its window still lasts. */
  datatype Answer = Answer(ok: bool, retry: int)

  predicate Expired(w: Window, now: int) { now - w.start >= MINUTE }

  function Swept(windows: map<string, Window>, now: int): map<string, Window> {
    map k | k in windows && !Expired(windows[k], now) :: windows[k]
  }

  /** The key's window with the request counted in it. */
  function Counted(windows: map<string, Window>, r: Request): Window {
    if r.key !in windows || Expired(windows[r.key], r.now) then Window(r.now, 1)
    else windows[r.key].(count := windows[r.key].count + 1)
  }

  function AnswerFor(w: Window, r: Request): Answer { Answer(w.count <= r.limit, MINUTE - (r.now - w.start)) }

  function Allow(l: Limiter, r: Request): (Limiter, Answer) {
    var s := if r.now - l.sweep > MINUTE then Limiter(Swept(l.windows, r.now), r.now) else l;
    var w := Counted(s.windows, r);
    (s.(windows := s.windows[r.key := w]), AnswerFor(w, r))
  }

  function After(rs: seq<Request>): Limiter
    decreases |rs|
  {
    if rs == [] then Fresh else Allow(After(rs[..|rs| - 1]), rs[|rs| - 1]).0
  }

  /** The answer to the last request of a run. */
  function LastAnswer(rs: seq<Request>): Answer
    requires rs != []
  {
    Allow(After(rs[..|rs| - 1]), rs[|rs| - 1]).1
  }

  ghost predicate ClockRuns(rs: seq<Request>) { forall n, m :: 0 <= n < m < |rs| ==> rs[n].now <= rs[m].now }

  // ---- the limiter that never sweeps ---------------------------------------------

  function PlainAfter(rs: seq<Request>): map<string, Window>
    decreases |rs|
  {
    if rs == [] then map[]
    else
      var n := |rs| - 1;
      var ws := PlainAfter(rs[..n]);
      ws[rs[n].key := Counted(ws, rs[n])]
  }

  function PlainAnswer(rs: seq<Request>): Answer
    requires rs != []
  {
    var n := |rs| - 1;
    AnswerFor(Counted(PlainAfter(rs[..n]), rs[n]), rs[n])
  }

  /** Sweeping removed only windows that had expired by then. */
  ghost predicate Matches(l: Limiter, ws: map<string, Window>, now: int) {
    && (forall k :: k in l.windows ==> k in ws && ws[k] == l.windows[k])
    && (forall k :: k in ws && k !in l.windows ==> Expired(ws[k], now))
  }

  lemma AllowMatches(l: Limiter, ws: map<string, Window>, before: int, r: Request)
    requires Matches(l, ws, before) && before <= r.now
    ensures Matches(Allow(l, r).0, ws[r.key := Counted(ws, r)], r.now)
    ensures Allow(l, r).1 == AnswerFor(Counted(ws, r), r)
  {}

  lemma {:induction false} SweepingIsInvisible(rs: seq<Request>)
    requires ClockRuns(rs) && rs != []
    ensures Matches(After(rs), PlainAfter(rs), rs[|rs| - 1].now)
    ensures LastAnswer(rs) == PlainAnswer(rs)
    decreases |rs|
  {
    hide Allow, Counted, AnswerFor, Matches;
    var n := |rs| - 1;
    if n == 0 {
      assert rs[..n] == [];
      FreshMatches(rs[0].now);
      AllowMatches(Fresh, map[], rs[0].now, rs[0]);
    } else {
      SweepingIsInvisible(rs[..n]);
      AllowMatches(After(rs[..n]), PlainAfter(rs[..n]), rs[n - 1].now, rs[n]);
    }
  }

  lemma FreshMatches(now: int)
    ensures Matches(Fresh, map[], now)
  {}

  // ---- the counters stand for the requests -------------------------------------------

  /** The request that opened the key's current window: the first one, or the first a minute or more after the one that opened the window before. */
  function Opener(rs: seq<Request>, key: string): (m: Option<nat>)
    ensures m.Some? ==> m.value < |rs| && rs[m.value].key == key
    decreases |rs|
  {
    if rs == [] then None
    else
      var n := |rs| - 1;
      var m := Opener(rs[..n], key);
      if rs[n].key == key && (m == None || rs[n].now >= rs[m.value].now + 60_000_000_000) then Some(n) else m
  }

  /** The key's requests from the m-th request on. */
  function Uses(rs: seq<Request>, m: nat, key: string): nat
    decreases |rs|
  {
    if |rs| <= m then 0
    else
      var n := |rs| - 1;
      Uses(rs[..n], m, key) + if rs[n].key == key then 1 else 0
  }

  lemma {:induction false} WindowIs(rs: seq<Request>, key: string)
    ensures key in PlainAfter(rs) <==> Opener(rs, key).Some?
    ensures key in PlainAfter(rs) ==> PlainAfter(rs)[key] == Window(rs[Opener(rs, key).value].now, Uses(rs, Opener(rs, key).value, key))
    decreases |rs|
  {
    if rs != [] {
      var n := |rs| - 1;
      WindowIs(rs[..n], key);
      assert Uses(rs[..n], n, key) == 0;
    }
  }

  /**
    The limiter's two numbers per key stand for the whole history: a request
    passes exactly when, counted from the request that opened its window, it is
    within the limit, and it is told how long that window still lasts.
  */
  lemma CountersMean(rs: seq<Request>)
    requires ClockRuns(rs) && rs != []
    ensures var r := rs[|rs| - 1];
            var m := Opener(rs, r.key);
            && m.Some?
            && (LastAnswer(rs).ok <==> Uses(rs, m.value, r.key) <= r.limit)
            && LastAnswer(rs).retry == rs[m.value].now + 60_000_000_000 - r.now
  {
    hide LastAnswer;
    var n := |rs| - 1;
    SweepingIsInvisible(rs);
    WindowIs(rs, rs[n].key);
    assert PlainAfter(rs)[rs[n].key] == Counted(PlainAfter(rs[..n]), rs[n]);
  }

  // ---- keys do not touch each other ------------------------------------------------

  function Only(rs: seq<Request>, key: string): (own: seq<Request>)
    ensures forall n :: 0 <= n < |own| ==> own[n].key == key
    decreases |rs|
  {
    if rs == [] then []
    else
      var n := |rs| - 1;
      Only(rs[..n], key) + if rs[n].key == key then [rs[n]] else []
  }

  ghost predicate SameAt(ws: map<string, Window>, vs: map<string, Window>, key: string) {
    (key in ws <==> key in vs) && (key in ws ==> ws[key] == vs[key])
  }

  lemma CountsAlike(ws: map<string, Window>, vs: map<string, Window>, r: Request)
    requires SameAt(ws, vs, r.key)
    ensures Counted(ws, r) == Counted(vs, r)
  {}

  lemma PlainStep(rs: seq<Request>, r: Request)
    ensures PlainAfter(rs + [r]) == PlainAfter(rs)[r.key := Counted(PlainAfter(rs), r)]
  {
    assert (rs + [r])[..|rs|] == rs;
  }

  lemma {:induction false} OwnWindow(rs: seq<Request>, key: string)
    ensures SameAt(PlainAfter(rs), PlainAfter(Only(rs, key)), key)
    decreases |rs|
  {
    hide Counted;
    if rs != [] {
      var n := |rs| - 1;
      OwnWindow(rs[..n], key);
      var front := Only(rs[..n], key);
      if rs[n].key == key {
        PlainStep(front, rs[n]);
        CountsAlike(PlainAfter(rs[..n]), PlainAfter(front), rs[n]);
      } else {
        assert Only(rs, key) == front;
      }
    }
  }

  lemma {:induction false} OnlyIsOrdered(rs: seq<Request>, key: string)
    requires ClockRuns(rs)
    ensures ClockRuns(Only(rs, key))
    ensures forall m :: 0 <= m < |Only(rs, key)| ==> rs != [] && Only(rs, key)[m].now <= rs[|rs| - 1].now
    decreases |rs|
  {
    if rs != [] {
      var n := |rs| - 1;
      OnlyIsOrdered(rs[..n], key);
      assert n > 0 ==> rs[n - 1].now <= rs[n].now;
    }
  }

  /** The answer to a request depends only on the earlier requests with its own key. */
  lemma AnswersAreIndependent(rs: seq<Request>)
    requires ClockRuns(rs) && rs != []
    ensures var own := Only(rs, rs[|rs| - 1].key); own != [] && LastAnswer(rs) == LastAnswer(own)
  {
    hide Allow, AnswerFor;
    var n := |rs| - 1;
    var key := rs[n].key;
    var own := Only(rs, key);
    OnlyIsOrdered(rs, key);
    SweepingIsInvisible(rs);
    SweepingIsInvisible(own);
    OwnWindow(rs[..n], key);
    assert own[..|own| - 1] == Only(rs[..n], key);
  }

  // ---- memory ------------------------------------------------------------------------

  /** Whatever is kept was started less than two minutes before the last request. */
  lemma {:induction false} WindowsAreRecent(rs: seq<Request>, k: string)
    requires ClockRuns(rs) && k in After(rs).windows
    ensures rs != [] && rs[|rs| - 1].now - After(rs).windows[k].start < 2 * MINUTE
  {
    SweptLately(rs);
  }

  lemma {:induction false} SweptLately(rs: seq<Request>)
    requires ClockRuns(rs)
    ensures var l := After(rs);
            && (rs != [] ==> l.sweep <= rs[|rs| - 1].now <= l.sweep + MINUTE)
            && (rs == [] ==> l == Fresh)
            && (forall k :: k in l.windows ==> l.windows[k].start > l.sweep - MINUTE)
    decreases |rs|
  {
    if rs != [] { SweptLately(rs[..|rs| - 1]); }
  }

  // ---- how much passes ---------------------------------------------------------------

  function Min(a: int, b: int): int { if a <= b then a else b }

  /** The key's requests that passed at a time from `a` on and within a minute. */
  function Passed(rs: seq<Request>, key: string, a: int): nat
    decreases |rs|
  {
    if rs == [] then 0
    else
      var n := |rs| - 1;
      Passed(rs[..n], key, a) + if rs[n].key == key && a <= rs[n].now < a + 60_000_000_000 && LastAnswer(rs).ok then 1 else 0
  }

  /** The key's requests that passed since its current window began. */
  function PassedInWindow(rs: seq<Request>, key: string): nat
    decreases |rs|
  {
    if rs == [] then 0
    else
      var n := |rs| - 1;
      var before := if rs[n].key == key && Counted(PlainAfter(rs[..n]), rs[n]).count == 1 then 0 else PassedInWindow(rs[..n], key);
      before + if rs[n].key == key && LastAnswer(rs).ok then 1 else 0
  }

  ghost predicate FixedLimit(rs: seq<Request>, key: string, limit: int) {
    forall n :: 0 <= n < |rs| && rs[n].key == key ==> rs[n].limit == limit
  }

  /** Where the key's window starts decides how much of the minute can have passed. */
  ghost predicate Budget(ws: map<string, Window>, key: string, limit: int, a: int, passed: int) {
    if key !in ws then passed == 0
    else
      var w := ws[key];
      && w.count >= 1
      && (if w.start < a then passed <= Min(w.count, limit) - 1
          else if w.start < a + MINUTE then passed <= limit - 1 + Min(w.count, limit)
          else passed <= 2 * limit - 1)
  }

  /** A request of the key moves its budget on; one after the minute cannot add to it. */
  lemma BudgetStep(ws: map<string, Window>, r: Request, limit: int, a: int, passed: int)
    requires Budget(ws, r.key, limit, a, passed) && limit >= 1 && (r.key in ws ==> ws[r.key].start <= r.now) && (r.now < a ==> passed == 0)
    ensures var w := Counted(ws, r);
            Budget(ws[r.key := w], r.key, limit, a, passed + if a <= r.now < a + MINUTE && w.count <= limit then 1 else 0)
  {}

  lemma {:induction false} BudgetHolds(rs: seq<Request>, key: string, limit: int, a: int)
    requires ClockRuns(rs) && FixedLimit(rs, key, limit) && limit >= 1
    ensures Budget(PlainAfter(rs), key, limit, a, Passed(rs, key, a))
    decreases |rs|
  {
    hide LastAnswer;
    if rs != [] {
      var n := |rs| - 1;
      BudgetHolds(rs[..n], key, limit, a);
      if rs[n].key == key {
        SweepingIsInvisible(rs);
        StartsArePast(rs[..n]);
        assert n > 0 ==> rs[n - 1].now <= rs[n].now;
        if rs[n].now < a { NoneBefore(rs[..n], key, a); }
        hide Budget, Counted;
        BudgetStep(PlainAfter(rs[..n]), rs[n], limit, a, Passed(rs[..n], key, a));
      }
    }
  }

  lemma {:induction false} NoneBefore(rs: seq<Request>, key: string, a: int)
    requires ClockRuns(rs) && (rs != [] ==> rs[|rs| - 1].now < a)
    ensures Passed(rs, key, a) == 0
    decreases |rs|
  {
    hide LastAnswer;
    if rs != [] { NoneBefore(rs[..|rs| - 1], key, a); }
  }

  /**
    In no minute, wherever it starts, does one key pass more than twice its
    limit less one; a limit below one passes nothing.
  */
  lemma NoMoreThanTwice(rs: seq<Request>, key: string, limit: int, a: int)
    requires ClockRuns(rs) && FixedLimit(rs, key, limit)
    ensures Passed(rs, key, a) <= if limit >= 1 then 2 * limit - 1 else 0
  {
    if limit >= 1 { BudgetHolds(rs, key, limit, a); } else { NothingPasses(rs, key, limit, a); }
  }

  lemma {:induction false} NothingPasses(rs: seq<Request>, key: string, limit: int, a: int)
    requires ClockRuns(rs) && FixedLimit(rs, key, limit) && limit < 1
    ensures Passed(rs, key, a) == 0
    decreases |rs|
  {
    hide LastAnswer;
    if rs != [] {
      NothingPasses(rs[..|rs| - 1], key, limit, a);
      SweepingIsInvisible(rs);
      CountsAreOne(rs);
    }
  }

  lemma {:induction false} CountsAreOne(rs: seq<Request>)
    ensures forall k :: k in PlainAfter(rs) ==> PlainAfter(rs)[k].count >= 1
    decreases |rs|
  {
    if rs != [] { CountsAreOne(rs[..|rs| - 1]); }
  }

  /** One window passes exactly its requests up to the limit. */
  lemma {:induction false} WindowPassesItsLimit(rs: seq<Request>, key: string, limit: nat)
    requires ClockRuns(rs) && FixedLimit(rs, key, limit)
    ensures PassedInWindow(rs, key) == (if key in PlainAfter(rs) then Min(PlainAfter(rs)[key].count, limit) else 0) <= limit
    decreases |rs|
  {
    hide LastAnswer;
    if rs != [] {
      WindowPassesItsLimit(rs[..|rs| - 1], key, limit);
      SweepingIsInvisible(rs);
      CountsAreOne(rs[..|rs| - 1]);
    }
  }

  // ---- the bound is met --------------------------------------------------------------

  function Repeat(r: Request, n: nat): (rs: seq<Request>)
    ensures |rs| == n && forall m :: 0 <= m < n ==> rs[m] == r
  {
    if n == 0 then [] else Repeat(r, n - 1) + [r]
  }

  /** One request opens the window, the rest of the limit comes at its end, and the next window fills at once. */
  function Burst(key: string, limit: nat): seq<Request>
    requires limit >= 1
  {
    [Request(key, limit, 0)] + Repeat(Request(key, limit, MINUTE - 1), limit - 1) + Repeat(Request(key, limit, MINUTE), limit)
  }

  /** One more request in the key's window, within its limit and within the minute. */
  lemma OneMore(rs: seq<Request>, r: Request, a: int)
    requires ClockRuns(rs + [r]) && r.key in PlainAfter(rs) && a <= r.now < a + MINUTE
    requires !Expired(PlainAfter(rs)[r.key], r.now) && PlainAfter(rs)[r.key].count < r.limit
    ensures var out := rs + [r];
            && r.key in PlainAfter(out)
            && PlainAfter(out)[r.key] == Window(PlainAfter(rs)[r.key].start, PlainAfter(rs)[r.key].count + 1)
            && Passed(out, r.key, a) == Passed(rs, r.key, a) + 1
  {
    hide LastAnswer;
    var out := rs + [r];
    assert out[..|out| - 1] == rs;
    SweepingIsInvisible(out);
  }

  lemma {:induction false} SameWindow(rs: seq<Request>, r: Request, n: nat, a: int)
    requires ClockRuns(rs + Repeat(r, n)) && r.key in PlainAfter(rs) && a <= r.now < a + MINUTE
    requires !Expired(PlainAfter(rs)[r.key], r.now) && PlainAfter(rs)[r.key].count + n <= r.limit
    ensures var out := rs + Repeat(r, n);
            && r.key in PlainAfter(out)
            && PlainAfter(out)[r.key] == Window(PlainAfter(rs)[r.key].start, PlainAfter(rs)[r.key].count + n)
            && Passed(out, r.key, a) == Passed(rs, r.key, a) + n
    decreases n
  {
    hide PlainAfter, Passed;
    if n == 0 {
      assert rs + Repeat(r, n) == rs;
    } else {
      var front := rs + Repeat(r, n - 1);
      assert rs + Repeat(r, n) == front + [r];
      OrderedFront(front, r);
      SameWindow(rs, r, n - 1, a);
      OneMore(front, r, a);
    }
  }

  lemma OrderedFront(rs: seq<Request>, r: Request)
    requires ClockRuns(rs + [r])
    ensures ClockRuns(rs)
  {
    forall n, m | 0 <= n < m < |rs| ensures rs[n].now <= rs[m].now {
      assert (rs + [r])[n] == rs[n] && (rs + [r])[m] == rs[m];
    }
  }

  /** The burst in the order it is served. */
  lemma BurstParts(key: string, limit: nat)
    requires limit >= 1
    ensures var full := [Request(key, limit, 0)] + Repeat(Request(key, limit, MINUTE - 1), limit - 1);
            var next := Request(key, limit, MINUTE);
            && Burst(key, limit) == full + [next] + Repeat(next, limit - 1)
            && ClockRuns(Burst(key, limit)) && FixedLimit(Burst(key, limit), key, limit)
            && ClockRuns(full + [next]) && ClockRuns(full)
  {
    var full := [Request(key, limit, 0)] + Repeat(Request(key, limit, MINUTE - 1), limit - 1);
    var next := Request(key, limit, MINUTE);
    RepeatSplits(next, limit);
    assert Burst(key, limit) == full + [next] + Repeat(next, limit - 1);
  }

  /** The first request of a new window. */
  lemma NextWindow(rs: seq<Request>, r: Request, a: int)
    requires ClockRuns(rs + [r]) && (r.key in PlainAfter(rs) ==> Expired(PlainAfter(rs)[r.key], r.now)) && r.limit >= 1
    ensures var out := rs + [r];
            && r.key in PlainAfter(out) && PlainAfter(out)[r.key] == Window(r.now, 1)
            && Passed(out, r.key, a) == Passed(rs, r.key, a) + if a <= r.now < a + MINUTE then 1 else 0
  {
    hide LastAnswer;
    var out := rs + [r];
    assert out[..|out| - 1] == rs;
    SweepingIsInvisible(out);
  }

  /** For every limit some run passes exactly twice the limit less one within a minute, so the bound cannot be lowered. */
  lemma TwiceLessOneIsReached(key: string, limit: nat)
    requires limit >= 1
    ensures ClockRuns(Burst(key, limit)) && FixedLimit(Burst(key, limit), key, limit)
    ensures Passed(Burst(key, limit), key, MINUTE - 1) == 2 * limit - 1
  {
    hide ClockRuns, FixedLimit, Burst, Repeat;
    BurstParts(key, limit);
    var a := MINUTE - 1;
    var first, late, next := Request(key, limit, 0), Request(key, limit, MINUTE - 1), Request(key, limit, MINUTE);
    OneRequest(first, a);
    hide PlainAfter, Passed;
    var full := [first] + Repeat(late, limit - 1);
    SameWindow([first], late, limit - 1, a);
    NextWindow(full, next, a);
    SameWindow(full + [next], next, limit - 1, a);
  }

  lemma OneRequest(r: Request, a: int)
    requires r.now < a
    ensures PlainAfter([r]) == map[r.key := Window(r.now, 1)] && Passed([r], r.key, a) == 0
  {
    hide LastAnswer;
    assert [r][..0] == [];
  }

  lemma {:induction false} RepeatSplits(r: Request, n: nat)
    requires n >= 1
    ensures Repeat(r, n) == [r] + Repeat(r, n - 1)
  {}

  // ---- waiting out Retry-After ---------------------------------------------------------

  /** The Retry-After header, in seconds. */
  function RetryAfter(a: Answer): int { a.retry / SECOND + 1 }

  lemma RetryIsPositive(rs: seq<Request>)
    requires ClockRuns(rs) && rs != []
    ensures 0 < LastAnswer(rs).retry <= MINUTE
  {
    SweepingIsInvisible(rs);
    StartsArePast(rs[..|rs| - 1]);
  }

  /** The header is the first whole second after the window ends, between 1 and 61. */
  lemma RetryAfterIsTight(rs: seq<Request>)
    requires ClockRuns(rs) && rs != []
    ensures var a := LastAnswer(rs);
            && (RetryAfter(a) - 1) * 1_000_000_000 <= a.retry < RetryAfter(a) * 1_000_000_000
            && 1 <= RetryAfter(a) <= 61
  {
    hide LastAnswer;
    RetryIsPositive(rs);
  }

  lemma {:induction false} StartsArePast(rs: seq<Request>)
    requires ClockRuns(rs)
    ensures forall k :: k in PlainAfter(rs) ==> rs != [] && PlainAfter(rs)[k].start <= rs[|rs| - 1].now
    decreases |rs|
  {
    if rs != [] { StartsArePast(rs[..|rs| - 1]); }
  }

  lemma {:induction false} OthersLeave(rs: seq<Request>, others: seq<Request>, key: string)
    requires key in PlainAfter(rs) && forall n :: 0 <= n < |others| ==> others[n].key != key
    ensures key in PlainAfter(rs + others) && PlainAfter(rs + others)[key] == PlainAfter(rs)[key]
    decreases |others|
  {
    if others == [] {
      assert rs + others == rs;
    } else {
      var n := |others| - 1;
      assert (rs + others)[..|rs + others| - 1] == rs + others[..n];
      OthersLeave(rs, others[..n], key);
    }
  }

  /**
    A client that waits as long as the refusal told it, while nobody else uses
    its key, passes with its next request, for every limit of at least one.
  */
  lemma RetryAfterSuffices(rs: seq<Request>, others: seq<Request>, again: Request)
    requires rs != [] && ClockRuns(rs + others + [again]) && ClockRuns(rs)
    requires var last := rs[|rs| - 1];
             && (forall n :: 0 <= n < |others| ==> others[n].key != last.key)
             && again.key == last.key && again.limit >= 1 && again.now >= last.now + RetryAfter(LastAnswer(rs)) * SECOND
    ensures LastAnswer(rs + others + [again]).ok
  {
    hide LastAnswer;
    var last := rs[|rs| - 1];
    SweepingIsInvisible(rs);
    OthersLeave(rs, others, last.key);
    var all := rs + others + [again];
    assert all[..|all| - 1] == rs + others;
    SweepingIsInvisible(all);
    assert LastAnswer(rs).retry < RetryAfter(LastAnswer(rs)) * SECOND;
    assert Expired(PlainAfter(rs)[last.key], again.now);
  }

  // ---- the limiter in place --------------------------------------------------------------

  class Limits {
    var windows: map<string, Window>
    var sweep: int

    function Now(): Limiter
      reads this
    {
      Limiter(windows, sweep)
    }

    constructor ()
      ensures Now() == Fresh
    {
      windows, sweep := map[], 0;
    }

    method Admit(key: string, limit: int, now: nat) returns (ok: bool, retry: int)
      modifies this
      ensures (Now(), Answer(ok, retry)) == Allow(old(Now()), Request(key, limit, now))
    {
      hide Swept;
      if now - sweep > MINUTE {
        windows := Live(windows, now);
        sweep := now;
      }
      var w := Window(now, 0);
      if key in windows && now - windows[key].start < MINUTE {
        w := windows[key];
      }
      w := w.(count := w.count + 1);
      windows := windows[key := w];
      return w.count <= limit, MINUTE - (now - w.start);
    }
  }

  /** The sweep: every expired window is deleted, in whatever order the map is visited. */
  method Live(windows: map<string, Window>, now: int) returns (kept: map<string, Window>)
    ensures kept == Swept(windows, now)
  {
    kept := windows;
    var left := windows.Keys;
    while left != {}
      invariant left <= windows.Keys
      invariant kept == map k | k in windows && (k in left || !Expired(windows[k], now)) :: windows[k]
      decreases |left|
    {
      var k :| k in left;
      left := left - {k};
      if now - windows[k].start >= MINUTE {
        kept := kept - {k};
      }
    }
  }
}
