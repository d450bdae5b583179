/** The gateway's request budgets: the first rule that matches a request counts it per client address. */
module RateRules {
  import opened Options
  import RateLimiter

  datatype HttpRequest = HttpRequest(verb: string, path: string, contentType: string, ip: string, now: nat)

  predicate HasPrefix(s: string, p: string) { p <= s }

  predicate HasSuffix(s: string, x: string) { |x| <= |s| && s[|s| - |x|..] == x }

  predicate Contains(s: string, x: string) { exists n :: 0 <= n <= |s| && x <= s[n..] }

  predicate Multipart(r: HttpRequest) { HasPrefix(r.contentType, "multipart/") }

  predicate IsSupport(r: HttpRequest) {
    && r.verb == "POST" && HasPrefix(r.path, "/api/orders/")
    && (|| Contains(r.path, "/support-cases") || Contains(r.path, "/support-intakes") || Contains(r.path, "/cancellation-requests")
        || Contains(r.path, "/delivery-exceptions/") || HasSuffix(r.path, "/dispatches") || HasSuffix(r.path, "/goods-receipts"))
    && !Multipart(r)
  }

  datatype Rule = Rule(name: string, limit: nat, matches: HttpRequest -> bool)

  const RULES: seq<Rule> := [
    Rule("auth", 30, (r: HttpRequest) => r.verb == "POST" && HasPrefix(r.path, "/api/auth/")),
    Rule("checkout", 20, (r: HttpRequest) => r.verb == "POST" && HasPrefix(r.path, "/api/orders/checkout")),
    Rule("webhook", 600, (r: HttpRequest) => HasPrefix(r.path, "/api/webhooks")),
    Rule("support", 60, (r: HttpRequest) => IsSupport(r)),
    Rule("staff", 20, (r: HttpRequest) => r.verb == "POST" && HasPrefix(r.path, "/api/vendor/") && Contains(r.path, "/staff-invitations")),
    Rule("refund_destination", 10,
         (r: HttpRequest) => r.verb == "POST" && HasPrefix(r.path, "/api/payments/refunds/") && HasSuffix(r.path, "/beneficiary")),
    Rule("reports", 120, (r: HttpRequest) => r.verb == "GET" && Contains(r.path, "/business-reports")),
    Rule("availability", 20,
         (r: HttpRequest) => (r.verb == "PUT" || r.verb == "DELETE") && HasPrefix(r.path, "/api/vendor/") && HasSuffix(r.path, "/availability")),
    Rule("upload", 60, (r: HttpRequest) => r.verb == "POST" && Multipart(r)),
    Rule("default", 1200, (r: HttpRequest) => true)]

  /** The first rule that matches; the last one matches everything. */
  function RuleOf(r: HttpRequest, from: nat): (n: nat)
    requires from < |RULES|
    ensures from <= n < |RULES| && (RULES[n].matches(r) || n == |RULES| - 1)
    ensures forall m :: from <= m < n ==> !RULES[m].matches(r)
    decreases |RULES| - from
  {
    if RULES[from].matches(r) || from == |RULES| - 1 then from else RuleOf(r, from + 1)
  }

  function KeyOf(n: nat, ip: string): string
    requires n < |RULES|
  {
    RULES[n].name + "|" + ip
  }

  /** What the limiter is asked for a request that is not a preflight. */
  function Asked(r: HttpRequest): RateLimiter.Request {
    var n := RuleOf(r, 0);
    RateLimiter.Request(KeyOf(n, r.ip), RULES[n].limit, r.now)
  }

  function Requests(rs: seq<HttpRequest>): (out: seq<RateLimiter.Request>)
    ensures |out| <= |rs|
    decreases |rs|
  {
    if rs == [] then []
    else
      var n := |rs| - 1;
      if rs[n].verb == "OPTIONS" then Requests(rs[..n]) else Requests(rs[..n]) + [Asked(rs[n])]
  }

  // ---- one key, one limit ------------------------------------------------------------

  /** No rule's name has a bar, so the bar ends the name. */
  lemma NamesHaveNoBar(n: nat)
    requires n < |RULES|
    ensures '|' !in RULES[n].name
  {
    assert RULES[n].name in ["auth", "checkout", "webhook", "support", "staff", "refund_destination", "reports", "availability", "upload", "default"];
  }

  function FirstBar(s: string): nat { if s == "" || s[0] == '|' then 0 else 1 + FirstBar(s[1..]) }

  lemma {:induction false} BarComesAfter(a: string, x: string)
    requires '|' !in a
    ensures FirstBar(a + "|" + x) == |a|
    decreases |a|
  {
    if a == "" {
      assert a + "|" + x == "|" + x;
    } else {
      BarComesAfter(a[1..], x);
      assert (a + "|" + x)[1..] == a[1..] + "|" + x;
    }
  }

  lemma BarEndsTheName(a: string, x: string, b: string, y: string)
    requires a + "|" + x == b + "|" + y && '|' !in a && '|' !in b
    ensures a == b && x == y
  {
    var s := a + "|" + x;
    BarComesAfter(a, x);
    BarComesAfter(b, y);
    assert a == s[..|a|] && b == s[..|b|];
    assert x == s[|a| + 1..] && y == s[|b| + 1..];
  }

  lemma NamesAreDistinct(n: nat, m: nat)
    requires n < |RULES| && m < |RULES| && RULES[n].name == RULES[m].name
    ensures n == m
  {
    var lengths := [4, 8, 7, 7, 5, 18, 7, 12, 6, 7];
    assert forall k :: 0 <= k < |RULES| ==> |RULES[k].name| == lengths[k];
    assert RULES[2].name[0] == 'w' && RULES[3].name[0] == 's' && RULES[6].name[0] == 'r' && RULES[9].name[0] == 'd';
  }

  /** A limiter key belongs to one rule and one address. */
  lemma KeysAreSeparate(n: nat, ip: string, m: nat, jp: string)
    requires n < |RULES| && m < |RULES| && KeyOf(n, ip) == KeyOf(m, jp)
    ensures n == m && ip == jp
  {
    NamesHaveNoBar(n);
    NamesHaveNoBar(m);
    BarEndsTheName(RULES[n].name, ip, RULES[m].name, jp);
    NamesAreDistinct(n, m);
  }

  lemma {:induction false} LimitIsFixed(rs: seq<HttpRequest>, n: nat, ip: string)
    requires n < |RULES|
    ensures RateLimiter.FixedLimit(Requests(rs), KeyOf(n, ip), RULES[n].limit)
    decreases |rs|
  {
    hide KeyOf, RuleOf;
    if rs != [] {
      var last := |rs| - 1;
      LimitIsFixed(rs[..last], n, ip);
      if Asked(rs[last]).key == KeyOf(n, ip) { KeysAreSeparate(RuleOf(rs[last], 0), rs[last].ip, n, ip); }
    }
  }

  ghost predicate ClockRuns(rs: seq<HttpRequest>) { forall n, m :: 0 <= n < m < |rs| ==> rs[n].now <= rs[m].now }

  lemma {:induction false} RequestsInOrder(rs: seq<HttpRequest>)
    requires ClockRuns(rs)
    ensures RateLimiter.ClockRuns(Requests(rs))
    ensures forall m :: 0 <= m < |Requests(rs)| ==> rs != [] && Requests(rs)[m].now <= rs[|rs| - 1].now
    decreases |rs|
  {
    hide RuleOf, KeyOf;
    if rs != [] {
      var n := |rs| - 1;
      RequestsInOrder(rs[..n]);
      assert n > 0 ==> rs[n - 1].now <= rs[n].now;
    }
  }

  /**
    Whatever clients send, in no minute does the gateway pass more of one
    address's requests under one rule than twice the rule's limit less one:
    39 checkouts, 59 sign-ins, 2399 of anything else.
  */
  lemma EdgeBound(rs: seq<HttpRequest>, n: nat, ip: string, a: int)
    requires ClockRuns(rs) && n < |RULES|
    ensures RateLimiter.Passed(Requests(rs), KeyOf(n, ip), a) <= 2 * RULES[n].limit - 1
  {
    RequestsInOrder(rs);
    LimitIsFixed(rs, n, ip);
    LimitsArePositive(n);
    RateLimiter.NoMoreThanTwice(Requests(rs), KeyOf(n, ip), RULES[n].limit, a);
  }

  lemma LimitsArePositive(n: nat)
    requires n < |RULES|
    ensures 10 <= RULES[n].limit <= 1200
  {}

  // ---- budgets as clients meet them ------------------------------------------------------

  /** The address's requests of one kind that the gateway let through at a time from `a` on and within a minute. */
  ghost function LetThrough(rs: seq<HttpRequest>, ip: string, kind: HttpRequest -> bool, a: int): nat
    decreases |rs|
  {
    if rs == [] then 0
    else
      var n := |rs| - 1;
      LetThrough(rs[..n], ip, kind, a)
      + if rs[n].ip == ip && rs[n].verb != "OPTIONS" && kind(rs[n]) && a <= rs[n].now < a + 60_000_000_000 && RateLimiter.LastAnswer(Requests(rs)).ok
        then 1 else 0
  }

  /** Every request of the kind is counted under rule n. */
  ghost predicate Under(kind: HttpRequest -> bool, n: nat) { forall r: HttpRequest :: kind(r) ==> RuleOf(r, 0) == n }

  lemma {:induction false} KindIsCounted(rs: seq<HttpRequest>, ip: string, kind: HttpRequest -> bool, n: nat, a: int)
    requires n < |RULES| && Under(kind, n)
    ensures LetThrough(rs, ip, kind, a) <= RateLimiter.Passed(Requests(rs), KeyOf(n, ip), a)
    decreases |rs|
  {
    hide RuleOf, KeyOf, RateLimiter.LastAnswer;
    if rs != [] {
      var m := |rs| - 1;
      KindIsCounted(rs[..m], ip, kind, n, a);
      if rs[m].verb != "OPTIONS" {
        var own := Requests(rs);
        assert own[..|own| - 1] == Requests(rs[..m]);
        assert kind(rs[m]) ==> RuleOf(rs[m], 0) == n;
      }
    }
  }

  predicate IsSignIn(r: HttpRequest) { r.verb == "POST" && "/api/auth/" <= r.path }

  predicate IsCheckout(r: HttpRequest) { r.verb == "POST" && "/api/orders/checkout" <= r.path }

  predicate IsWebhook(r: HttpRequest) { "/api/webhooks" <= r.path }

  /** A question, claim or cancellation about an order, without files. */
  predicate IsSupportRequest(r: HttpRequest) {
    r.verb == "POST" && "/api/orders/" <= r.path && InSupport(r.path) && !("multipart/" <= r.contentType) && !IsCheckout(r)
  }

  predicate InSupport(path: string) {
    || Contains(path, "/support-cases") || Contains(path, "/support-intakes") || Contains(path, "/cancellation-requests")
    || Contains(path, "/delivery-exceptions/") || HasSuffix(path, "/dispatches") || HasSuffix(path, "/goods-receipts")
  }

  predicate IsInvitation(r: HttpRequest) { r.verb == "POST" && "/api/vendor/" <= r.path && Contains(r.path, "/staff-invitations") }

  predicate IsReport(r: HttpRequest) { r.verb == "GET" && Contains(r.path, "/business-reports") && !IsWebhook(r) }

  predicate IsAvailability(r: HttpRequest) {
    (r.verb == "PUT" || r.verb == "DELETE") && "/api/vendor/" <= r.path && HasSuffix(r.path, "/availability")
  }

  /** A form posted with files, outside the kinds above and not an invitation of staff or a refund destination. */
  predicate IsUpload(r: HttpRequest) {
    && r.verb == "POST" && "multipart/" <= r.contentType && !IsSignIn(r) && !IsCheckout(r) && !IsWebhook(r)
    && !("/api/vendor/" <= r.path) && !("/api/payments/" <= r.path)
  }

  /** Reading anything but the business reports and the webhooks. */
  predicate IsRead(r: HttpRequest) { r.verb == "GET" && !IsWebhook(r) && !Contains(r.path, "/business-reports") }

  predicate IsRefundDestination(r: HttpRequest) {
    r.verb == "POST" && "/api/payments/refunds/" <= r.path && HasSuffix(r.path, "/beneficiary")
  }

  predicate MatchesRule(r: HttpRequest, n: nat) { n < |RULES| && RULES[n].matches(r) }

  /** The rules in their order. */
  lemma RulesAre(r: HttpRequest)
    ensures MatchesRule(r, 0) <==> IsSignIn(r)
    ensures MatchesRule(r, 1) <==> IsCheckout(r)
    ensures MatchesRule(r, 2) <==> IsWebhook(r)
    ensures MatchesRule(r, 3) <==> r.verb == "POST" && "/api/orders/" <= r.path && InSupport(r.path) && !("multipart/" <= r.contentType)
    ensures MatchesRule(r, 4) <==> IsInvitation(r)
    ensures MatchesRule(r, 5) <==> IsRefundDestination(r)
    ensures MatchesRule(r, 6) <==> r.verb == "GET" && Contains(r.path, "/business-reports")
    ensures MatchesRule(r, 7) <==> IsAvailability(r)
    ensures MatchesRule(r, 8) <==> r.verb == "POST" && "multipart/" <= r.contentType
    ensures MatchesRule(r, 9)
  {
    hide Contains, HasSuffix;
  }

  lemma IsRule(r: HttpRequest, n: nat)
    requires MatchesRule(r, n) && forall m :: 0 <= m < n ==> !MatchesRule(r, m)
    ensures RuleOf(r, 0) == n
  {
    hide RuleOf;
    var k := RuleOf(r, 0);
    assert MatchesRule(r, k) == RULES[k].matches(r);
  }

  lemma PathsDiffer(path: string)
    ensures !("/api/auth/" <= path && "/api/orders/" <= path) && !("/api/auth/" <= path && "/api/webhooks" <= path)
    ensures !("/api/orders/" <= path && "/api/webhooks" <= path)
    ensures "/api/payments/" <= path ==>
              !("/api/auth/" <= path) && !("/api/orders/" <= path) && !("/api/webhooks" <= path) && !("/api/vendor/" <= path)
    ensures "/api/vendor/" <= path ==> !("/api/auth/" <= path) && !("/api/orders/" <= path) && !("/api/webhooks" <= path)
    ensures "/api/orders/checkout" <= path ==> "/api/orders/" <= path
    ensures "/api/payments/refunds/" <= path ==> "/api/payments/" <= path
  {
    if |path| > 5 { var c := path[5]; }
  }

  lemma EarlyKindsHaveRules()
    ensures Under(IsSignIn, 0) && Under(IsCheckout, 1) && Under(IsWebhook, 2) && Under(IsSupportRequest, 3) && Under(IsInvitation, 4)
  {
    hide RuleOf, MatchesRule, HasSuffix, Contains, InSupport;
    forall r: HttpRequest
      ensures (IsSignIn(r) ==> RuleOf(r, 0) == 0) && (IsCheckout(r) ==> RuleOf(r, 0) == 1) && (IsWebhook(r) ==> RuleOf(r, 0) == 2)
           && (IsSupportRequest(r) ==> RuleOf(r, 0) == 3) && (IsInvitation(r) ==> RuleOf(r, 0) == 4)
    {
      RulesAre(r);
      PathsDiffer(r.path);
      if IsSignIn(r) { IsRule(r, 0); }
      if IsCheckout(r) { IsRule(r, 1); }
      if IsWebhook(r) { IsRule(r, 2); }
      if IsSupportRequest(r) { IsRule(r, 3); }
      if IsInvitation(r) { IsRule(r, 4); }
    }
  }

  lemma LateKindsHaveRules()
    ensures Under(IsRefundDestination, 5) && Under(IsReport, 6) && Under(IsAvailability, 7) && Under(IsUpload, 8) && Under(IsRead, 9)
  {
    hide RuleOf, MatchesRule, HasSuffix, Contains, InSupport;
    forall r: HttpRequest
      ensures (IsRefundDestination(r) ==> RuleOf(r, 0) == 5) && (IsReport(r) ==> RuleOf(r, 0) == 6) && (IsAvailability(r) ==> RuleOf(r, 0) == 7)
           && (IsUpload(r) ==> RuleOf(r, 0) == 8) && (IsRead(r) ==> RuleOf(r, 0) == 9)
    {
      RulesAre(r);
      PathsDiffer(r.path);
      if IsRefundDestination(r) { IsRule(r, 5); }
      if IsReport(r) { IsRule(r, 6); }
      if IsAvailability(r) { IsRule(r, 7); }
      if IsUpload(r) { IsRule(r, 8); }
      if IsRead(r) { IsRule(r, 9); }
    }
  }

  /**
    What one address gets through in any minute, whatever it and others send:
    59 sign-ins, 39 checkouts, 1199 webhooks, 119 support requests, 39
    invitations, 19 refund destinations, 239 reports, 39 changes of
    availability, 119 uploads and 2399 reads.
  */
  lemma EdgeBudgets(rs: seq<HttpRequest>, ip: string, a: int)
    requires ClockRuns(rs)
    ensures LetThrough(rs, ip, IsSignIn, a) <= 59 && LetThrough(rs, ip, IsCheckout, a) <= 39
    ensures LetThrough(rs, ip, IsWebhook, a) <= 1199 && LetThrough(rs, ip, IsSupportRequest, a) <= 119
    ensures LetThrough(rs, ip, IsInvitation, a) <= 39 && LetThrough(rs, ip, IsRefundDestination, a) <= 19
    ensures LetThrough(rs, ip, IsReport, a) <= 239 && LetThrough(rs, ip, IsAvailability, a) <= 39
    ensures LetThrough(rs, ip, IsUpload, a) <= 119 && LetThrough(rs, ip, IsRead, a) <= 2399
  {
    hide LetThrough, Under, RateLimiter.Passed, Requests, RuleOf, KeyOf;
    EarlyKindsHaveRules();
    LateKindsHaveRules();
    KindBound(rs, ip, IsSignIn, 0, a);
    KindBound(rs, ip, IsCheckout, 1, a);
    KindBound(rs, ip, IsWebhook, 2, a);
    KindBound(rs, ip, IsSupportRequest, 3, a);
    KindBound(rs, ip, IsInvitation, 4, a);
    KindBound(rs, ip, IsRefundDestination, 5, a);
    KindBound(rs, ip, IsReport, 6, a);
    KindBound(rs, ip, IsAvailability, 7, a);
    KindBound(rs, ip, IsUpload, 8, a);
    KindBound(rs, ip, IsRead, 9, a);
  }

  /**
    And nothing less: a request of rule n passes exactly while it is within the
    budget of its rule, counted from the request of the same rule and address
    that opened its minute.
  */
  lemma {:induction false} BudgetsAreGranted(rs: seq<HttpRequest>, n: nat)
    requires ClockRuns(rs) && rs != [] && rs[|rs| - 1].verb != "OPTIONS" && RuleOf(rs[|rs| - 1], 0) == n
    ensures n < 10 && Requests(rs) != []
    ensures var key := KeyOf(n, rs[|rs| - 1].ip);
            var opener := RateLimiter.Opener(Requests(rs), key);
            opener.Some? && (RateLimiter.LastAnswer(Requests(rs)).ok <==>
              RateLimiter.Uses(Requests(rs), opener.value, key) <= [30, 20, 600, 60, 20, 10, 120, 20, 60, 1200][n])
  {
    hide RateLimiter.LastAnswer, RateLimiter.Opener, RateLimiter.Uses;
    RequestsInOrder(rs);
    RateLimiter.CountersMean(Requests(rs));
  }

  lemma KindBound(rs: seq<HttpRequest>, ip: string, kind: HttpRequest -> bool, n: nat, a: int)
    requires ClockRuns(rs) && n < |RULES| && Under(kind, n)
    ensures LetThrough(rs, ip, kind, a) <= 2 * [30, 20, 600, 60, 20, 10, 120, 20, 60, 1200][n] - 1
  {
    hide Under, LetThrough, Requests, KeyOf, RateLimiter.Passed;
    KindIsCounted(rs, ip, kind, n, a);
    EdgeBound(rs, n, ip, a);
  }

  method FirstMatch(r: HttpRequest) returns (n: nat)
    ensures n == RuleOf(r, 0)
  {
    n := 0;
    while !RULES[n].matches(r) && n < |RULES| - 1
      invariant n < |RULES| && RuleOf(r, n) == RuleOf(r, 0)
      decreases |RULES| - n
    {
      n := n + 1;
    }
  }

  /** The middleware: passes a request, or refuses it with a Retry-After header. */
  method Guard(l: RateLimiter.Limits, r: HttpRequest) returns (passes: bool, retryAfter: Option<int>)
    modifies l
    ensures r.verb == "OPTIONS" ==> passes && retryAfter == None && l.Now() == old(l.Now())
    ensures r.verb != "OPTIONS" ==>
              var (after, answer) := RateLimiter.Allow(old(l.Now()), Asked(r));
              && l.Now() == after && passes == answer.ok
              && retryAfter == if answer.ok then None else Some(RateLimiter.RetryAfter(answer))
  {
    hide RateLimiter.Allow, KeyOf, RuleOf;
    if r.verb == "OPTIONS" {
      return true, None;
    }
    var n := FirstMatch(r);
    var ok, retry := l.Admit(KeyOf(n, r.ip), RULES[n].limit, r.now);
    if !ok {
      return false, Some(retry / RateLimiter.SECOND + 1);
    }
    return true, None;
  }
}
