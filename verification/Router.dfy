/** The gateway's dispatch: the longest configured prefix of a path decides its upstream. */
module Router {
  import opened Options

  datatype Route = Route(prefix: string, upstream: string)

  predicate Matches(prefix: string, path: string) { path == prefix || prefix + "/" <= path }

  /** The path is the prefix, or goes on below it: "/api/order" is not under "/api/or". */
  predicate Under(prefix: string, path: string) {
    |prefix| <= |path| && path[..|prefix|] == prefix && (|path| > |prefix| ==> path[|prefix|] == '/')
  }

  lemma MatchesIffUnder(prefix: string, path: string)
    ensures Matches(prefix, path) <==> Under(prefix, path)
  {
    if prefix + "/" <= path { assert path[..|prefix| + 1] == prefix + "/"; }
    if Under(prefix, path) && |path| > |prefix| { assert path[..|prefix| + 1] == prefix + "/"; }
  }

  /** The configured prefix that dispatch must find: the path is under it, and under no longer one. */
  ghost predicate IsLongest(upstreams: map<string, string>, path: string, prefix: string) {
    && prefix in upstreams && Under(prefix, path)
    && forall q :: q in upstreams && Under(q, path) ==> |q| <= |prefix|
  }

  /** Two matches of one length are the same prefix, so the longest match is unique. */
  lemma LongestIsUnique(upstreams: map<string, string>, path: string, p: string, q: string)
    requires IsLongest(upstreams, path, p) && IsLongest(upstreams, path, q)
    ensures p == q
  {
    assert p == path[..|p|] && q == path[..|q|];
  }

  ghost predicate LongestFirst(routes: seq<Route>) { forall n, m :: 0 <= n < m < |routes| ==> |routes[n].prefix| >= |routes[m].prefix| }

  /** The routes are the configured ones, each once. */
  ghost predicate Configured(routes: seq<Route>, upstreams: map<string, string>) {
    && (forall n :: 0 <= n < |routes| ==> routes[n].prefix in upstreams && upstreams[routes[n].prefix] == routes[n].upstream)
    && (forall p :: p in upstreams ==> Route(p, upstreams[p]) in routes)
    && (forall n, m :: 0 <= n < m < |routes| ==> routes[n].prefix != routes[m].prefix)
  }

  /** The scan: the first route that matches. */
  function Scan(routes: seq<Route>, path: string): Option<Route> {
    if routes == [] then None else if Matches(routes[0].prefix, path) then Some(routes[0]) else Scan(routes[1..], path)
  }

  lemma {:induction false} ScanFindsTheFirst(routes: seq<Route>, path: string)
    ensures match Scan(routes, path)
            case None => forall n :: 0 <= n < |routes| ==> !Matches(routes[n].prefix, path)
            case Some(r) => exists n :: 0 <= n < |routes| && routes[n] == r && Matches(r.prefix, path)
                                        && forall m :: 0 <= m < n ==> !Matches(routes[m].prefix, path)
  {
    hide Matches;
    if routes != [] && !Matches(routes[0].prefix, path) {
      ScanFindsTheFirst(routes[1..], path);
      if Scan(routes, path).Some? {
        var r := Scan(routes, path).value;
        var n :| 0 <= n < |routes[1..]| && routes[1..][n] == r && forall m :: 0 <= m < n ==> !Matches(routes[1..][m].prefix, path);
        forall m | 0 <= m < n + 1 ensures !Matches(routes[m].prefix, path) {
          if m > 0 { assert routes[m] == routes[1..][m - 1]; }
        }
        assert routes[n + 1] == r;
      } else {
        forall n | 0 <= n < |routes| ensures !Matches(routes[n].prefix, path) {
          if n > 0 { assert routes[n] == routes[1..][n - 1]; }
        }
      }
    }
  }

  /**
    Whatever order the configuration was read in and however the sort placed
    equal lengths, a path goes to the upstream of its longest prefix, and
    nowhere exactly when no prefix matches.
  */
  lemma DispatchIsLongestPrefix(routes: seq<Route>, upstreams: map<string, string>, path: string)
    requires Configured(routes, upstreams) && LongestFirst(routes)
    ensures match Scan(routes, path)
            case None => forall p :: p in upstreams ==> !Under(p, path)
            case Some(r) => IsLongest(upstreams, path, r.prefix) && r.upstream == upstreams[r.prefix]
  {
    hide Matches, Under;
    forall p ensures Matches(p, path) <==> Under(p, path) { MatchesIffUnder(p, path); }
    ScanFindsTheFirst(routes, path);
    match Scan(routes, path)
    case None =>
      forall p | p in upstreams ensures !Under(p, path) { assert Route(p, upstreams[p]) in routes; }
    case Some(r) =>
      var n :| 0 <= n < |routes| && routes[n] == r && Matches(r.prefix, path) && forall m :: 0 <= m < n ==> !Matches(routes[m].prefix, path);
      forall q | q in upstreams && Under(q, path) ensures |q| <= |r.prefix| {
        assert Route(q, upstreams[q]) in routes;
        var m :| 0 <= m < |routes| && routes[m] == Route(q, upstreams[q]);
      }
  }

  /** Two gateways with one configuration dispatch alike. */
  lemma OrderDoesNotMatter(a: seq<Route>, b: seq<Route>, upstreams: map<string, string>, path: string)
    requires Configured(a, upstreams) && LongestFirst(a) && Configured(b, upstreams) && LongestFirst(b)
    ensures Scan(a, path) == Scan(b, path)
  {
    hide Matches;
    DispatchIsLongestPrefix(a, upstreams, path);
    DispatchIsLongestPrefix(b, upstreams, path);
    if Scan(a, path).Some? && Scan(b, path).Some? {
      LongestIsUnique(upstreams, path, Scan(a, path).value.prefix, Scan(b, path).value.prefix);
    }
  }

  // ---- building the table --------------------------------------------------------------

  ghost predicate Permuted(a: seq<Route>, b: seq<Route>) { multiset(a) == multiset(b) }

  lemma PermutedOn(a: seq<Route>, b: seq<Route>, c: seq<Route>)
    requires Permuted(a, b) && Permuted(b, c)
    ensures Permuted(a, c)
  {}

  /** Sorts by falling length of prefix; equal lengths may come out either way. */
  method SortRoutes(routes: array<Route>)
    modifies routes
    ensures LongestFirst(routes[..])
    ensures Permuted(old(routes[..]), routes[..])
  {
    for n := 0 to routes.Length
      invariant LongestFirst(routes[..n])
      invariant Permuted(old(routes[..]), routes[..])
    {
      ghost var before := routes[..];
      Sink(routes, n);
      PermutedOn(old(routes[..]), before, routes[..]);
    }
    assert routes[..routes.Length] == routes[..];
  }

  /** All but the element on its way are in order. */
  ghost predicate Sinking(routes: seq<Route>, n: nat, m: nat)
    requires m <= n < |routes|
  {
    && (forall x, y :: 0 <= x < y <= n && x != m && y != m ==> |routes[x].prefix| >= |routes[y].prefix|)
    && (forall y :: m < y <= n ==> |routes[m].prefix| >= |routes[y].prefix|)
  }

  lemma SwapKeepsSinking(routes: seq<Route>, n: nat, m: nat)
    requires 0 < m <= n < |routes| && Sinking(routes, n, m) && |routes[m - 1].prefix| < |routes[m].prefix|
    ensures Sinking(routes[m - 1 := routes[m]][m := routes[m - 1]], n, m - 1)
    ensures Permuted(routes, routes[m - 1 := routes[m]][m := routes[m - 1]])
  {}

  lemma Sunk(routes: seq<Route>, n: nat, m: nat)
    requires m <= n < |routes| && Sinking(routes, n, m) && (m > 0 ==> |routes[m - 1].prefix| >= |routes[m].prefix|)
    ensures LongestFirst(routes[..n + 1])
  {}

  /** Moves element n back to its place among the sorted ones before it. */
  method Sink(routes: array<Route>, n: nat)
    requires n < routes.Length && LongestFirst(routes[..n])
    modifies routes
    ensures LongestFirst(routes[..n + 1])
    ensures Permuted(old(routes[..]), routes[..])
  {
    var m: nat := n;
    assert Sinking(routes[..], n, m) by {
      forall x, y | 0 <= x < y < n ensures |routes[x].prefix| >= |routes[y].prefix| {
        assert routes[..n][x] == routes[x] && routes[..n][y] == routes[y];
      }
    }
    assert Permuted(routes[..], routes[..]);
    hide Sinking, LongestFirst, Permuted;
    while m > 0 && |routes[m - 1].prefix| < |routes[m].prefix|
      invariant m <= n && Sinking(routes[..], n, m)
      invariant Permuted(old(routes[..]), routes[..])
    {
      ghost var before := routes[..];
      SwapKeepsSinking(before, n, m);
      routes[m - 1], routes[m] := routes[m], routes[m - 1];
      assert routes[..] == before[m - 1 := before[m]][m := before[m - 1]];
      PermutedOn(old(routes[..]), before, routes[..]);
      m := m - 1;
    }
    Sunk(routes[..], n, m);
    assert routes[..][..n + 1] == routes[..n + 1];
  }

  class Gateway {
    var routes: seq<Route>

    /** Builds the table; an upstream that is no address refuses the whole configuration. */
    static method NewRouter(upstreams: map<string, string>, parses: string -> bool) returns (table: Option<seq<Route>>)
      ensures table.Some? <==> forall p :: p in upstreams ==> parses(upstreams[p])
      ensures table.Some? ==> Configured(table.value, upstreams) && LongestFirst(table.value)
    {
      var listed := List(upstreams, parses);
      if listed.None? {
        return None;
      }
      var sorted := new Route[|listed.value|](n requires 0 <= n < |listed.value| => listed.value[n]);
      assert sorted[..] == listed.value;
      SortRoutes(sorted);
      SameRoutes(listed.value, sorted[..], upstreams);
      return Some(sorted[..]);
    }

    constructor (table: seq<Route>)
      ensures routes == table
    {
      routes := table;
    }

    /** Where a path goes; a path no prefix matches is not found. */
    method Dispatch(path: string, ghost upstreams: map<string, string>) returns (to: Option<string>)
      requires Configured(routes, upstreams) && LongestFirst(routes)
      ensures to.None? <==> forall p :: p in upstreams ==> !Under(p, path)
      ensures to.Some? ==> exists p :: IsLongest(upstreams, path, p) && to.value == upstreams[p]
    {
      hide Matches, Under, Configured, LongestFirst, IsLongest;
      DispatchIsLongestPrefix(routes, upstreams, path);
      for n := 0 to |routes|
        invariant Scan(routes, path) == Scan(routes[n..], path)
      {
        if Matches(routes[n].prefix, path) {
          LongestIsAMatch(upstreams, path, routes[n].prefix);
          return Some(routes[n].upstream);
        }
        assert routes[n..][1..] == routes[n + 1..];
      }
      return None;
    }
  }

  lemma LongestIsAMatch(upstreams: map<string, string>, path: string, p: string)
    ensures IsLongest(upstreams, path, p) ==> p in upstreams && Under(p, path)
  {}

  method List(upstreams: map<string, string>, parses: string -> bool) returns (routes: Option<seq<Route>>)
    ensures routes.Some? <==> forall p :: p in upstreams ==> parses(upstreams[p])
    ensures routes.Some? ==> Configured(routes.value, upstreams)
  {
    var listed: seq<Route> := [];
    var left := upstreams.Keys;
    while left != {}
      invariant left <= upstreams.Keys
      invariant forall n :: 0 <= n < |listed| ==> listed[n].prefix in upstreams && listed[n].prefix !in left
                                                  && upstreams[listed[n].prefix] == listed[n].upstream
      invariant forall p :: p in upstreams && p !in left ==> parses(upstreams[p]) && Route(p, upstreams[p]) in listed
      invariant forall n, m :: 0 <= n < m < |listed| ==> listed[n].prefix != listed[m].prefix
      decreases |left|
    {
      var p :| p in left;
      if !parses(upstreams[p]) {
        return None;
      }
      listed := listed + [Route(p, upstreams[p])];
      left := left - {p};
    }
    return Some(listed);
  }

  /** Sorting loses and repeats no route. */
  lemma SameRoutes(a: seq<Route>, b: seq<Route>, upstreams: map<string, string>)
    requires Configured(a, upstreams) && Permuted(a, b)
    ensures Configured(b, upstreams)
  {
    forall r ensures r in a <==> r in b { assert r in multiset(a) <==> r in multiset(b); }
    forall n | 0 <= n < |b| ensures b[n].prefix in upstreams && upstreams[b[n].prefix] == b[n].upstream { assert b[n] in a; }
    forall n, m | 0 <= n < m < |b| ensures b[n].prefix != b[m].prefix {
      if b[n].prefix == b[m].prefix {
        assert b[n] in a && b[m] in a;
        assert b[n] == b[m];
        CountsTwice(b, n, m);
        OnlyOnce(a, b[n]);
      }
    }
  }

  lemma CountsTwice(b: seq<Route>, n: nat, m: nat)
    requires n < m < |b| && b[n] == b[m]
    ensures multiset(b)[b[n]] >= 2
  {
    assert b == b[..m] + [b[m]] + b[m + 1..];
    assert b[n] in b[..m];
  }

  lemma {:induction false} OnlyOnce(a: seq<Route>, r: Route)
    requires forall n, m :: 0 <= n < m < |a| ==> a[n].prefix != a[m].prefix
    ensures multiset(a)[r] <= 1
    decreases |a|
  {
    if a != [] {
      var n := |a| - 1;
      OnlyOnce(a[..n], r);
      assert a == a[..n] + [a[n]];
      if a[n] == r { assert r !in a[..n]; }
    }
  }
}
