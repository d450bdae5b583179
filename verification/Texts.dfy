/** Strings in byte order, as sort.Strings and slices.Sort leave them. */
module Texts {

  predicate Less(a: string, b: string)
    decreases |a|
  {
    b != [] && (a == [] || a[0] < b[0] || (a[0] == b[0] && Less(a[1..], b[1..])))
  }

  lemma {:induction false} LessIsTotal(a: string, b: string)
    ensures a == b || Less(a, b) || Less(b, a)
    decreases |a|
  {
    if a != [] && b != [] && a[0] == b[0] {
      LessIsTotal(a[1..], b[1..]);
      assert a == [a[0]] + a[1..] && b == [b[0]] + b[1..];
    }
  }

  lemma {:induction false} LessIsAsymmetric(a: string, b: string)
    requires Less(a, b)
    ensures !Less(b, a) && a != b
    decreases |a|
  {
    if a != [] && a[0] == b[0] { LessIsAsymmetric(a[1..], b[1..]); }
  }

  lemma {:induction false} LessIsTransitive(a: string, b: string, c: string)
    requires Less(a, b) && Less(b, c)
    ensures Less(a, c)
    decreases |a|
  {
    if a != [] && a[0] == b[0] == c[0] { LessIsTransitive(a[1..], b[1..], c[1..]); }
  }

  /** Sorted without repeats. */
  ghost predicate Ascending(s: seq<string>) {
    forall i, j :: 0 <= i < j < |s| ==> Less(s[i], s[j])
  }

  /** Sort followed by Compact: each string once, in order. */
  function Insert(x: string, s: seq<string>): seq<string>
    decreases |s|
  {
    if s == [] || Less(x, s[0]) then [x] + s
    else if x == s[0] then s
    else [s[0]] + Insert(x, s[1..])
  }

  function SortedSet(s: seq<string>): seq<string>
    decreases |s|
  {
    if s == [] then [] else Insert(s[0], SortedSet(s[1..]))
  }

  lemma {:induction false} InsertAscends(x: string, s: seq<string>)
    requires Ascending(s)
    ensures Ascending(Insert(x, s))
    ensures forall y :: y in Insert(x, s) <==> y == x || y in s
    decreases |s|
  {
    if s == [] {
    } else if Less(x, s[0]) {
      forall j | 0 <= j < |s| ensures Less(x, s[j]) {
        if j > 0 { LessIsTransitive(x, s[0], s[j]); }
      }
    } else if x != s[0] {
      LessIsTotal(x, s[0]);
      InsertAscends(x, s[1..]);
      var rest := Insert(x, s[1..]);
      forall j | 0 <= j < |rest| ensures Less(s[0], rest[j]) {
        assert rest[j] in rest;
      }
      assert s == [s[0]] + s[1..];
    }
  }

  lemma {:induction false} SortedSetAscends(s: seq<string>)
    ensures Ascending(SortedSet(s))
    ensures forall y :: y in SortedSet(s) <==> y in s
    decreases |s|
  {
    if s != [] {
      SortedSetAscends(s[1..]);
      InsertAscends(s[0], SortedSet(s[1..]));
      assert s == [s[0]] + s[1..];
    }
  }

  /**
    Two sorted lists visit the strings they share in the same order, so
    writers that lock rows in sorted order never wait for each other in a
    circle.
  */
  lemma SameLockOrder(a: seq<string>, b: seq<string>, i: nat, j: nat, k: nat, l: nat)
    requires Ascending(a) && Ascending(b)
    requires i < |a| && j < |a| && k < |b| && l < |b| && a[i] == b[k] && a[j] == b[l]
    ensures i < j <==> k < l
  {
    if i < j && l <= k {
      if l < k { LessIsAsymmetric(a[i], a[j]); } else { LessIsAsymmetric(a[i], a[j]); }
    }
    if k < l && j <= i {
      if j < i { LessIsAsymmetric(b[k], b[l]); } else { LessIsAsymmetric(b[k], b[l]); }
    }
  }

  /** A set of strings has one ascending order. */
  lemma {:induction false} AscendingIsUnique(a: seq<string>, b: seq<string>)
    requires Ascending(a) && Ascending(b) && forall x :: x in a <==> x in b
    ensures a == b
    decreases |a|
  {
    assert a != [] ==> a[0] in b;
    assert b != [] ==> b[0] in a;
    if a != [] && b != [] {
      var i :| 0 <= i < |b| && b[i] == a[0];
      var j :| 0 <= j < |a| && a[j] == b[0];
      if i > 0 && j > 0 { LessIsAsymmetric(a[0], a[j]); }
      assert a[0] == b[0];
      forall x ensures x in a[1..] <==> x in b[1..] {
        if x in a[1..] { RestAfterFirst(a, b, x); }
        if x in b[1..] { RestAfterFirst(b, a, x); }
      }
      AscendingIsUnique(a[1..], b[1..]);
      assert a == [a[0]] + a[1..] && b == [b[0]] + b[1..];
    }
  }

  lemma RestAfterFirst(a: seq<string>, b: seq<string>, x: string)
    requires Ascending(a) && a != [] && b != [] && a[0] == b[0] && x in a[1..] && x in b
    ensures x in b[1..]
  {
    var j :| 1 <= j < |a| && a[j] == x;
    LessIsAsymmetric(a[0], a[j]);
    var i :| 0 <= i < |b| && b[i] == x;
    assert b[1..][i - 1] == x;
  }

  /** One writer in a ring: it holds some of its rows, taken in ascending order, and waits for a later one. */
  datatype Waiter = Waiter(held: set<string>, wanted: string)

  /** The next writer in the ring. */
  function After(n: nat, size: nat): nat { if n + 1 < size then n + 1 else 0 }

  ghost predicate TakesInOrder(w: Waiter) { forall x :: x in w.held ==> Less(x, w.wanted) }

  /**
    Writers that lock rows in ascending order never wait for each other in a
    ring, however many there are.
  */
  lemma NoRingOfWaiters(ring: seq<Waiter>)
    requires ring != [] && forall n :: 0 <= n < |ring| ==> TakesInOrder(ring[n])
    ensures exists n :: 0 <= n < |ring| && ring[n].wanted !in ring[After(n, |ring|)].held
  {
    var last := |ring| - 1;
    if forall n :: 0 <= n < last ==> ring[n].wanted in ring[n + 1].held {
      RingAscends(ring, last);
      assert TakesInOrder(ring[0]);
      if ring[last].wanted in ring[0].held { LessIsAsymmetric(ring[last].wanted, ring[0].wanted); }
      assert ring[last].wanted !in ring[After(last, |ring|)].held;
    } else {
      var n :| 0 <= n < last && ring[n].wanted !in ring[n + 1].held;
      assert ring[n].wanted !in ring[After(n, |ring|)].held;
    }
  }

  lemma {:induction false} RingAscends(ring: seq<Waiter>, n: nat)
    requires n < |ring| && forall m :: 0 <= m < |ring| ==> TakesInOrder(ring[m])
    requires forall m :: 0 <= m < n ==> ring[m].wanted in ring[m + 1].held
    ensures n > 0 ==> Less(ring[0].wanted, ring[n].wanted)
  {
    if n > 0 {
      RingAscends(ring, n - 1);
      assert TakesInOrder(ring[n]) && ring[n - 1].wanted in ring[n - 1 + 1].held;
      if n > 1 { LessIsTransitive(ring[0].wanted, ring[n - 1].wanted, ring[n].wanted); }
    }
  }

  /** A writer on its way through its rows: it has locked those before `at` and waits for that one. */
  datatype Locker = Locker(order: seq<string>, at: nat)

  ghost predicate Waits(l: Locker) { Ascending(l.order) && l.at < |l.order| }

  ghost function WaiterOf(l: Locker): Waiter
    requires Waits(l)
  {
    Waiter((set x | x in l.order[..l.at]), l.order[l.at])
  }

  lemma VisitsInOrder(l: Locker)
    requires Waits(l)
    ensures TakesInOrder(WaiterOf(l))
  {
    forall x | x in l.order[..l.at] ensures Less(x, l.order[l.at]) {
      var n :| 0 <= n < l.at && l.order[n] == x;
    }
  }

  ghost function WaitersOf(ring: seq<Locker>): (waiters: seq<Waiter>)
    requires forall n :: 0 <= n < |ring| ==> Waits(ring[n])
    ensures |waiters| == |ring| && forall n :: 0 <= n < |ring| ==> waiters[n] == WaiterOf(ring[n])
  {
    seq(|ring|, n requires 0 <= n < |ring| => WaiterOf(ring[n]))
  }

  /** The row the one waits for is one the other has locked. */
  ghost predicate WaitsFor(l: Locker, other: Locker) { Waits(l) && Waits(other) && l.order[l.at] in other.order[..other.at] }

  /** Writers that visit their rows in sorted order never wait for each other in a ring. */
  lemma NoRingOfLockers(ring: seq<Locker>)
    requires ring != [] && forall n :: 0 <= n < |ring| ==> Waits(ring[n])
    ensures exists n :: 0 <= n < |ring| && !WaitsFor(ring[n], ring[After(n, |ring|)])
  {
    var waiters := WaitersOf(ring);
    forall n | 0 <= n < |ring| ensures TakesInOrder(waiters[n]) { VisitsInOrder(ring[n]); }
    NoRingOfWaiters(waiters);
    var n :| 0 <= n < |ring| && waiters[n].wanted !in waiters[After(n, |ring|)].held;
    var next := ring[After(n, |ring|)];
    assert waiters[After(n, |ring|)] == WaiterOf(next);
    assert !WaitsFor(ring[n], next);
  }
}
