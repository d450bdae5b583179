/**
  The preview hash: the planned rows, sorted by row number, one line each.
  It pins what the vendor saw and must not depend on the order in which the
  rows were produced, nor on how the sort breaks ties.
*/
module PreviewHash {
  import opened Options
  import opened ImportModel

  /** The version a line shows: of a valid row, with no version and version 0 written alike. */
  function ShownVersion(p: PlannedRow): int {
    if p.status.RowValid? && p.plan.expectedVersion.Some? then p.plan.expectedVersion.value else 0
  }

  function LineOf(h: Hashes, p: PlannedRow): HashLine {
    HashLine(p.rowNo, p.status, p.plan.targetKey,
             if p.status.RowInvalid? then "" else h.payload(p.plan.payload),
             ShownVersion(p))
  }

  function HashLines(h: Hashes, planned: seq<PlannedRow>): seq<HashLine> {
    seq(|planned|, i requires 0 <= i < |planned| => LineOf(h, planned[i]))
  }

  function Insert(p: PlannedRow, sorted: seq<PlannedRow>): seq<PlannedRow>
    decreases |sorted|
  {
    if sorted == [] || p.rowNo <= sorted[0].rowNo then [p] + sorted else [sorted[0]] + Insert(p, sorted[1..])
  }

  function Sorted(planned: seq<PlannedRow>): seq<PlannedRow>
    decreases |planned|
  {
    if planned == [] then [] else Insert(planned[0], Sorted(planned[1..]))
  }

  function Of(h: Hashes, planned: seq<PlannedRow>): string { h.preview(HashLines(h, Sorted(planned))) }

  ghost predicate Ascending(s: seq<PlannedRow>) {
    forall i, j :: 0 <= i < j < |s| ==> s[i].rowNo <= s[j].rowNo
  }

  ghost predicate DistinctRows(s: seq<PlannedRow>) {
    forall i, j :: 0 <= i < j < |s| ==> s[i].rowNo != s[j].rowNo
  }

  lemma {:induction false} InsertKeepsRows(p: PlannedRow, s: seq<PlannedRow>)
    ensures multiset(Insert(p, s)) == multiset(s) + multiset{p}
    decreases |s|
  {
    if s != [] && p.rowNo > s[0].rowNo {
      InsertKeepsRows(p, s[1..]);
      assert s == [s[0]] + s[1..];
    }
  }

  lemma {:induction false} InsertKeepsOrder(p: PlannedRow, s: seq<PlannedRow>)
    requires Ascending(s)
    ensures Ascending(Insert(p, s))
    ensures forall i :: 0 <= i < |Insert(p, s)| ==> Insert(p, s)[i] == p || Insert(p, s)[i] in s
    decreases |s|
  {
    if s != [] && p.rowNo > s[0].rowNo {
      InsertKeepsOrder(p, s[1..]);
    }
  }

  lemma {:induction false} SortedIsSorted(s: seq<PlannedRow>)
    ensures Ascending(Sorted(s)) && multiset(Sorted(s)) == multiset(s)
    decreases |s|
  {
    if s != [] {
      SortedIsSorted(s[1..]);
      InsertKeepsRows(s[0], Sorted(s[1..]));
      InsertKeepsOrder(s[0], Sorted(s[1..]));
      assert s == [s[0]] + s[1..];
    }
  }

  lemma HeadOfSorted(a: seq<PlannedRow>, b: seq<PlannedRow>)
    requires a != [] && Ascending(a) && Ascending(b) && DistinctRows(a) && multiset(a) == multiset(b)
    ensures b != [] && a[0] == b[0]
  {
    assert a[0] in multiset(a) && a[0] in multiset(b);
    assert b[0] in multiset(b) && b[0] in multiset(a);
    var i :| 0 <= i < |b| && b[i] == a[0];
    var j :| 0 <= j < |a| && a[j] == b[0];
  }

  lemma TailMultiset(a: seq<PlannedRow>)
    requires a != []
    ensures multiset(a[1..]) == multiset(a) - multiset{a[0]}
  {
    assert a == [a[0]] + a[1..];
  }

  /** Row numbers being distinct, there is only one way to sort the rows. */
  lemma {:induction false} SortIsUnique(a: seq<PlannedRow>, b: seq<PlannedRow>)
    requires Ascending(a) && Ascending(b) && DistinctRows(a) && multiset(a) == multiset(b)
    ensures a == b
    decreases |a|
  {
    if a == [] {
      assert |multiset(b)| == 0;
    } else {
      HeadOfSorted(a, b);
      TailMultiset(a);
      TailMultiset(b);
      SortIsUnique(a[1..], b[1..]);
      assert a == [a[0]] + a[1..] && b == [b[0]] + b[1..];
    }
  }

  lemma OccursTwice(s: seq<PlannedRow>, i: nat, j: nat)
    requires i < j < |s| && s[i] == s[j]
    ensures multiset(s)[s[i]] >= 2
  {
    assert s == s[..j] + s[j..];
    assert s[i] in s[..j] && s[j] in s[j..];
  }

  lemma {:induction false} OccursOnce(s: seq<PlannedRow>, x: PlannedRow)
    requires DistinctRows(s)
    ensures multiset(s)[x] <= 1
    decreases |s|
  {
    if s != [] {
      OccursOnce(s[1..], x);
      TailMultiset(s);
      if x in s[1..] { assert x != s[0]; }
    }
  }

  lemma DistinctIsOrderFree(a: seq<PlannedRow>, b: seq<PlannedRow>)
    requires DistinctRows(a) && multiset(a) == multiset(b)
    ensures DistinctRows(b)
  {
    forall i, j | 0 <= i < j < |b| ensures b[i].rowNo != b[j].rowNo {
      assert b[i] in multiset(a) && b[j] in multiset(a);
      if b[i] == b[j] {
        OccursTwice(b, i, j);
        OccursOnce(a, b[i]);
      }
    }
  }

  /** Whatever stable or unstable sort is used, the lines that are hashed are the same. */
  lemma AnySortAgrees(planned: seq<PlannedRow>, sorted: seq<PlannedRow>)
    requires DistinctRows(planned) && Ascending(sorted) && multiset(sorted) == multiset(planned)
    ensures sorted == Sorted(planned)
  {
    SortedIsSorted(planned);
    DistinctIsOrderFree(planned, sorted);
    SortIsUnique(sorted, Sorted(planned));
  }

  /** The hash does not depend on the order of the rows. */
  lemma HashIgnoresOrder(h: Hashes, a: seq<PlannedRow>, b: seq<PlannedRow>)
    requires DistinctRows(a) && multiset(a) == multiset(b)
    ensures Of(h, a) == Of(h, b)
  {
    SortedIsSorted(b);
    AnySortAgrees(a, Sorted(b));
  }

  /**
    What the user confirms about a row: its number, status and target, its
    payload hash unless it is invalid, and the version of a valid row, where no
    version and version 0 are alike.
  */
  predicate ShowAlike(h: Hashes, a: PlannedRow, b: PlannedRow) {
    && a.rowNo == b.rowNo && a.status == b.status && a.plan.targetKey == b.plan.targetKey
    && (a.status != RowInvalid ==> h.payload(a.plan.payload) == h.payload(b.plan.payload))
    && (a.status == RowValid ==>
          || a.plan.expectedVersion == b.plan.expectedVersion
          || (a.plan.expectedVersion in {None, Some(0)} && b.plan.expectedVersion in {None, Some(0)}))
  }

  lemma SameLineIff(h: Hashes, a: PlannedRow, b: PlannedRow)
    ensures LineOf(h, a) == LineOf(h, b) <==> ShowAlike(h, a, b)
  {}

  /** Two previews have the same lines exactly when they show the same rows. */
  lemma SameLinesSameRows(h: Hashes, a: seq<PlannedRow>, b: seq<PlannedRow>)
    ensures HashLines(h, a) == HashLines(h, b) <==> |a| == |b| && forall i :: 0 <= i < |a| ==> ShowAlike(h, a[i], b[i])
  {
    hide LineOf, ShowAlike;
    var p, q := HashLines(h, a), HashLines(h, b);
    assert |p| == |a| && |q| == |b|;
    if |a| == |b| {
      forall i | 0 <= i < |a| ensures p[i] == q[i] <==> ShowAlike(h, a[i], b[i]) { SameLineIff(h, a[i], b[i]); }
      if p == q {
        forall i | 0 <= i < |a| ensures ShowAlike(h, a[i], b[i]) { assert p[i] == q[i]; }
      }
    }
  }

  /** With a hash that never collides, two previews with one hash show the same rows, whatever order they are in. */
  lemma HashPinsRows(h: Hashes, a: seq<PlannedRow>, b: seq<PlannedRow>, p: PlannedRow)
    requires (forall x, y :: h.preview(x) == h.preview(y) ==> x == y) && Of(h, a) == Of(h, b) && p in a
    ensures |a| == |b| && exists q :: q in b && ShowAlike(h, p, q)
  {
    hide ShowAlike, Ascending;
    SortedIsSorted(a);
    SortedIsSorted(b);
    SameLinesSameRows(h, Sorted(a), Sorted(b));
    assert |multiset(Sorted(a))| == |a| && |multiset(Sorted(b))| == |b|;
    assert p in multiset(a) && p in multiset(Sorted(a));
    var i :| 0 <= i < |Sorted(a)| && Sorted(a)[i] == p;
    var q := Sorted(b)[i];
    assert q in multiset(Sorted(b)) && q in multiset(b);
  }

  /** The hash as computed: copy, sort, one line per row. */
  method Compute(h: Hashes, planned: seq<PlannedRow>) returns (hash: string)
    ensures hash == Of(h, planned)
  {
    var sorted := Sorted(planned);
    var lines: seq<HashLine> := [];
    for i := 0 to |sorted|
      invariant |lines| == i && forall n :: 0 <= n < i ==> lines[n] == LineOf(h, sorted[n])
    {
      var r := sorted[i];
      var v := 0;
      if r.status.RowValid? && r.plan.expectedVersion.Some? {
        v := r.plan.expectedVersion.value;
      }
      var payloadHash := if r.status.RowInvalid? then "" else h.payload(r.plan.payload);
      lines := lines + [HashLine(r.rowNo, r.status, r.plan.targetKey, payloadHash, v)];
    }
    assert lines == HashLines(h, sorted);
    hash := h.preview(lines);
  }
}
