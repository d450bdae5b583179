/**
  The selling permission of shops as another service knows it, and the fence
  that checkout passes before it may create an order.
*/
module VendorSales {
  import opened Options
  import opened VersionedTable
  import Texts

  datatype Status = Status(vendorId: string, status: string, version: int, acceptingOrders: Option<bool>)

  /** What a version of a shop says: its moderation status and whether it takes orders. */
  datatype Sale = Sale(status: string, accepting: bool)

  predicate Hex(c: char) { '0' <= c <= '9' || 'a' <= c <= 'f' }

  predicate IsUuid(id: string) {
    |id| == 36 && forall n :: 0 <= n < 36 ==> if n in {8, 13, 18, 23} then id[n] == '-' else Hex(id[n])
  }

  predicate Valid(s: Status) { IsUuid(s.vendorId) && s.version > 0 && s.status in {"pending", "approved", "rejected", "suspended"} }

  /** Lower-case hexadecimal digits. */
  predicate AllHex(s: string) { forall n :: 0 <= n < |s| ==> s[n] in "0123456789abcdef" }

  predicate Groups(id: string, a: string, b: string, c: string, d: string, e: string) {
    && |a| == 8 && |b| == |c| == |d| == 4 && |e| == 12
    && AllHex(a) && AllHex(b) && AllHex(c) && AllHex(d) && AllHex(e)
    && id == a + "-" + b + "-" + c + "-" + d + "-" + e
  }

  lemma CutsAre(id: string)
    requires |id| == 36
    ensures IsUuid(id) <==>
              && AllHex(id[0..8]) && AllHex(id[9..13]) && AllHex(id[14..18]) && AllHex(id[19..23]) && AllHex(id[24..36])
              && id[8] == id[13] == id[18] == id[23] == '-'
  {
    hide AllHex, Hex;
    HexIsAllHex(id, 0, 8);
    HexIsAllHex(id, 9, 13);
    HexIsAllHex(id, 14, 18);
    HexIsAllHex(id, 19, 23);
    HexIsAllHex(id, 24, 36);
  }

  lemma GroupsAreCuts(id: string, a: string, b: string, c: string, d: string, e: string)
    requires Groups(id, a, b, c, d, e)
    ensures |id| == 36 && id[8] == id[13] == id[18] == id[23] == '-'
    ensures id[0..8] == a && id[9..13] == b && id[14..18] == c && id[19..23] == d && id[24..36] == e
  {
    hide AllHex;
  }

  /** An id is valid exactly when it has the five groups of a UUID. */
  lemma IsUuidIff(id: string)
    ensures IsUuid(id) <==> exists a, b, c, d, e :: Groups(id, a, b, c, d, e)
  {
    hide AllHex;
    if IsUuid(id) {
      CutsAre(id);
      assert id == id[0..8] + "-" + id[9..13] + "-" + id[14..18] + "-" + id[19..23] + "-" + id[24..36];
      assert Groups(id, id[0..8], id[9..13], id[14..18], id[19..23], id[24..36]);
    }
    if a, b, c, d, e :| Groups(id, a, b, c, d, e) {
      GroupsAreCuts(id, a, b, c, d, e);
      CutsAre(id);
    }
  }

  lemma HexIsAllHex(id: string, from: nat, to: nat)
    requires from <= to <= |id|
    ensures AllHex(id[from..to]) <==> forall n :: from <= n < to ==> Hex(id[n])
  {
    forall n | from <= n < to ensures id[from..to][n - from] in "0123456789abcdef" <==> Hex(id[n]) { HexDigit(id[n]); }
    if AllHex(id[from..to]) {
      forall n | from <= n < to ensures Hex(id[n]) { assert id[from..to][n - from] in "0123456789abcdef"; }
    }
  }

  lemma HexDigit(c: char)
    ensures Hex(c) <==> c in "0123456789abcdef"
  {
    var digits := "0123456789abcdef";
    if '0' <= c <= '9' { assert digits[c as int - '0' as int] == c; }
    if 'a' <= c <= 'f' { assert digits[10 + c as int - 'a' as int] == c; }
  }

  /** A producer that knows no vacations never paused a shop. */
  predicate Accepting(s: Status) { s.acceptingOrders.None? || s.acceptingOrders.value }

  function UpdateOf(s: Status): Update<Sale> { Update(s.vendorId, s.version, Sale(s.status, Accepting(s))) }

  function UpdatesOf(ss: seq<Status>): (us: seq<Update<Sale>>)
    ensures |us| == |ss| && forall n :: 0 <= n < |ss| ==> us[n] == UpdateOf(ss[n])
  {
    if ss == [] then [] else UpdatesOf(ss[..|ss| - 1]) + [UpdateOf(ss[|ss| - 1])]
  }

  /** A newer status, or the held one again, is stored as it was reported, taking orders unless it says otherwise; any other changes nothing. */
  lemma StatusMeans(t: Table<Sale>, s: Status, now: int)
    ensures var row := Row(s.version, Sale(s.status, s.acceptingOrders != Some(false)), now);
            var newer := s.vendorId !in t || t[s.vendorId].version < s.version;
            var again := s.vendorId in t && t[s.vendorId].version == s.version && t[s.vendorId].payload == row.payload;
            Upsert(t, UpdateOf(s), now) == if newer || again then t[s.vendorId := row] else t
  {}

  // ---- the fence -----------------------------------------------------------------

  datatype Refusal = Synchronizing | NotAcceptingOrders | Changed

  /** Why checkout may not sell one shop at the version it planned with. */
  function Refused(t: Table<Sale>, id: string, version: int): Option<Refusal> {
    if id !in t then Some(Synchronizing)
    else if t[id].payload.status == "approved" && !t[id].payload.accepting then Some(NotAcceptingOrders)
    else if t[id].payload.status != "approved" || t[id].version != version then Some(Changed)
    else None
  }

  /** The first refusal, shop by shop in the order of their ids. */
  function LockEach(t: Table<Sale>, ids: seq<string>, versions: map<string, int>): Option<Refusal>
    requires forall n :: 0 <= n < |ids| ==> ids[n] in versions
    decreases |ids|
  {
    if ids == [] then None
    else
      var before := LockEach(t, ids[..|ids| - 1], versions);
      if before.Some? then before else Refused(t, ids[|ids| - 1], versions[ids[|ids| - 1]])
  }

  /** Approved, taking orders, and still at the planned version. */
  predicate Sellable(t: Table<Sale>, id: string, version: int) {
    id in t && t[id].version == version && t[id].payload == Sale("approved", true)
  }

  lemma {:induction false} LockEachIff(t: Table<Sale>, ids: seq<string>, versions: map<string, int>)
    requires forall n :: 0 <= n < |ids| ==> ids[n] in versions
    ensures LockEach(t, ids, versions).None? <==> forall n :: 0 <= n < |ids| ==> Sellable(t, ids[n], versions[ids[n]])
    decreases |ids|
  {
    if ids != [] {
      var n := |ids| - 1;
      LockEachIff(t, ids[..n], versions);
      assert Sellable(t, ids[n], versions[ids[n]]) <==> Refused(t, ids[n], versions[ids[n]]).None?;
      if forall m :: 0 <= m < n ==> Sellable(t, ids[..n][m], versions[ids[..n][m]]) {
        forall m | 0 <= m < n ensures Sellable(t, ids[m], versions[ids[m]]) { assert ids[..n][m] == ids[m]; }
      }
    }
  }

  /** How statuses reach the table: one by one, or a page in one statement. */
  datatype Arrival = Single(u: Update<Sale>, now: int) | Page(us: seq<Update<Sale>>, now: int)

  function Arrive(t: Table<Sale>, a: Arrival): Table<Sale> {
    match a
    case Single(u, now) => Upsert(t, u, now)
    case Page(us, now) => Batch(t, us, now)
  }

  function Brought(a: Arrival): seq<Update<Sale>> {
    match a case Single(u, _) => [u] case Page(us, _) => us
  }

  function ArriveAll(t: Table<Sale>, arrivals: seq<Arrival>): Table<Sale>
    decreases |arrivals|
  {
    if arrivals == [] then t else Arrive(ArriveAll(t, arrivals[..|arrivals| - 1]), arrivals[|arrivals| - 1])
  }

  /** What arrived is held afterwards, or something newer. */
  lemma ArrivedIsHeld(t: Table<Sale>, a: Arrival, u: Update<Sale>)
    requires u in Brought(a)
    ensures u.id in Arrive(t, a) && u.version <= Arrive(t, a)[u.id].version
  {
    hide Batch;
    if a.Page? { BatchHolds(t, a.us, a.now, u); }
  }

  /** Versions only rise, one status or page at a time. */
  lemma {:induction false} OvertakenForGood(t: Table<Sale>, arrivals: seq<Arrival>, id: string)
    requires id in t
    ensures id in ArriveAll(t, arrivals) && t[id].version <= ArriveAll(t, arrivals)[id].version
    decreases |arrivals|
  {
    hide Batch;
    if arrivals != [] {
      var n := |arrivals| - 1;
      OvertakenForGood(t, arrivals[..n], id);
      if arrivals[n].Page? { BatchKeepsIds(ArriveAll(t, arrivals[..n]), arrivals[n].us, arrivals[n].now, id); }
    }
  }

  /**
    Once a higher version of a shop arrived, alone or in a page, a checkout
    planned with an older one fails at every later moment, whatever else
    arrives, in whatever order and pages.
  */
  lemma OlderPlansFail(t: Table<Sale>, a: Arrival, newer: Update<Sale>, later: seq<Arrival>, ids: seq<string>, versions: map<string, int>)
    requires forall n :: 0 <= n < |ids| ==> ids[n] in versions
    requires newer in Brought(a) && newer.id in ids && versions[newer.id] < newer.version
    ensures LockEach(ArriveAll(Arrive(t, a), later), ids, versions).Some?
  {
    hide Arrive, ArriveAll;
    ArrivedIsHeld(t, a, newer);
    OvertakenForGood(Arrive(t, a), later, newer.id);
    var after := ArriveAll(Arrive(t, a), later);
    LockEachIff(after, ids, versions);
    var n :| 0 <= n < |ids| && ids[n] == newer.id;
    assert !Sellable(after, ids[n], versions[ids[n]]);
  }

  // ---- where a page differs from its statuses ------------------------------------------

  const SHOP := "00000000-0000-4000-8000-000000000001"

  /** Version 5 first with another payload, then as it is held. */
  const CONTESTED: seq<Status> := [Status(SHOP, "approved", 5, Some(false)), Status(SHOP, "approved", 5, Some(true))]

  /**
    A page may leave another confirmation time than its statuses one by one: a
    valid page that contests the held version before repeating it does.
  */
  lemma ContestedPageDiffers(earlier: int, now: int)
    requires now != earlier
    ensures var t := Upsert(map[], UpdateOf(CONTESTED[1]), earlier);
            && Valid(CONTESTED[0]) && Valid(CONTESTED[1])
            && Batch(t, UpdatesOf(CONTESTED), now) != ApplyEach(t, UpdatesOf(CONTESTED), now)
  {
    var t := Upsert(map[], UpdateOf(CONTESTED[1]), earlier);
    var us := UpdatesOf(CONTESTED);
    assert us == [UpdateOf(CONTESTED[0]), UpdateOf(CONTESTED[1])];
    assert us[..1] == [us[0]] && us[..1][..0] == [] && us[..2] == us;
    assert Best(us[..1], SHOP) == Some(us[0]);
    assert Best(us, SHOP) == Some(us[0]);
    assert us[1].id == SHOP && us[1].version == t[SHOP].version && us[1].payload == t[SHOP].payload;
    assert Contested(t, us, now, SHOP);
    BatchEqualsEachIff(t, us, now);
    ShopIsUuid();
  }

  lemma ShopIsUuid()
    ensures IsUuid(SHOP)
  {}

  // ---- the table in place --------------------------------------------------------------

  /** Go visits a map's keys in any order; sorting makes the order one. */
  method SortedKeys<V>(m: map<string, V>) returns (ids: seq<string>)
    ensures Texts.Ascending(ids) && forall x :: x in ids <==> x in m
  {
    ids := [];
    var left := m.Keys;
    while left != {}
      invariant left <= m.Keys
      invariant forall x :: x in ids <==> x in m && x !in left
      decreases |left|
    {
      var id :| id in left;
      ids := ids + [id];
      left := left - {id};
    }
    Texts.SortedSetAscends(ids);
    ids := Texts.SortedSet(ids);
  }

  class Store {
    var table: Table<Sale>

    constructor ()
      ensures table == map[]
    {
      table := map[];
    }

    method Apply(s: Status, now: int) returns (ok: bool)
      modifies this
      ensures ok <==> IsUuid(s.vendorId) && s.version >= 1 && s.status in {"pending", "approved", "rejected", "suspended"}
      ensures table == if Valid(s) then Upsert(old(table), UpdateOf(s), now) else old(table)
      ensures Valid(s) && (s.vendorId !in old(table) || old(table)[s.vendorId].version < s.version) ==>
                table == old(table)[s.vendorId := Row(s.version, Sale(s.status, s.acceptingOrders != Some(false)), now)]
    {
      if !Valid(s) {
        return false;
      }
      Write(UpdateOf(s), now);
      return true;
    }

    method Write(u: Update<Sale>, now: int)
      modifies this
      ensures table == Upsert(old(table), u, now)
    {
      if u.id !in table {
        table := table[u.id := Row(u.version, u.payload, now)];
      } else {
        var held := table[u.id];
        if held.version < u.version || (held.version == u.version && held.payload == u.payload) {
          table := table[u.id := Row(u.version, u.payload, now)];
        }
      }
    }

    /** A page in one statement; one invalid status refuses the page. */
    method ApplyAll(vs: seq<Status>, now: int) returns (ok: bool)
      modifies this
      ensures ok <==> forall n :: 0 <= n < |vs| ==> Valid(vs[n])
      ensures table == if ok then Batch(old(table), UpdatesOf(vs), now) else old(table)
      ensures ok ==> View(table) == View(ApplyEach(old(table), UpdatesOf(vs), now))
    {
      hide Valid, View, ApplyEach, ApplyListed, LatestOf, Texts.SortedSet, Texts.Ascending, Ids, Distinct, Best;
      var latest := Collect(vs);
      if latest.None? {
        return false;
      }
      var ids := SortedKeys(latest.value);
      SortedIdsAreLatest(UpdatesOf(vs));
      Texts.AscendingIsUnique(ids, Texts.SortedSet(Ids(UpdatesOf(vs))));
      var columns := Columns(ids, latest.value);
      table := WriteRows(table, ids, columns, latest.value, now);
      BatchRefinesEach(old(table), UpdatesOf(vs), now);
      return true;
    }

    /** Checkout's last look, inside the transaction that creates the order. */
    method LockApproved(versions: map<string, int>) returns (refusal: Option<Refusal>)
      ensures refusal.None? <==> forall id :: id in versions ==> Sellable(table, id, versions[id])
      ensures exists ids :: Texts.Ascending(ids) && (forall x :: x in ids <==> x in versions) && refusal == LockEach(table, ids, versions)
    {
      hide Texts.Ascending, LockEach, Sellable;
      var ids := SortedKeys(versions);
      LockEachIff(table, ids, versions);
      refusal := LockInOrder(ids, versions);
      if refusal.None? {
        forall id | id in versions ensures Sellable(table, id, versions[id]) {
          var n :| 0 <= n < |ids| && ids[n] == id;
        }
      }
    }

    method LockInOrder(ids: seq<string>, versions: map<string, int>) returns (refusal: Option<Refusal>)
      requires forall n :: 0 <= n < |ids| ==> ids[n] in versions
      ensures refusal == LockEach(table, ids, versions)
    {
      hide Refused;
      for n := 0 to |ids|
        invariant LockEach(table, ids[..n], versions).None?
      {
        assert ids[..n + 1][..n] == ids[..n];
        refusal := LockOne(ids[n], versions[ids[n]]);
        if refusal.Some? {
          FirstRefusalStays(table, ids, n + 1, versions);
          return;
        }
      }
      assert ids[..|ids|] == ids;
      return None;
    }

    method LockOne(id: string, version: int) returns (refusal: Option<Refusal>)
      ensures refusal == Refused(table, id, version)
    {
      if id !in table {
        return Some(Synchronizing);
      }
      var row := table[id];
      if row.payload.status == "approved" && !row.payload.accepting {
        return Some(NotAcceptingOrders);
      }
      if row.payload.status != "approved" || row.version != version {
        return Some(Changed);
      }
      return None;
    }
  }

  lemma {:induction false} FirstRefusalStays(t: Table<Sale>, ids: seq<string>, n: nat, versions: map<string, int>)
    requires n <= |ids| && (forall m :: 0 <= m < |ids| ==> ids[m] in versions) && LockEach(t, ids[..n], versions).Some?
    ensures LockEach(t, ids, versions) == LockEach(t, ids[..n], versions)
    decreases |ids|
  {
    if n == |ids| {
      assert ids[..n] == ids;
    } else {
      assert ids[..|ids| - 1][..n] == ids[..n];
      FirstRefusalStays(t, ids[..|ids| - 1], n, versions);
    }
  }

  /** The page's updates by shop, a lower version never replacing a higher one; none when a status is invalid. */
  method Collect(vs: seq<Status>) returns (latest: Option<map<string, Update<Sale>>>)
    ensures latest.Some? <==> forall n :: 0 <= n < |vs| ==> Valid(vs[n])
    ensures latest.Some? ==> latest.value == LatestOf(UpdatesOf(vs))
  {
    hide Valid, UpdateOf, UpdatesOf;
    ghost var us := UpdatesOf(vs);
    var held: map<string, Update<Sale>> := map[];
    for n := 0 to |vs|
      invariant held == LatestOf(us[..n])
      invariant forall m :: 0 <= m < n ==> Valid(vs[m])
    {
      assert us[..n + 1][..n] == us[..n] && us[..n + 1][n] == us[n];
      if !Valid(vs[n]) {
        return None;
      }
      var v := UpdateOf(vs[n]);
      if v.id !in held || v.version > held[v.id].version {
        held := held[v.id := v];
      }
    }
    assert us[..|us|] == us;
    return Some(held);
  }

  /** The statement: one upsert a row, in the order of the ids. */
  method WriteRows(t: Table<Sale>, ids: seq<string>, columns: (seq<string>, seq<int>, seq<bool>), ghost latest: map<string, Update<Sale>>, now: int)
    returns (out: Table<Sale>)
    requires |columns.0| == |columns.1| == |columns.2| == |ids|
    requires forall n :: 0 <= n < |ids| ==> ids[n] in latest && Update(ids[n], columns.1[n], Sale(columns.0[n], columns.2[n])) == latest[ids[n]]
    ensures out == ApplyListed(t, ids, latest, now)
  {
    hide Upsert;
    out := t;
    for n := 0 to |ids|
      invariant out == ApplyListed(t, ids[..n], latest, now)
    {
      assert ids[..n + 1][..n] == ids[..n];
      out := Upsert(out, Update(ids[n], columns.1[n], Sale(columns.0[n], columns.2[n])), now);
    }
    assert ids[..|ids|] == ids;
  }

  /** The parallel columns handed to the statement. */
  method Columns(ids: seq<string>, latest: map<string, Update<Sale>>) returns (columns: (seq<string>, seq<int>, seq<bool>))
    requires forall n :: 0 <= n < |ids| ==> ids[n] in latest && latest[ids[n]].id == ids[n]
    ensures |columns.0| == |columns.1| == |columns.2| == |ids|
    ensures forall n :: 0 <= n < |ids| ==> Update(ids[n], columns.1[n], Sale(columns.0[n], columns.2[n])) == latest[ids[n]]
  {
    var statuses: seq<string>, versions: seq<int>, accepting: seq<bool> := [], [], [];
    for n := 0 to |ids|
      invariant |statuses| == |versions| == |accepting| == n
      invariant forall m :: 0 <= m < n ==> Update(ids[m], versions[m], Sale(statuses[m], accepting[m])) == latest[ids[m]]
    {
      var v := latest[ids[n]];
      statuses := statuses + [v.payload.status];
      versions := versions + [v.version];
      accepting := accepting + [v.payload.accepting];
    }
    return (statuses, versions, accepting);
  }

  // ---- no deadlock ---------------------------------------------------------------------

  /** A transaction on its way through its shops' rows: a page being written, or checkout's fence. */
  datatype Visitor = PageWriter(vs: seq<Status>, at: nat) | Fence(versions: map<string, int>, ids: seq<string>, at: nat)

  /** The rows in the order they are visited: the batch's sorted ids, or the fence's sorted keys. */
  function Visits(v: Visitor): seq<string> {
    match v
    case PageWriter(vs, _) => Texts.SortedSet(Ids(UpdatesOf(vs)))
    case Fence(_, ids, _) => ids
  }

  /** The transaction has locked the rows before its place and waits for the one there. */
  ghost predicate Waiting(v: Visitor) {
    && v.at < |Visits(v)|
    && (v.Fence? ==> Texts.Ascending(v.ids) && forall x :: x in v.ids <==> x in v.versions)
  }

  ghost predicate WaitsFor(v: Visitor, other: Visitor) {
    Waiting(v) && Waiting(other) && Visits(v)[v.at] in Visits(other)[..other.at]
  }

  /** Pages and checkouts that lock the same shops never wait for each other in a ring. */
  lemma PagesAndCheckoutsDoNotDeadlock(ring: seq<Visitor>)
    requires ring != [] && forall n :: 0 <= n < |ring| ==> Waiting(ring[n])
    ensures exists n :: 0 <= n < |ring| && !WaitsFor(ring[n], ring[Texts.After(n, |ring|)])
  {
    hide Visits;
    var lockers := seq(|ring|, n requires 0 <= n < |ring| => Texts.Locker(Visits(ring[n]), ring[n].at));
    forall n | 0 <= n < |ring| ensures Texts.Waits(lockers[n]) { VisitsAscend(ring[n]); }
    Texts.NoRingOfLockers(lockers);
    var n :| 0 <= n < |lockers| && !Texts.WaitsFor(lockers[n], lockers[Texts.After(n, |lockers|)]);
    assert !WaitsFor(ring[n], ring[Texts.After(n, |ring|)]);
  }

  lemma VisitsAscend(v: Visitor)
    requires Waiting(v)
    ensures Texts.Ascending(Visits(v))
  {
    if v.PageWriter? { Texts.SortedSetAscends(Ids(UpdatesOf(v.vs))); }
  }
}
