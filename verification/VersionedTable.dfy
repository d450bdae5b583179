/**
  A table kept up to date by versioned updates from elsewhere: the highest
  version wins, and the version held already is only confirmed.
*/
module VersionedTable {
  import opened Options
  import Texts

  datatype Row<P> = Row(version: int, payload: P, confirmedAt: int)

  datatype Update<P> = Update(id: string, version: int, payload: P)

  type Table<P> = map<string, Row<P>>

  predicate Wins<P(==)>(held: Row<P>, u: Update<P>) {
    held.version < u.version || (held.version == u.version && held.payload == u.payload)
  }

  function Upsert<P(==)>(t: Table<P>, u: Update<P>, now: int): Table<P> {
    if u.id in t && !Wins(t[u.id], u) then t else t[u.id := Row(u.version, u.payload, now)]
  }

  /** The updates one by one, in order. */
  function ApplyEach<P(==)>(t: Table<P>, us: seq<Update<P>>, now: int): Table<P>
    decreases |us|
  {
    if us == [] then t else Upsert(ApplyEach(t, us[..|us| - 1], now), us[|us| - 1], now)
  }

  // ---- what one id ends with -----------------------------------------------------

  /** The first of the updates with the highest version for an id. */
  function Best<P>(us: seq<Update<P>>, id: string): (best: Option<Update<P>>)
    ensures best.Some? ==> best.value in us && best.value.id == id
    decreases |us|
  {
    if us == [] then None
    else
      var last := us[|us| - 1];
      var best := Best(us[..|us| - 1], id);
      if last.id == id && (best.None? || last.version > best.value.version) then Some(last) else best
  }

  lemma {:induction false} BestIsHighest<P>(us: seq<Update<P>>, id: string)
    ensures Best(us, id).None? <==> forall u :: u in us ==> u.id != id
    ensures Best(us, id).Some? ==> forall u :: u in us && u.id == id ==> u.version <= Best(us, id).value.version
    decreases |us|
  {
    if us != [] {
      var n := |us| - 1;
      BestIsHighest(us[..n], id);
      assert us == us[..n] + [us[n]];
    }
  }

  /** Whether some update repeats what is held. */
  predicate Repeats<P(==)>(us: seq<Update<P>>, id: string, held: Row<P>) {
    exists n :: 0 <= n < |us| && us[n].id == id && us[n].version == held.version && us[n].payload == held.payload
  }

  /**
    One by one, an id ends with the first update of its highest version if
    that is newer than what was held, and otherwise with what was held,
    confirmed again if some update repeats it.
  */
  lemma {:induction false} EachEndsWithTheBest<P>(t: Table<P>, us: seq<Update<P>>, now: int, id: string)
    ensures var out := ApplyEach(t, us, now);
            var best := Best(us, id);
            if best.None? then (id in out <==> id in t) && (id in t ==> out[id] == t[id])
            else if id !in t || t[id].version < best.value.version then
              id in out && out[id] == Row(best.value.version, best.value.payload, now)
            else
              id in out && out[id] == if Repeats(us, id, t[id]) then t[id].(confirmedAt := now) else t[id]
    decreases |us|
  {
    if us != [] {
      var n := |us| - 1;
      EachEndsWithTheBest(t, us[..n], now, id);
      if us[n].id == id {
        BestIsHighest(us[..n], id);
        if id in t { RepeatsOneMore(us, id, t[id]); }
      } else if id in t {
        RepeatsOneMore(us, id, t[id]);
      }
    }
  }

  lemma RepeatsOneMore<P>(us: seq<Update<P>>, id: string, held: Row<P>)
    requires us != []
    ensures var n := |us| - 1;
            Repeats(us, id, held) <==> Repeats(us[..n], id, held) || (us[n].id == id && us[n].version == held.version && us[n].payload == held.payload)
  {
    var n := |us| - 1;
    if Repeats(us, id, held) {
      var m :| 0 <= m < |us| && us[m].id == id && us[m].version == held.version && us[m].payload == held.payload;
      if m < n { assert us[..n][m] == us[m]; }
    }
    if Repeats(us[..n], id, held) {
      var m :| 0 <= m < n && us[..n][m].id == id && us[..n][m].version == held.version && us[..n][m].payload == held.payload;
      assert us[m] == us[..n][m];
    }
  }

  // ---- the batch -----------------------------------------------------------------

  /** What is kept of a batch: each id's first update of its highest version. */
  ghost predicate IsLatest<P>(latest: map<string, Update<P>>, us: seq<Update<P>>) {
    forall id :: (id in latest <==> Best(us, id).Some?) && (id in latest ==> latest[id] == Best(us, id).value)
  }

  /** The batch's updates as collected: an update replaces a lower version of its id. */
  function LatestOf<P>(us: seq<Update<P>>): map<string, Update<P>>
    decreases |us|
  {
    if us == [] then map[]
    else
      var latest := LatestOf(us[..|us| - 1]);
      var u := us[|us| - 1];
      if u.id in latest && u.version <= latest[u.id].version then latest else latest[u.id := u]
  }

  lemma {:induction false} LatestIsBest<P>(us: seq<Update<P>>)
    ensures IsLatest(LatestOf(us), us)
    decreases |us|
  {
    if us != [] { LatestIsBest(us[..|us| - 1]); }
  }

  function Ids<P>(us: seq<Update<P>>): seq<string> { seq(|us|, n requires 0 <= n < |us| => us[n].id) }

  /** One statement over the listed ids' updates. */
  function ApplyListed<P(==)>(t: Table<P>, ids: seq<string>, latest: map<string, Update<P>>, now: int): Table<P>
    requires forall n :: 0 <= n < |ids| ==> ids[n] in latest
    decreases |ids|
  {
    if ids == [] then t else Upsert(ApplyListed(t, ids[..|ids| - 1], latest, now), latest[ids[|ids| - 1]], now)
  }

  ghost predicate Distinct(ids: seq<string>) { forall n, m :: 0 <= n < m < |ids| ==> ids[n] != ids[m] }

  lemma {:induction false} ListedRow<P>(t: Table<P>, ids: seq<string>, latest: map<string, Update<P>>, now: int, id: string)
    requires forall n :: 0 <= n < |ids| ==> ids[n] in latest && latest[ids[n]].id == ids[n]
    requires Distinct(ids)
    ensures var out := ApplyListed(t, ids, latest, now);
            if id in ids then id in Upsert(t, latest[id], now) && id in out && out[id] == Upsert(t, latest[id], now)[id]
            else (id in out <==> id in t) && (id in t ==> out[id] == t[id])
    decreases |ids|
  {
    if ids != [] {
      var n := |ids| - 1;
      ListedRow(t, ids[..n], latest, now, id);
      assert ids == ids[..n] + [ids[n]];
      if id == ids[n] { assert id !in ids[..n]; }
    }
  }

  /** The whole batch as one statement, its rows in ascending order. */
  function Batch<P(==)>(t: Table<P>, us: seq<Update<P>>, now: int): Table<P> {
    var ids := Texts.SortedSet(Ids(us));
    SortedIdsAreLatest(us);
    ApplyListed(t, ids, LatestOf(us), now)
  }

  lemma SortedIdsAreLatest<P>(us: seq<Update<P>>)
    ensures var ids := Texts.SortedSet(Ids(us));
            Texts.Ascending(ids) && Distinct(ids) && IsLatest(LatestOf(us), us) && forall x :: x in ids <==> x in LatestOf(us)
  {
    var ids := Texts.SortedSet(Ids(us));
    Texts.SortedSetAscends(Ids(us));
    LatestIsBest(us);
    forall n, m | 0 <= n < m < |ids| ensures ids[n] != ids[m] { Texts.LessIsAsymmetric(ids[n], ids[m]); }
    forall x ensures x in Ids(us) <==> x in LatestOf(us) {
      BestIsHighest(us, x);
      if x in Ids(us) {
        var n :| 0 <= n < |us| && Ids(us)[n] == x;
        assert us[n] in us;
      }
      if x in LatestOf(us) {
        var n :| 0 <= n < |us| && us[n] == Best(us, x).value;
        assert Ids(us)[n] == x;
      }
    }
  }

  function View<P>(t: Table<P>): map<string, (int, P)> { map id | id in t :: (t[id].version, t[id].payload) }

  /** The held version arrives with another payload first, and with the held payload later in the same batch, at a new time. */
  ghost predicate Contested<P>(t: Table<P>, us: seq<Update<P>>, now: int, id: string) {
    && id in t && t[id].confirmedAt != now && Best(us, id).Some?
    && Best(us, id).value.version == t[id].version && Best(us, id).value.payload != t[id].payload
    && Repeats(us, id, t[id])
  }

  lemma BatchRow<P>(t: Table<P>, us: seq<Update<P>>, ids: seq<string>, latest: map<string, Update<P>>, now: int, id: string)
    requires IsLatest(latest, us) && Distinct(ids) && (forall x :: x in ids <==> x in latest)
    ensures var batch := ApplyListed(t, ids, latest, now);
            var each := ApplyEach(t, us, now);
            && (id in batch <==> id in each)
            && (id in batch ==> batch[id].version == each[id].version && batch[id].payload == each[id].payload)
            && (id in batch ==> (batch[id] == each[id] <==> !Contested(t, us, now, id)))
  {
    EachEndsWithTheBest(t, us, now, id);
    ListedRow(t, ids, latest, now, id);
    BestIsHighest(us, id);
    if id in t && Best(us, id).Some? {
      HeldPayload(t, us, id);
    }
  }

  /** An update that repeats what is held either is the best one, or the best one is newer or contests it. */
  lemma HeldPayload<P>(t: Table<P>, us: seq<Update<P>>, id: string)
    requires id in t && Best(us, id).Some?
    ensures var best := Best(us, id).value;
            && (best.version == t[id].version && best.payload == t[id].payload ==> Repeats(us, id, t[id]))
            && (best.version < t[id].version ==> !Repeats(us, id, t[id]))
  {
    BestIsHighest(us, id);
    var best := Best(us, id).value;
    var n :| 0 <= n < |us| && us[n] == best;
    if Repeats(us, id, t[id]) {
      var m :| 0 <= m < |us| && us[m].id == id && us[m].version == t[id].version && us[m].payload == t[id].payload;
      assert us[m] in us;
    }
  }

  /** A batch leaves the versions and payloads that applying it one by one leaves. */
  lemma BatchRefinesEach<P>(t: Table<P>, us: seq<Update<P>>, now: int)
    ensures View(Batch(t, us, now)) == View(ApplyEach(t, us, now))
  {
    hide ApplyListed, ApplyEach;
    SortedIdsAreLatest(us);
    var ids, latest := Texts.SortedSet(Ids(us)), LatestOf(us);
    forall id ensures id in Batch(t, us, now) <==> id in ApplyEach(t, us, now) { BatchRow(t, us, ids, latest, now, id); }
    forall id | id in Batch(t, us, now) ensures View(Batch(t, us, now))[id] == View(ApplyEach(t, us, now))[id] {
      BatchRow(t, us, ids, latest, now, id);
    }
  }

  /** The confirmation times agree too, except for a held version that the batch contests before repeating it. */
  lemma BatchEqualsEachIff<P>(t: Table<P>, us: seq<Update<P>>, now: int)
    ensures Batch(t, us, now) == ApplyEach(t, us, now) <==> forall id :: !Contested(t, us, now, id)
  {
    hide Contested, ApplyListed, ApplyEach;
    SortedIdsAreLatest(us);
    var ids, latest := Texts.SortedSet(Ids(us)), LatestOf(us);
    var batch, each := Batch(t, us, now), ApplyEach(t, us, now);
    forall id ensures id in batch <==> id in each { BatchRow(t, us, ids, latest, now, id); }
    if batch == each {
      forall id ensures !Contested(t, us, now, id) {
        BatchRow(t, us, ids, latest, now, id);
        if Contested(t, us, now, id) { ContestedIsHeld(t, us, now, id); EachKeepsIds(t, us, now, id); }
      }
    }
    if forall id :: !Contested(t, us, now, id) {
      forall id | id in batch ensures batch[id] == each[id] { BatchRow(t, us, ids, latest, now, id); }
      assert batch.Keys == each.Keys;
      assert batch == each;
    }
  }

  lemma ContestedIsHeld<P>(t: Table<P>, us: seq<Update<P>>, now: int, id: string)
    requires Contested(t, us, now, id)
    ensures id in t
  {}

  lemma {:induction false} EachKeepsIds<P>(t: Table<P>, us: seq<Update<P>>, now: int, id: string)
    requires id in t
    ensures id in ApplyEach(t, us, now) && t[id].version <= ApplyEach(t, us, now)[id].version
    decreases |us|
  {
    if us != [] { EachKeepsIds(t, us[..|us| - 1], now, id); }
  }

  /** A batch, like a single update, never lowers a version. */
  lemma BatchKeepsIds<P>(t: Table<P>, us: seq<Update<P>>, now: int, id: string)
    requires id in t
    ensures id in Batch(t, us, now) && t[id].version <= Batch(t, us, now)[id].version
  {
    hide Batch;
    BatchRefinesEach(t, us, now);
    EachKeepsIds(t, us, now, id);
    assert id in View(ApplyEach(t, us, now));
    assert View(Batch(t, us, now))[id] == View(ApplyEach(t, us, now))[id];
  }

  /** Whatever a batch brings is held afterwards, or something newer. */
  lemma BatchHolds<P>(t: Table<P>, us: seq<Update<P>>, now: int, u: Update<P>)
    requires u in us
    ensures u.id in Batch(t, us, now) && u.version <= Batch(t, us, now)[u.id].version
  {
    hide Batch;
    BatchRefinesEach(t, us, now);
    EachEndsWithTheBest(t, us, now, u.id);
    BestIsHighest(us, u.id);
    assert u.id in View(ApplyEach(t, us, now));
    assert View(Batch(t, us, now))[u.id] == View(ApplyEach(t, us, now))[u.id];
  }

  // ---- convergence -----------------------------------------------------------------

  /** Every version of an id was issued with one payload. */
  ghost predicate OnePayload<P(!new)>(us: set<Update<P>>) {
    forall u, v :: u in us && v in us && u.id == v.id && u.version == v.version ==> u.payload == v.payload
  }

  /** Both deliveries brought the same updates, in whatever order and however often. */
  ghost predicate SameUpdates<P(!new)>(us: seq<Update<P>>, vs: seq<Update<P>>) { forall u :: u in us <==> u in vs }

  /** Updates that arrive in pages and singly, at any times. */
  function ApplyTimed<P(==)>(t: Table<P>, us: seq<(Update<P>, int)>): Table<P>
    decreases |us|
  {
    if us == [] then t else Upsert(ApplyTimed(t, us[..|us| - 1]), us[|us| - 1].0, us[|us| - 1].1)
  }

  function Updates<P>(us: seq<(Update<P>, int)>): (out: seq<Update<P>>)
    ensures |out| == |us| && forall n :: 0 <= n < |us| ==> out[n] == us[n].0
  {
    if us == [] then [] else Updates(us[..|us| - 1]) + [us[|us| - 1].0]
  }

  /** From an empty table, versions and payloads are those of the first highest update, at whatever times they came. */
  lemma {:induction false} TimedEndsWithTheBest<P>(us: seq<(Update<P>, int)>, id: string)
    ensures var out := ApplyTimed(map[], us);
            var best := Best(Updates(us), id);
            (id in out <==> best.Some?) && (id in out ==> out[id].version == best.value.version && out[id].payload == best.value.payload)
    decreases |us|
  {
    if us != [] {
      var n := |us| - 1;
      TimedEndsWithTheBest(us[..n], id);
      assert Updates(us)[..n] == Updates(us[..n]);
    }
  }

  lemma SameBest<P(!new)>(us: seq<Update<P>>, vs: seq<Update<P>>, id: string)
    requires SameUpdates(us, vs) && OnePayload(set u | u in us)
    ensures Best(us, id) == Best(vs, id)
  {
    BestIsHighest(us, id);
    BestIsHighest(vs, id);
    if Best(us, id).Some? {
      var u := Best(us, id).value;
      assert u in vs;
      var v := Best(vs, id).value;
      assert v in us;
    }
  }

  /** Any order, duplication or interleaving of the same updates ends in the same versions and payloads. */
  lemma Converges<P(!new)>(us: seq<(Update<P>, int)>, vs: seq<(Update<P>, int)>)
    requires SameUpdates(Updates(us), Updates(vs)) && OnePayload(set u | u in Updates(us))
    ensures View(ApplyTimed(map[], us)) == View(ApplyTimed(map[], vs))
  {
    forall id ensures id in ApplyTimed(map[], us) <==> id in ApplyTimed(map[], vs) {
      TimedEndsWithTheBest(us, id);
      TimedEndsWithTheBest(vs, id);
      SameBest(Updates(us), Updates(vs), id);
    }
    forall id | id in ApplyTimed(map[], us) ensures View(ApplyTimed(map[], us))[id] == View(ApplyTimed(map[], vs))[id] {
      TimedEndsWithTheBest(us, id);
      TimedEndsWithTheBest(vs, id);
      SameBest(Updates(us), Updates(vs), id);
    }
  }

  // ---- pages and single updates mixed ----------------------------------------------

  /** A page of updates is one batch; a single update is a page of one. */
  function ApplyPages<P(==)>(pages: seq<(seq<Update<P>>, int)>): Table<P>
    decreases |pages|
  {
    if pages == [] then map[] else Batch(ApplyPages(pages[..|pages| - 1]), pages[|pages| - 1].0, pages[|pages| - 1].1)
  }

  lemma PageOfOne<P>(t: Table<P>, u: Update<P>, now: int)
    ensures Batch(t, [u], now) == Upsert(t, u, now)
  {
    hide Batch;
    assert [u][..0] == [];
    assert ApplyEach(t, [u], now) == Upsert(t, u, now);
    forall id ensures !Contested(t, [u], now, id) { assert Best([u], id).Some? ==> Best([u], id).value in [u]; }
    BatchEqualsEachIff(t, [u], now);
  }

  function Timed<P>(us: seq<Update<P>>, now: int): (out: seq<(Update<P>, int)>)
    ensures |out| == |us| && forall n :: 0 <= n < |us| ==> out[n] == (us[n], now)
  {
    seq(|us|, n requires 0 <= n < |us| => (us[n], now))
  }

  /** The pages' updates in the order they came. */
  function Arrivals<P>(pages: seq<(seq<Update<P>>, int)>): seq<(Update<P>, int)>
    decreases |pages|
  {
    if pages == [] then [] else Arrivals(pages[..|pages| - 1]) + Timed(pages[|pages| - 1].0, pages[|pages| - 1].1)
  }

  lemma UpsertSees<P>(t: Table<P>, s: Table<P>, u: Update<P>, now: int, later: int)
    requires View(t) == View(s)
    ensures View(Upsert(t, u, now)) == View(Upsert(s, u, later))
  {
    assert t.Keys == View(t).Keys && s.Keys == View(s).Keys;
    assert forall id :: id in t ==> View(t)[id] == View(s)[id];
  }

  lemma {:induction false} EachIsTimed<P>(t: Table<P>, s: seq<(Update<P>, int)>, us: seq<Update<P>>, now: int)
    requires View(t) == View(ApplyTimed(map[], s))
    ensures View(ApplyEach(t, us, now)) == View(ApplyTimed(map[], s + Timed(us, now)))
    decreases |us|
  {
    hide View, Upsert;
    if us == [] {
      assert s + Timed(us, now) == s;
    } else {
      var n := |us| - 1;
      EachIsTimed(t, s, us[..n], now);
      var all := s + Timed(us, now);
      assert all[..|all| - 1] == s + Timed(us[..n], now);
      UpsertSees(ApplyEach(t, us[..n], now), ApplyTimed(map[], all[..|all| - 1]), us[n], now, now);
    }
  }

  lemma {:induction false} PagesAreArrivals<P>(pages: seq<(seq<Update<P>>, int)>)
    ensures View(ApplyPages(pages)) == View(ApplyTimed(map[], Arrivals(pages)))
    decreases |pages|
  {
    hide View, Batch;
    if pages != [] {
      var n := |pages| - 1;
      PagesAreArrivals(pages[..n]);
      BatchRefinesEach(ApplyPages(pages[..n]), pages[n].0, pages[n].1);
      EachIsTimed(ApplyPages(pages[..n]), Arrivals(pages[..n]), pages[n].0, pages[n].1);
    }
  }

  /** However the same updates are ordered, repeated and cut into pages, the table ends with the same versions and payloads. */
  lemma PagesConverge<P(!new)>(a: seq<(seq<Update<P>>, int)>, b: seq<(seq<Update<P>>, int)>)
    requires SameUpdates(Updates(Arrivals(a)), Updates(Arrivals(b))) && OnePayload(set u | u in Updates(Arrivals(a)))
    ensures View(ApplyPages(a)) == View(ApplyPages(b))
  {
    PagesAreArrivals(a);
    PagesAreArrivals(b);
    Converges(Arrivals(a), Arrivals(b));
  }

  /** The version held is the highest ever seen. */
  lemma HighestWins<P>(us: seq<(Update<P>, int)>, n: nat)
    requires n < |us|
    ensures var out := ApplyTimed(map[], us);
            us[n].0.id in out && us[n].0.version <= out[us[n].0.id].version
  {
    var id := us[n].0.id;
    TimedEndsWithTheBest(us, id);
    BestIsHighest(Updates(us), id);
    assert Updates(us)[n] == us[n].0;
    assert us[n].0 in Updates(us);
  }
}
