/** The visibility of products as another service knows it, and checkout's fence on it. */
module ProductSales {
  import opened Options
  import opened VersionedTable
  import VendorSales
  import Texts

  datatype Status = Status(productId: string, version: int, visible: bool)

  predicate Valid(s: Status) { VendorSales.IsUuid(s.productId) && s.version >= 1 }

  function UpdateOf(s: Status): Update<bool> { Update(s.productId, s.version, s.visible) }

  datatype Refusal = Synchronizing | Changed

  function Refused(t: Table<bool>, id: string, version: int): Option<Refusal> {
    if id !in t then Some(Synchronizing)
    else if !t[id].payload || t[id].version != version then Some(Changed)
    else None
  }

  predicate Visible(t: Table<bool>, id: string, version: int) { id in t && t[id].payload && t[id].version == version }

  /** A newer status, or the held one again, is stored as it was reported; an older or contradicting one changes nothing. */
  lemma StatusMeans(t: Table<bool>, s: Status, now: int)
    ensures var newer := s.productId !in t || t[s.productId].version < s.version;
            var again := s.productId in t && t[s.productId].version == s.version && t[s.productId].payload == s.visible;
            Upsert(t, UpdateOf(s), now) == if newer || again then t[s.productId := Row(s.version, s.visible, now)] else t
  {}

  class Store {
    var table: Table<bool>

    constructor ()
      ensures table == map[]
    {
      table := map[];
    }

    method Apply(s: Status, now: int) returns (ok: bool)
      modifies this
      ensures ok <==> VendorSales.IsUuid(s.productId) && s.version >= 1
      ensures table == if Valid(s) then Upsert(old(table), UpdateOf(s), now) else old(table)
      ensures Valid(s) && (s.productId !in old(table) || old(table)[s.productId].version < s.version) ==>
                table == old(table)[s.productId := Row(s.version, s.visible, now)]
    {
      if !Valid(s) {
        return false;
      }
      if s.productId !in table {
        table := table[s.productId := Row(s.version, s.visible, now)];
      } else {
        var held := table[s.productId];
        if held.version < s.version || (held.version == s.version && held.payload == s.visible) {
          table := table[s.productId := Row(s.version, s.visible, now)];
        }
      }
      return true;
    }

    /** Allowed exactly when every product is visible at its planned version; the first refusal in the order of ids otherwise. */
    method LockVisible(versions: map<string, int>) returns (refusal: Option<Refusal>)
      ensures refusal.None? <==> forall id :: id in versions ==> Visible(table, id, versions[id])
      ensures refusal.Some? ==> exists id :: id in versions && refusal == Refused(table, id, versions[id])
                                          && forall x :: x in versions && Texts.Less(x, id) ==> Visible(table, x, versions[x])
    {
      var ids := VendorSales.SortedKeys(versions);
      for n := 0 to |ids|
        invariant forall m :: 0 <= m < n ==> Visible(table, ids[m], versions[ids[m]])
      {
        assert ids[n] in ids;
        EarlierIdsCameFirst(ids, n);
        if ids[n] !in table {
          assert !Visible(table, ids[n], versions[ids[n]]);
          return Some(Synchronizing);
        }
        var row := table[ids[n]];
        if !row.payload || row.version != versions[ids[n]] {
          assert !Visible(table, ids[n], versions[ids[n]]);
          return Some(Changed);
        }
      }
      return None;
    }
  }

  lemma EarlierIdsCameFirst(ids: seq<string>, n: nat)
    requires Texts.Ascending(ids) && n < |ids|
    ensures forall x :: x in ids && Texts.Less(x, ids[n]) ==> x in ids[..n]
  {
    forall x | x in ids && Texts.Less(x, ids[n]) ensures x in ids[..n] {
      var m :| 0 <= m < |ids| && ids[m] == x;
      Texts.LessIsAsymmetric(x, ids[n]);
      assert m < n;
      assert ids[..n][m] == x;
    }
  }
}
