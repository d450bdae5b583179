/**
  Checkout against the consumers of status changes: the order's transaction
  share-locks every shop and product it plans to sell, and an update of a
  locked row waits.
*/
module Checkout {
  import opened Options
  import opened VersionedTable
  import VendorSales
  import ProductSales
  import Texts

  /** The versions checkout was planned with. */
  datatype Plan = Plan(shops: map<string, int>, products: map<string, int>)

  datatype Tx = Tx(plan: Plan, shops: set<string>, products: set<string>)

  /** An order, with the rows as they stood when it committed. */
  datatype Order = Order(plan: Plan, shops: Table<VendorSales.Sale>, products: Table<bool>)

  datatype State = State(
    shops: Table<VendorSales.Sale>, products: Table<bool>, open: map<nat, Tx>, orders: seq<Order>)

  datatype Step =
    | Begin(tx: nat, plan: Plan)
    | LockShop(tx: nat, id: string)
    | LockProduct(tx: nat, id: string)
    | Commit(tx: nat)
    | Rollback(tx: nat)
    | ShopChanged(s: VendorSales.Status, now: int)
    | ShopPage(ss: seq<VendorSales.Status>, now: int)
    | ProductChanged(p: ProductSales.Status, now: int)

  predicate ShopLocked(s: State, id: string) { exists tx :: tx in s.open && id in s.open[tx].shops }

  predicate ProductLocked(s: State, id: string) { exists tx :: tx in s.open && id in s.open[tx].products }

  /** A status change waits while a row it would write is share-locked. */
  function Do(s: State, step: Step): State {
    match step
    case Begin(tx, plan) => if tx in s.open then s else s.(open := s.open[tx := Tx(plan, {}, {})])
    case LockShop(tx, id) =>
      if tx !in s.open || id !in s.open[tx].plan.shops then s
      else if VendorSales.Refused(s.shops, id, s.open[tx].plan.shops[id]).Some? then s.(open := s.open - {tx})
      else s.(open := s.open[tx := s.open[tx].(shops := s.open[tx].shops + {id})])
    case LockProduct(tx, id) =>
      if tx !in s.open || id !in s.open[tx].plan.products then s
      else if ProductSales.Refused(s.products, id, s.open[tx].plan.products[id]).Some? then s.(open := s.open - {tx})
      else s.(open := s.open[tx := s.open[tx].(products := s.open[tx].products + {id})])
    case Commit(tx) =>
      if tx !in s.open || s.open[tx].shops != s.open[tx].plan.shops.Keys || s.open[tx].products != s.open[tx].plan.products.Keys then s
      else s.(open := s.open - {tx}, orders := s.orders + [Order(s.open[tx].plan, s.shops, s.products)])
    case Rollback(tx) => s.(open := s.open - {tx})
    case ShopChanged(v, now) =>
      if !VendorSales.Valid(v) || ShopLocked(s, v.vendorId) then s else s.(shops := Upsert(s.shops, VendorSales.UpdateOf(v), now))
    case ShopPage(vs, now) =>
      if exists n :: 0 <= n < |vs| && (!VendorSales.Valid(vs[n]) || ShopLocked(s, vs[n].vendorId)) then s
      else s.(shops := Batch(s.shops, VendorSales.UpdatesOf(vs), now))
    case ProductChanged(p, now) =>
      if !ProductSales.Valid(p) || ProductLocked(s, p.productId) then s else s.(products := Upsert(s.products, ProductSales.UpdateOf(p), now))
  }

  function Exec(s: State, steps: seq<Step>): State
    decreases |steps|
  {
    if steps == [] then s else Do(Exec(s, steps[..|steps| - 1]), steps[|steps| - 1])
  }

  const Empty := State(map[], map[], map[], [])

  /** What a transaction has locked is still as it was planned. */
  ghost predicate TxOk(s: State, tx: Tx) {
    && tx.shops <= tx.plan.shops.Keys && tx.products <= tx.plan.products.Keys
    && (forall id :: id in tx.shops ==> VendorSales.Sellable(s.shops, id, tx.plan.shops[id]))
    && (forall id :: id in tx.products ==> ProductSales.Visible(s.products, id, tx.plan.products[id]))
  }

  ghost predicate OrderOk(o: Order) {
    && (forall id :: id in o.plan.shops ==> VendorSales.Sellable(o.shops, id, o.plan.shops[id]))
    && (forall id :: id in o.plan.products ==> ProductSales.Visible(o.products, id, o.plan.products[id]))
  }

  ghost predicate Inv(s: State) {
    (forall tx :: tx in s.open ==> TxOk(s, s.open[tx])) && (forall n :: 0 <= n < |s.orders| ==> OrderOk(s.orders[n]))
  }

  lemma PageLeavesOthers(t: Table<VendorSales.Sale>, vs: seq<VendorSales.Status>, now: int, id: string)
    requires id in t && forall n :: 0 <= n < |vs| ==> vs[n].vendorId != id
    ensures id in Batch(t, VendorSales.UpdatesOf(vs), now) && Batch(t, VendorSales.UpdatesOf(vs), now)[id] == t[id]
  {
    hide Batch, ApplyEach, VendorSales.UpdatesOf;
    var us := VendorSales.UpdatesOf(vs);
    EachEndsWithTheBest(t, us, now, id);
    SortedIdsAreLatest(us);
    BatchRowOf(t, us, now, id);
    BestIsHighest(us, id);
    assert forall u :: u in us ==> u.id != id;
  }

  lemma BatchRowOf(t: Table<VendorSales.Sale>, us: seq<Update<VendorSales.Sale>>, now: int, id: string)
    ensures var batch, each := Batch(t, us, now), ApplyEach(t, us, now);
            && (id in batch <==> id in each)
            && (id in batch && Best(us, id).None? ==> batch[id] == each[id])
  {
    SortedIdsAreLatest(us);
    BatchRow(t, us, Texts.SortedSet(Ids(us)), LatestOf(us), now, id);
  }

  lemma ShopChangeKeeps(s: State, shops: Table<VendorSales.Sale>)
    requires Inv(s) && forall id :: ShopLocked(s, id) && id in s.shops ==> id in shops && shops[id] == s.shops[id]
    ensures Inv(s.(shops := shops))
  {
    var u := s.(shops := shops);
    forall tx | tx in u.open ensures TxOk(u, u.open[tx]) {
      assert TxOk(s, s.open[tx]);
      forall id | id in u.open[tx].shops ensures VendorSales.Sellable(shops, id, u.open[tx].plan.shops[id]) {
        assert ShopLocked(s, id);
      }
    }
  }

  lemma StepKeeps(s: State, step: Step)
    requires Inv(s)
    ensures Inv(Do(s, step)) && s.orders <= Do(s, step).orders
  {
    var u := Do(s, step);
    match step
    case ShopChanged(v, now) => if u != s { ShopChangeKeeps(s, u.shops); }
    case ShopPage(vs, now) =>
      if u != s {
        hide Batch;
        forall id | ShopLocked(s, id) && id in s.shops ensures id in u.shops && u.shops[id] == s.shops[id] {
          PageLeavesOthers(s.shops, vs, now, id);
        }
        ShopChangeKeeps(s, u.shops);
      }
    case ProductChanged(p, now) => ProductChangeKeeps(s, p, now);
    case Commit(tx) => CommitKeeps(s, tx);
    case Begin(_, _) => TransactionKeeps(s, step);
    case Rollback(_) => TransactionKeeps(s, step);
    case LockShop(_, _) => LockStepKeeps(s, step);
    case LockProduct(_, _) => LockStepKeeps(s, step);
  }

  lemma ProductChangeKeeps(s: State, p: ProductSales.Status, now: int)
    requires Inv(s)
    ensures Inv(Do(s, ProductChanged(p, now)))
  {
    var u := Do(s, ProductChanged(p, now));
    forall tx | tx in u.open ensures TxOk(u, u.open[tx]) {
      assert TxOk(s, s.open[tx]);
      forall id | id in u.open[tx].products ensures ProductSales.Visible(u.products, id, u.open[tx].plan.products[id]) {
        assert ProductLocked(s, id);
      }
    }
  }

  lemma TransactionKeeps(s: State, step: Step)
    requires Inv(s) && (step.Begin? || step.Rollback?)
    ensures Inv(Do(s, step))
  {
    hide VendorSales.Sellable, ProductSales.Visible, OrderOk;
    var u := Do(s, step);
    forall tx | tx in u.open ensures TxOk(u, u.open[tx]) {
      if tx in s.open { assert TxOk(s, s.open[tx]); }
    }
  }

  lemma LockStepKeeps(s: State, step: Step)
    requires Inv(s) && (step.LockShop? || step.LockProduct?)
    ensures Inv(Do(s, step))
  {
    hide VendorSales.Sellable, ProductSales.Visible, VendorSales.Refused, ProductSales.Refused, OrderOk;
    var u := Do(s, step);
    if step.tx in u.open { LockKeeps(s, step); }
    forall tx | tx in u.open ensures TxOk(u, u.open[tx]) {
      if tx != step.tx { assert TxOk(s, s.open[tx]); }
    }
  }

  lemma CommitKeeps(s: State, tx: nat)
    requires Inv(s)
    ensures Inv(Do(s, Commit(tx)))
  {
    hide VendorSales.Sellable, ProductSales.Visible;
    var u := Do(s, Commit(tx));
    forall x | x in u.open ensures TxOk(u, u.open[x]) { assert TxOk(s, s.open[x]); }
    forall n | 0 <= n < |u.orders| ensures OrderOk(u.orders[n]) {
      if n < |s.orders| { assert OrderOk(s.orders[n]); } else { assert TxOk(s, s.open[tx]); }
    }
  }

  lemma LockKeeps(s: State, step: Step)
    requires Inv(s) && (step.LockShop? || step.LockProduct?) && step.tx in Do(s, step).open
    ensures TxOk(Do(s, step), Do(s, step).open[step.tx])
  {
    assert TxOk(s, s.open[step.tx]);
  }

  /**
    Every order ever created: at the moment it committed each of its shops was
    approved and taking orders, each of its products visible, and all still at
    the versions checkout was planned with.
  */
  lemma {:induction false} OrdersAreFenced(steps: seq<Step>, n: nat)
    requires n < |Exec(Empty, steps).orders|
    ensures OrderOk(Exec(Empty, steps).orders[n])
    decreases |steps|
  {
    hide Do;
    RunKeeps(steps);
  }

  lemma {:induction false} RunKeeps(steps: seq<Step>)
    ensures Inv(Exec(Empty, steps))
    decreases |steps|
  {
    hide Do;
    if steps != [] {
      RunKeeps(steps[..|steps| - 1]);
      StepKeeps(Exec(Empty, steps[..|steps| - 1]), steps[|steps| - 1]);
    }
  }

  // ---- older plans ------------------------------------------------------------------------

  lemma VersionsRise(s: State, step: Step)
    ensures var u := Do(s, step);
            && (forall id :: id in s.shops ==> id in u.shops && s.shops[id].version <= u.shops[id].version)
            && (forall id :: id in s.products ==> id in u.products && s.products[id].version <= u.products[id].version)
  {
    hide Batch, VendorSales.Refused, ProductSales.Refused, VendorSales.Valid, ProductSales.Valid, VendorSales.UpdatesOf;
    if step.ShopPage? {
      forall id | id in s.shops ensures id in Do(s, step).shops && s.shops[id].version <= Do(s, step).shops[id].version {
        BatchKeepsIds(s.shops, VendorSales.UpdatesOf(step.ss), step.now, id);
      }
    }
  }

  /** A new order carries the rows of the moment it committed. */
  lemma NewOrder(s: State, step: Step)
    ensures var u := Do(s, step);
            u.orders == s.orders || (|u.orders| == |s.orders| + 1 && s.orders <= u.orders
                                     && u.orders[|s.orders|].shops == s.shops && u.orders[|s.orders|].products == s.products)
  {
    hide Batch, VendorSales.Refused, ProductSales.Refused, VendorSales.Valid, ProductSales.Valid, VendorSales.UpdatesOf;
  }

  /** Rows of the later state or order are no older than those of the earlier state. */
  ghost predicate NoOlder(s: State, shops: Table<VendorSales.Sale>, products: Table<bool>) {
    && (forall id :: id in s.shops ==> id in shops && s.shops[id].version <= shops[id].version)
    && (forall id :: id in s.products ==> id in products && s.products[id].version <= products[id].version)
  }

  lemma {:induction false} RunRaises(s: State, steps: seq<Step>)
    requires Inv(s)
    ensures var t := Exec(s, steps);
            && Inv(t) && s.orders <= t.orders && NoOlder(s, t.shops, t.products)
            && (forall n :: |s.orders| <= n < |t.orders| ==> NoOlder(s, t.orders[n].shops, t.orders[n].products))
    decreases |steps|
  {
    hide Do, Inv;
    if steps != [] {
      var n := |steps| - 1;
      RunRaises(s, steps[..n]);
      var m := Exec(s, steps[..n]);
      StepKeeps(m, steps[n]);
      VersionsRise(m, steps[n]);
      NewOrder(m, steps[n]);
    }
  }

  /**
    Once a shop is held at some version, however its status came, no later
    step lets a checkout with an older plan through: its lock is refused and
    the transaction ends, and no order with an older version of that shop is
    ever created, not even by a transaction that was already open.
  */
  lemma OlderShopPlansFail(before: seq<Step>, after: seq<Step>, id: string)
    requires id in Exec(Empty, before).shops
    ensures var s := Exec(Empty, before);
            var t := Exec(s, after);
            && (forall v :: v < s.shops[id].version ==> VendorSales.Refused(t.shops, id, v).Some?)
            && (forall tx :: tx in t.open && id in t.open[tx].plan.shops && t.open[tx].plan.shops[id] < s.shops[id].version ==>
                  tx !in Do(t, LockShop(tx, id)).open)
            && (forall n :: |s.orders| <= n < |t.orders| && id in t.orders[n].plan.shops ==>
                  t.orders[n].plan.shops[id] >= s.shops[id].version)
  {
    hide Exec;
    RunKeeps(before);
    var s := Exec(Empty, before);
    RunRaises(s, after);
    var t := Exec(s, after);
    forall n | |s.orders| <= n < |t.orders| && id in t.orders[n].plan.shops
      ensures t.orders[n].plan.shops[id] >= s.shops[id].version
    {
      assert OrderOk(t.orders[n]) && NoOlder(s, t.orders[n].shops, t.orders[n].products);
      assert VendorSales.Sellable(t.orders[n].shops, id, t.orders[n].plan.shops[id]);
    }
  }

  /** The same for products. */
  lemma OlderProductPlansFail(before: seq<Step>, after: seq<Step>, id: string)
    requires id in Exec(Empty, before).products
    ensures var s := Exec(Empty, before);
            var t := Exec(s, after);
            && (forall v :: v < s.products[id].version ==> ProductSales.Refused(t.products, id, v).Some?)
            && (forall tx :: tx in t.open && id in t.open[tx].plan.products && t.open[tx].plan.products[id] < s.products[id].version ==>
                  tx !in Do(t, LockProduct(tx, id)).open)
            && (forall n :: |s.orders| <= n < |t.orders| && id in t.orders[n].plan.products ==>
                  t.orders[n].plan.products[id] >= s.products[id].version)
  {
    hide Exec;
    RunKeeps(before);
    var s := Exec(Empty, before);
    RunRaises(s, after);
    var t := Exec(s, after);
    forall n | |s.orders| <= n < |t.orders| && id in t.orders[n].plan.products
      ensures t.orders[n].plan.products[id] >= s.products[id].version
    {
      assert OrderOk(t.orders[n]) && NoOlder(s, t.orders[n].shops, t.orders[n].products);
      assert ProductSales.Visible(t.orders[n].products, id, t.orders[n].plan.products[id]);
    }
  }

  // ---- where an order's rows come from -----------------------------------------------------

  /** A step of the run brought this status of a shop, alone or in a page. */
  ghost predicate ShopReported(steps: seq<Step>, v: VendorSales.Status) {
    exists n :: 0 <= n < |steps| && ((steps[n].ShopChanged? && steps[n].s == v) || (steps[n].ShopPage? && v in steps[n].ss))
  }

  ghost predicate ProductReported(steps: seq<Step>, p: ProductSales.Status) {
    exists n :: 0 <= n < |steps| && steps[n].ProductChanged? && steps[n].p == p
  }

  /** The row says what the status said; a status without the flag takes orders. */
  predicate ShopShows(v: VendorSales.Status, id: string, r: Row<VendorSales.Sale>) {
    && v.vendorId == id && v.version == r.version && v.status == r.payload.status
    && (r.payload.accepting <==> v.acceptingOrders != Some(false))
  }

  predicate ProductShows(p: ProductSales.Status, id: string, r: Row<bool>) {
    p.productId == id && p.version == r.version && p.visible == r.payload
  }

  ghost predicate ShopsFrom(steps: seq<Step>, shops: Table<VendorSales.Sale>) {
    forall id :: id in shops ==> exists v :: ShopReported(steps, v) && ShopShows(v, id, shops[id])
  }

  ghost predicate ProductsFrom(steps: seq<Step>, products: Table<bool>) {
    forall id :: id in products ==> exists p :: ProductReported(steps, p) && ProductShows(p, id, products[id])
  }

  lemma ReportsStay(steps: seq<Step>, step: Step, shops: Table<VendorSales.Sale>, products: Table<bool>)
    ensures ShopsFrom(steps, shops) ==> ShopsFrom(steps + [step], shops)
    ensures ProductsFrom(steps, products) ==> ProductsFrom(steps + [step], products)
  {
    hide ShopShows, ProductShows;
    forall v | ShopReported(steps, v) ensures ShopReported(steps + [step], v) {
      var n :| 0 <= n < |steps| && ((steps[n].ShopChanged? && steps[n].s == v) || (steps[n].ShopPage? && v in steps[n].ss));
      assert (steps + [step])[n] == steps[n];
    }
    forall p | ProductReported(steps, p) ensures ProductReported(steps + [step], p) {
      var n :| 0 <= n < |steps| && steps[n].ProductChanged? && steps[n].p == p;
      assert (steps + [step])[n] == steps[n];
    }
  }

  /** After a page a shop shows what it showed before, or what some status of the page says. */
  lemma PageShows(t: Table<VendorSales.Sale>, vs: seq<VendorSales.Status>, now: int, id: string)
    requires id in Batch(t, VendorSales.UpdatesOf(vs), now)
    ensures var r := Batch(t, VendorSales.UpdatesOf(vs), now)[id];
            || (id in t && r.version == t[id].version && r.payload == t[id].payload)
            || exists v :: v in vs && ShopShows(v, id, r)
  {
    hide Batch, VendorSales.UpdatesOf;
    var us := VendorSales.UpdatesOf(vs);
    PageRowIs(t, us, now, id);
    var r := Batch(t, us, now)[id];
    if u :| u in us && u.id == id && r.version == u.version && r.payload == u.payload {
      var n :| 0 <= n < |us| && us[n] == u;
      assert vs[n] in vs && us[n] == VendorSales.UpdateOf(vs[n]) && ShopShows(vs[n], id, r);
    }
  }

  lemma PageRowIs(t: Table<VendorSales.Sale>, us: seq<Update<VendorSales.Sale>>, now: int, id: string)
    requires id in Batch(t, us, now)
    ensures var r := Batch(t, us, now)[id];
            || (id in t && r.version == t[id].version && r.payload == t[id].payload)
            || exists u :: u in us && u.id == id && r.version == u.version && r.payload == u.payload
  {
    hide ApplyEach, ApplyListed, Best, LatestOf, Texts.SortedSet, IsLatest, Distinct, Contested, Repeats;
    EachEndsWithTheBest(t, us, now, id);
    SortedIdsAreLatest(us);
    BatchRow(t, us, Texts.SortedSet(Ids(us)), LatestOf(us), now, id);
  }

  lemma ShopStepReports(steps: seq<Step>, s: State, step: Step)
    requires ShopsFrom(steps, s.shops)
    ensures ShopsFrom(steps + [step], Do(s, step).shops)
  {
    hide Batch, ShopsFrom, VendorSales.Valid, VendorSales.UpdatesOf, VendorSales.Refused, ProductSales.Refused;
    ReportsStay(steps, step, s.shops, s.products);
    var u := Do(s, step);
    if u.shops != s.shops {
      assert (steps + [step])[|steps|] == step;
      if step.ShopChanged? {
        assert ShopReported(steps + [step], step.s);
        OneShopShows(steps + [step], s.shops, u.shops, step.s);
      } else {
        PageReports(steps + [step], s.shops, step.ss, step.now);
      }
    }
  }

  lemma OneShopShows(steps: seq<Step>, a: Table<VendorSales.Sale>, b: Table<VendorSales.Sale>, v: VendorSales.Status)
    requires ShopsFrom(steps, a) && ShopReported(steps, v)
    requires v.vendorId in b && b == a[v.vendorId := b[v.vendorId]] && (ShopShows(v, v.vendorId, b[v.vendorId]) || b == a)
    ensures ShopsFrom(steps, b)
  {
    hide ShopReported, ShopShows;
  }

  lemma PageReports(steps: seq<Step>, t: Table<VendorSales.Sale>, vs: seq<VendorSales.Status>, now: int)
    requires ShopsFrom(steps, t) && forall v :: v in vs ==> ShopReported(steps, v)
    ensures ShopsFrom(steps, Batch(t, VendorSales.UpdatesOf(vs), now))
  {
    hide Batch, ShopReported, VendorSales.UpdatesOf;
    var b := Batch(t, VendorSales.UpdatesOf(vs), now);
    forall id | id in b ensures exists v :: ShopReported(steps, v) && ShopShows(v, id, b[id]) {
      PageShows(t, vs, now, id);
      if v :| v in vs && ShopShows(v, id, b[id]) {
      } else {
        var v :| ShopReported(steps, v) && ShopShows(v, id, t[id]);
        assert ShopShows(v, id, b[id]);
      }
    }
  }

  lemma ProductStepReports(steps: seq<Step>, s: State, step: Step)
    requires ProductsFrom(steps, s.products)
    ensures ProductsFrom(steps + [step], Do(s, step).products)
  {
    hide Batch, ProductsFrom, VendorSales.Valid, VendorSales.UpdatesOf, VendorSales.Refused, ProductSales.Refused, ProductSales.Valid;
    ReportsStay(steps, step, s.shops, s.products);
    var u := Do(s, step);
    if u.products != s.products {
      assert (steps + [step])[|steps|] == step;
      assert ProductReported(steps + [step], step.p);
      OneProductShows(steps + [step], s.products, u.products, step.p);
    }
  }

  lemma OneProductShows(steps: seq<Step>, a: Table<bool>, b: Table<bool>, p: ProductSales.Status)
    requires ProductsFrom(steps, a) && ProductReported(steps, p)
    requires p.productId in b && b == a[p.productId := b[p.productId]] && ProductShows(p, p.productId, b[p.productId])
    ensures ProductsFrom(steps, b)
  {
    hide ProductReported, ProductShows;
  }

  lemma {:induction false} RowsAreReported(steps: seq<Step>)
    ensures ShopsFrom(steps, Exec(Empty, steps).shops) && ProductsFrom(steps, Exec(Empty, steps).products)
    decreases |steps|
  {
    hide Do, ShopsFrom, ProductsFrom;
    if steps == [] {
      NothingReported();
    } else {
      var n := |steps| - 1;
      assert steps == steps[..n] + [steps[n]];
      RowsAreReported(steps[..n]);
      ShopStepReports(steps[..n], Exec(Empty, steps[..n]), steps[n]);
      ProductStepReports(steps[..n], Exec(Empty, steps[..n]), steps[n]);
    }
  }

  lemma NothingReported()
    ensures ShopsFrom([], map[]) && ProductsFrom([], map[])
  {}

  /** The state in which an order committed, and the order's rows. */
  lemma {:induction false} OrderIsCommitted(steps: seq<Step>, n: nat)
    requires n < |Exec(Empty, steps).orders|
    ensures exists m :: 0 <= m < |steps| && |Exec(Empty, steps[..m]).orders| == n
                        && Exec(Empty, steps).orders[n].shops == Exec(Empty, steps[..m]).shops
                        && Exec(Empty, steps).orders[n].products == Exec(Empty, steps[..m]).products
    decreases |steps|
  {
    hide Do;
    var last := |steps| - 1;
    var s := Exec(Empty, steps[..last]);
    NewOrder(s, steps[last]);
    if n < |s.orders| {
      OrderIsCommitted(steps[..last], n);
      var m :| 0 <= m < last && |Exec(Empty, steps[..last][..m]).orders| == n
               && s.orders[n].shops == Exec(Empty, steps[..last][..m]).shops && s.orders[n].products == Exec(Empty, steps[..last][..m]).products;
      assert steps[..last][..m] == steps[..m];
    }
  }

  /** What had been received when an order committed, for each shop and product it sells. */
  ghost predicate Backed(before: seq<Step>, plan: Plan) {
    && (forall id :: id in plan.shops ==>
          exists v :: ShopReported(before, v) && v.vendorId == id && v.version == plan.shops[id]
                      && v.status == "approved" && v.acceptingOrders != Some(false))
    && (forall id :: id in plan.products ==>
          exists p :: ProductReported(before, p) && p.productId == id && p.version == plan.products[id] && p.visible)
  }

  /**
    Behind every order of every run stands, for each shop it sells, a status
    received before the order that approves the shop, does not pause its
    orders and has exactly the planned version, and for each product one that
    shows it visible at exactly the planned version.
  */
  lemma OrdersAreReported(steps: seq<Step>, n: nat)
    requires n < |Exec(Empty, steps).orders|
    ensures exists m :: 0 <= m < |steps| && |Exec(Empty, steps[..m]).orders| == n && Backed(steps[..m], Exec(Empty, steps).orders[n].plan)
  {
    hide Exec, ShopReported, ProductReported;
    OrdersAreFenced(steps, n);
    OrderIsCommitted(steps, n);
    var o := Exec(Empty, steps).orders[n];
    var m :| 0 <= m < |steps| && |Exec(Empty, steps[..m]).orders| == n
             && o.shops == Exec(Empty, steps[..m]).shops && o.products == Exec(Empty, steps[..m]).products;
    RowsAreReported(steps[..m]);
    forall id | id in o.plan.shops
      ensures exists v :: ShopReported(steps[..m], v) && v.vendorId == id && v.version == o.plan.shops[id]
                          && v.status == "approved" && v.acceptingOrders != Some(false)
    {
      assert VendorSales.Sellable(o.shops, id, o.plan.shops[id]);
      var v :| ShopReported(steps[..m], v) && ShopShows(v, id, o.shops[id]);
    }
    forall id | id in o.plan.products
      ensures exists p :: ProductReported(steps[..m], p) && p.productId == id && p.version == o.plan.products[id] && p.visible
    {
      assert ProductSales.Visible(o.products, id, o.plan.products[id]);
      var p :| ProductReported(steps[..m], p) && ProductShows(p, id, o.products[id]);
    }
  }

  /**
    What checkout is told about a shop at any moment of a run: unknown exactly
    while nothing is held; otherwise what is held was received in some status,
    and checkout passes exactly when that status approves the shop without
    pausing its orders and has the planned version. It is told that orders are
    paused exactly when the status approves and pauses, whatever its version.
  */
  lemma ShopRefusalMeans(steps: seq<Step>, id: string, version: int)
    ensures var s := Exec(Empty, steps);
            var refusal := VendorSales.Refused(s.shops, id, version);
            && (refusal == Some(VendorSales.Synchronizing) <==> id !in s.shops)
            && (id in s.shops ==>
                  exists v :: ShopReported(steps, v) && v.vendorId == id && v.version == s.shops[id].version
                    && (refusal == None <==> v.status == "approved" && v.acceptingOrders != Some(false) && v.version == version)
                    && (refusal == Some(VendorSales.NotAcceptingOrders) <==> v.status == "approved" && v.acceptingOrders == Some(false))
                    && (refusal == Some(VendorSales.Changed) <==>
                          v.status != "approved" || (v.acceptingOrders != Some(false) && v.version != version)))
  {
    hide Exec, ShopReported;
    RowsAreReported(steps);
    var s := Exec(Empty, steps);
    if id in s.shops {
      var v :| ShopReported(steps, v) && ShopShows(v, id, s.shops[id]);
    }
  }

  /** The same for products. */
  lemma ProductRefusalMeans(steps: seq<Step>, id: string, version: int)
    ensures var s := Exec(Empty, steps);
            var refusal := ProductSales.Refused(s.products, id, version);
            && (refusal == Some(ProductSales.Synchronizing) <==> id !in s.products)
            && (id in s.products ==>
                  exists p :: ProductReported(steps, p) && p.productId == id && p.version == s.products[id].version
                    && (refusal == None <==> p.visible && p.version == version)
                    && (refusal == Some(ProductSales.Changed) <==> !p.visible || p.version != version))
  {
    hide Exec, ProductReported;
    RowsAreReported(steps);
    var s := Exec(Empty, steps);
    if id in s.products {
      var p :| ProductReported(steps, p) && ProductShows(p, id, s.products[id]);
    }
  }
}
