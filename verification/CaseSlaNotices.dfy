/** Who is told of which deadline by a scan, and when a scan fails. */
module CaseSlaNotices {
  import opened Options
  import opened Deadline
  import opened CaseSla
  import opened CaseSlaRuns

  // ---- one kind of notice for one item -----------------------------------------------

  function NoticeTo(id: string, i: Value, kind: Kind, user: string): Notice {
    Notice(id, i.deadlineVersion, kind, user, i.stage, EffectiveDueAt(i))
  }

  /** A notice about item `id` to someone who should hear of it, not sent for this deadline version before. */
  ghost predicate Rightful(t: Tables, n: Notice, id: string, i: Value, cfg: Config, env: Env) {
    && n == NoticeTo(id, i, n.kind, n.user) && ShouldHear(i, n.kind, n.user, cfg, env)
    && Receipt(id, i.deadlineVersion, Marketplace(n.kind)) !in t.receipts
  }

  /** A new receipt stands for notices to everyone who should hear, or for an answer of the shop's hook. */
  ghost predicate Honoured(u: Tables, r: Receipt, id: string, i: Value, cfg: Config, env: Env) {
    && r.item == id && r.deadlineVersion == i.deadlineVersion
    && match r.kind
       case Marketplace(kind) =>
         && (exists user :: ShouldHear(i, kind, user, cfg, env))
         && (forall user :: ShouldHear(i, kind, user, cfg, env) ==> NoticeTo(id, i, kind, user) in u.outbox)
       case Shop(kind) => cfg.tellsShop && i.waitingOn == "vendor" && !kind.Escalation? && env.hook(id, kind)
  }

  /** The marketplace was told, now or before, unless nobody should hear; so was the shop if it had to be; every recipient was checked. */
  ghost predicate Settled(u: Tables, id: string, i: Value, kind: Kind, cfg: Config, env: Env) {
    && (Receipt(id, i.deadlineVersion, Marketplace(kind)) in u.receipts || forall user :: !ShouldHear(i, kind, user, cfg, env))
    && (cfg.tellsShop && i.waitingOn == "vendor" && !kind.Escalation? ==> Receipt(id, i.deadlineVersion, Shop(kind)) in u.receipts)
    && (forall user :: Listed(i, kind, user, cfg) ==> env.verdict(user) != Unavailable)
  }

  /** A notice cannot be sent: some recipient cannot be checked, or the shop has to be told first and its hook refuses. */
  ghost predicate Stuck(t: Tables, id: string, i: Value, kind: Kind, cfg: Config, env: Env) {
    || (exists user :: Listed(i, kind, user, cfg) && env.verdict(user) == Unavailable)
    || (cfg.tellsShop && i.waitingOn == "vendor" && !kind.Escalation?
        && Receipt(id, i.deadlineVersion, Shop(kind)) !in t.receipts && !env.hook(id, kind))
  }

  ghost predicate Sent(t: Tables, u: Tables, id: string, i: Value, kinds: seq<Kind>, cfg: Config, env: Env) {
    && t.outbox <= u.outbox && t.receipts <= u.receipts
    && (forall x :: |t.outbox| <= x < |u.outbox| ==> u.outbox[x].kind in kinds && Rightful(t, u.outbox[x], id, i, cfg, env))
    && (forall r :: r in u.receipts && r !in t.receipts ==> r.kind.kind in kinds && Honoured(u, r, id, i, cfg, env))
    && (forall kind :: kind in kinds ==> Settled(u, id, i, kind, cfg, env))
  }

  lemma Checked(i: Value, kind: Kind, cfg: Config, env: Env)
    ensures Verifiable(Recipients(cfg, i, kind), env) <==> forall user :: Listed(i, kind, user, cfg) ==> env.verdict(user) != Unavailable
    ensures ActiveOf(Recipients(cfg, i, kind), env) == [] <==> forall user :: !ShouldHear(i, kind, user, cfg, env)
  {
    hide Recipients, Listed, ShouldHear, ActiveOf;
    var ids, active := Recipients(cfg, i, kind), ActiveOf(Recipients(cfg, i, kind), env);
    forall user ensures (user in ids <==> Listed(i, kind, user, cfg)) && (user in active <==> ShouldHear(i, kind, user, cfg, env)) {
      RecipientsAreListed(cfg, i, kind, env, user);
    }
    if Verifiable(ids, env) {
      forall user | Listed(i, kind, user, cfg) ensures env.verdict(user) != Unavailable {
        var x :| 0 <= x < |ids| && ids[x] == user;
      }
    }
    assert forall x :: 0 <= x < |ids| ==> ids[x] in ids;
    if active != [] { assert active[0] in active; }
  }

  lemma MarketplaceSends(t: Tables, id: string, i: Value, kind: Kind, cfg: Config, env: Env)
    ensures var out := TellMarketplace(t, id, i, kind, cfg, env);
            && (out.Err? <==> exists user :: Listed(i, kind, user, cfg) && env.verdict(user) == Unavailable)
            && (out.Ok? ==>
                  var u := out.value;
                  && t.outbox <= u.outbox && t.receipts <= u.receipts && u.shop == t.shop
                  && (forall x :: |t.outbox| <= x < |u.outbox| ==> u.outbox[x].kind == kind && Rightful(t, u.outbox[x], id, i, cfg, env))
                  && (forall r :: r in u.receipts && r !in t.receipts ==> r.kind == Marketplace(kind) && Honoured(u, r, id, i, cfg, env))
                  && (Receipt(id, i.deadlineVersion, Marketplace(kind)) in u.receipts || forall user :: !ShouldHear(i, kind, user, cfg, env)))
  {
    hide Verifiable, ActiveOf, Recipients, Listed, ShouldHear, EffectiveDueAt;
    Checked(i, kind, cfg, env);
    var out := TellMarketplace(t, id, i, kind, cfg, env);
    if out.Ok? && out.value != t {
      var active, u := ActiveOf(Recipients(cfg, i, kind), env), out.value;
      forall user ensures user in active <==> ShouldHear(i, kind, user, cfg, env) { RecipientsAreListed(cfg, i, kind, env, user); }
      forall user | ShouldHear(i, kind, user, cfg, env) ensures NoticeTo(id, i, kind, user) in u.outbox {
        var x :| 0 <= x < |active| && active[x] == user;
        assert u.outbox[|t.outbox| + x] == NoticeTo(id, i, kind, user);
      }
      forall x | |t.outbox| <= x < |u.outbox| ensures u.outbox[x].kind == kind && Rightful(t, u.outbox[x], id, i, cfg, env) {
        assert active[x - |t.outbox|] in active;
      }
    }
  }

  lemma NotifySends(t: Tables, id: string, i: Value, kind: Kind, cfg: Config, env: Env)
    ensures var out := Notify(t, id, i, kind, cfg, env);
            && (out.Err? <==> Stuck(t, id, i, kind, cfg, env))
            && (out.Ok? ==> Sent(t, out.value, id, i, [kind], cfg, env))
  {
    hide TellShop, TellMarketplace, Listed, ShouldHear, EffectiveDueAt;
    ShopIsToldOnce(t, id, i, kind, cfg, env, env);
    var told := TellShop(t, id, i, kind, cfg, env);
    if told.Ok? { MarketplaceSends(told.value, id, i, kind, cfg, env); }
  }

  // ---- all kinds of one item ----------------------------------------------------------

  lemma NothingSent(t: Tables, id: string, i: Value, cfg: Config, env: Env)
    ensures Sent(t, t, id, i, [], cfg, env)
  {}

  lemma SentCompose(t: Tables, u: Tables, v: Tables, id: string, i: Value, a: seq<Kind>, b: seq<Kind>, cfg: Config, env: Env)
    requires Sent(t, u, id, i, a, cfg, env) && Sent(u, v, id, i, b, cfg, env)
    ensures Sent(t, v, id, i, a + b, cfg, env)
  {
    hide Listed, ShouldHear, EffectiveDueAt;
    forall x | |t.outbox| <= x < |v.outbox| ensures v.outbox[x].kind in a + b && Rightful(t, v.outbox[x], id, i, cfg, env) {
      if x < |u.outbox| { assert v.outbox[x] == u.outbox[x]; } else { assert Rightful(u, v.outbox[x], id, i, cfg, env); }
    }
    forall r | r in v.receipts && r !in t.receipts ensures r.kind.kind in a + b && Honoured(v, r, id, i, cfg, env) {
      if r in u.receipts { assert Honoured(u, r, id, i, cfg, env); }
    }
    forall kind | kind in a + b ensures Settled(v, id, i, kind, cfg, env) {
      if kind in a { assert Settled(u, id, i, kind, cfg, env); }
    }
  }

  /** What was sent for other kinds neither causes nor removes an obstacle. */
  lemma StuckStays(t: Tables, u: Tables, id: string, i: Value, kinds: seq<Kind>, kind: Kind, cfg: Config, env: Env)
    requires Sent(t, u, id, i, kinds, cfg, env)
    ensures Stuck(t, id, i, kind, cfg, env) <==> Stuck(u, id, i, kind, cfg, env)
  {
    hide Listed, ShouldHear, EffectiveDueAt, Settled, Rightful;
    var r := Receipt(id, i.deadlineVersion, Shop(kind));
    if r in u.receipts && r !in t.receipts { assert Honoured(u, r, id, i, cfg, env); }
  }

  lemma {:induction false} NotifyAllSends(t: Tables, id: string, i: Value, kinds: seq<Kind>, cfg: Config, env: Env)
    ensures var out := NotifyAll(t, id, i, kinds, cfg, env);
            && (out.Err? <==> exists kind :: kind in kinds && Stuck(t, id, i, kind, cfg, env))
            && (out.Ok? ==> Sent(t, out.value, id, i, kinds, cfg, env))
    decreases |kinds|
  {
    hide Notify, Sent, Stuck;
    if kinds == [] {
      NothingSent(t, id, i, cfg, env);
    } else {
      var n := |kinds| - 1;
      NotifyAllSends(t, id, i, kinds[..n], cfg, env);
      assert kinds == kinds[..n] + [kinds[n]];
      var u := NotifyAll(t, id, i, kinds[..n], cfg, env);
      if u.Ok? {
        NotifySends(u.value, id, i, kinds[n], cfg, env);
        StuckStays(t, u.value, id, i, kinds[..n], kinds[n], cfg, env);
        var v := Notify(u.value, id, i, kinds[n], cfg, env);
        if v.Ok? { SentCompose(t, u.value, v.value, id, i, kinds[..n], [kinds[n]], cfg, env); }
      }
    }
  }

  // ---- a batch -----------------------------------------------------------------------

  /** The kinds of notice a scan owes an item. */
  function Owing(i: Value, now: int, cfg: Config): seq<Kind> { if cfg.enabled then Notices(i, now) else [] }

  /** An item keeps the whole scan back: its assignee cannot be checked, or a notice it is owed cannot be sent. */
  ghost predicate Blocked(t: Tables, id: string, now: int, cfg: Config, env: Env)
    requires id in t.items
  {
    || (t.items[id].assignee.Some? && env.verdict(t.items[id].assignee.value) == Unavailable)
    || (exists kind :: kind in Owing(ScannedIn(t.items[id], now, env), now, cfg) && Stuck(t, id, ScannedIn(t.items[id], now, env), kind, cfg, env))
  }

  /** What scanning the batch sent; the items are those of before the scan. */
  ghost predicate ScanSent(t: Tables, u: Tables, batch: seq<string>, now: int, cfg: Config, env: Env)
    requires forall id :: id in batch ==> id in t.items
  {
    && t.outbox <= u.outbox && t.receipts <= u.receipts
    && (forall x :: |t.outbox| <= x < |u.outbox| ==>
          var n := u.outbox[x];
          && n.item in batch && n.kind in Owing(ScannedIn(t.items[n.item], now, env), now, cfg)
          && Rightful(t, n, n.item, ScannedIn(t.items[n.item], now, env), cfg, env))
    && (forall r :: r in u.receipts && r !in t.receipts ==>
          && r.item in batch && r.kind.kind in Owing(ScannedIn(t.items[r.item], now, env), now, cfg)
          && Honoured(u, r, r.item, ScannedIn(t.items[r.item], now, env), cfg, env))
    && (forall id, kind :: id in batch && kind in Owing(ScannedIn(t.items[id], now, env), now, cfg) ==>
          Settled(u, id, ScannedIn(t.items[id], now, env), kind, cfg, env))
  }

  lemma ScanSentGrows(t: Tables, u: Tables, v: Tables, batch: seq<string>, id: string, now: int, cfg: Config, env: Env)
    requires (forall x :: x in batch ==> x in t.items) && id in t.items && id !in batch
    requires ScanSent(t, u, batch, now, cfg, env)
    requires Sent(u, v, id, ScannedIn(t.items[id], now, env), Owing(ScannedIn(t.items[id], now, env), now, cfg), cfg, env)
    ensures ScanSent(t, v, batch + [id], now, cfg, env)
  {
    hide Listed, ShouldHear, EffectiveDueAt, ScannedIn, Owing;
    var s := ScannedIn(t.items[id], now, env);
    forall x | |t.outbox| <= x < |v.outbox|
      ensures var n := v.outbox[x];
              && n.item in batch + [id] && n.kind in Owing(ScannedIn(t.items[n.item], now, env), now, cfg)
              && Rightful(t, n, n.item, ScannedIn(t.items[n.item], now, env), cfg, env)
    {
      if x < |u.outbox| { assert v.outbox[x] == u.outbox[x]; } else { assert Rightful(u, v.outbox[x], id, s, cfg, env); }
    }
    forall r | r in v.receipts && r !in t.receipts
      ensures r.item in batch + [id] && r.kind.kind in Owing(ScannedIn(t.items[r.item], now, env), now, cfg)
           && Honoured(v, r, r.item, ScannedIn(t.items[r.item], now, env), cfg, env)
    {
      if r in u.receipts { assert Honoured(u, r, r.item, ScannedIn(t.items[r.item], now, env), cfg, env); }
    }
    forall x, kind | x in batch + [id] && kind in Owing(ScannedIn(t.items[x], now, env), now, cfg)
      ensures Settled(v, x, ScannedIn(t.items[x], now, env), kind, cfg, env)
    {
      if x in batch { assert Settled(u, x, ScannedIn(t.items[x], now, env), kind, cfg, env); }
    }
  }

  /** The items scanned before neither block another one nor free it. */
  lemma BlockedStays(t: Tables, u: Tables, batch: seq<string>, id: string, now: int, cfg: Config, env: Env)
    requires (forall x :: x in batch ==> x in t.items) && id in t.items && id in u.items && u.items[id] == t.items[id] && id !in batch
    requires ScanSent(t, u, batch, now, cfg, env)
    ensures Blocked(t, id, now, cfg, env) <==> Blocked(u, id, now, cfg, env)
  {
    hide Listed, ShouldHear, EffectiveDueAt, ScannedIn, Owing, Settled, Rightful;
    var s := ScannedIn(t.items[id], now, env);
    forall kind ensures Stuck(t, id, s, kind, cfg, env) <==> Stuck(u, id, s, kind, cfg, env) {
      var r := Receipt(id, s.deadlineVersion, Shop(kind));
      assert r in u.receipts ==> r in t.receipts;
    }
  }

  lemma ScanItemSends(t: Tables, id: string, now: int, cfg: Config, env: Env)
    requires id in t.items
    ensures var out := ScanItem(t, id, now, cfg, env);
            var s := ScannedIn(t.items[id], now, env);
            && (out.Err? <==> Blocked(t, id, now, cfg, env))
            && (out.Ok? ==> Sent(t, out.value, id, s, Owing(s, now, cfg), cfg, env))
  {
    hide NotifyAll, Stuck, Settled, Notices, Scanned, Rightful, Listed, ShouldHear, EffectiveDueAt;
    var s := ScannedIn(t.items[id], now, env);
    NotifyAllSends(t, id, s, Owing(s, now, cfg), cfg, env);
    var out := NotifyAll(t, id, s, Owing(s, now, cfg), cfg, env);
    if out.Ok? { SavingSendsNothing(t, out.value, id, s, Owing(s, now, cfg), cfg, env); }
  }

  lemma SavingSendsNothing(t: Tables, u: Tables, id: string, i: Value, kinds: seq<Kind>, cfg: Config, env: Env)
    requires Sent(t, u, id, i, kinds, cfg, env)
    ensures Sent(t, u.(items := u.items[id := i]), id, i, kinds, cfg, env)
  {
    hide Listed, ShouldHear, EffectiveDueAt;
    var v := u.(items := u.items[id := i]);
    forall r | r in v.receipts && r !in t.receipts ensures r.kind.kind in kinds && Honoured(v, r, id, i, cfg, env) { assert Honoured(u, r, id, i, cfg, env); }
    forall kind | kind in kinds ensures Settled(v, id, i, kind, cfg, env) { assert Settled(u, id, i, kind, cfg, env); }
  }

  lemma {:induction false} ScanAllSends(t: Tables, batch: seq<string>, now: int, cfg: Config, env: Env)
    requires Inv(t) && IsBatch(t, batch)
    ensures var out := ScanAll(t, batch, now, cfg, env);
            && (out.Err? <==> exists id :: id in batch && Blocked(t, id, now, cfg, env))
            && (out.Ok? ==> ScanSent(t, out.value, batch, now, cfg, env))
    decreases |batch|
  {
    hide Inv, IsBatch, ScanItem, ScannedIn, Owing, Blocked, ScanSent, Sent, Later;
    if batch == [] {
      NothingScanned(t, now, cfg, env);
    } else {
      var n := |batch| - 1;
      BatchFront(t, batch);
      ScanAllSends(t, batch[..n], now, cfg, env);
      ScanAllKeeps(t, batch[..n], now, cfg, env);
      assert batch == batch[..n] + [batch[n]];
      var u := ScanAll(t, batch[..n], now, cfg, env);
      InTable(t, batch[..n]);
      if u.Ok? {
        BlockedStays(t, u.value, batch[..n], batch[n], now, cfg, env);
        ScanItemSends(u.value, batch[n], now, cfg, env);
        var v := ScanItem(u.value, batch[n], now, cfg, env);
        if v.Ok? { ScanSentGrows(t, u.value, v.value, batch[..n], batch[n], now, cfg, env); }
      }
    }
  }

  lemma InTable(t: Tables, batch: seq<string>)
    requires IsBatch(t, batch)
    ensures forall id :: id in batch ==> id in t.items
  {}

  lemma NothingScanned(t: Tables, now: int, cfg: Config, env: Env)
    ensures ScanSent(t, t, [], now, cfg, env)
  {}

  // ---- main results -------------------------------------------------------------------

  /** The deadline that counts: never past the outer limit, which alone counts while the buyer is waited for. */
  function Counting(i: Value): int { if i.pausedAt == None then Min(i.dueAt, i.overallDueAt) else i.overallDueAt }

  /** A running item with notices is owed a reminder before its deadline, and from then on the overdue notice and one escalation a day for three days. */
  predicate Owed(i: Value, kind: Kind, now: int) {
    && i.active && !i.legacy
    && match kind
       case Reminder => i.pausedAt == None && i.reminderAt <= now < Counting(i)
       case Overdue => Counting(i) <= now
       case Escalation(step) => 1 <= step <= 3 && Counting(i) + step * 86_400_000_000_000 <= now
  }

  lemma OwedIsOwing(i: Value, kind: Kind, now: int, cfg: Config)
    ensures kind in Owing(i, now, cfg) <==> cfg.enabled && Owed(i, kind, now)
    ensures Counting(i) == EffectiveDueAt(i)
  {
    hide Notices;
    NoticesIff(i, now, if kind.Escalation? then kind.step else 0);
  }

  /** What a scan writes to an item: a lost assignee, a missed deadline, and attention after three days. */
  predicate ScannedTo(i: Value, j: Value, now: int, env: Env) {
    var dropped := i.assignee.Some? && env.verdict(i.assignee.value) == InactiveAdmin;
    && j == i.(assignee := j.assignee, version := j.version, breachedAt := j.breachedAt, needsAttention := j.needsAttention)
    && j.assignee == (if dropped then None else i.assignee) && j.version == (if dropped then i.version + 1 else i.version)
    && j.breachedAt == (if i.breachedAt == None && now >= Counting(i) then Some(Counting(i)) else i.breachedAt)
    && j.needsAttention == (i.needsAttention || now >= Counting(i) + 259_200_000_000_000)
  }

  lemma ScannedIsTo(i: Value, now: int, env: Env)
    ensures ScannedTo(i, ScannedIn(i, now, env), now, env)
  {}

  /**
    Exactly who hears of what, after every history: a scan that commits has
    sent, for each of its items, each notice then owed and not yet sent for
    this deadline version, to each active administrator it is meant for, and
    nothing to anybody else; the notices name the item's stage and deadline. A
    kind counts as sent only once somebody was told.
  */
  lemma ScanTellsExactly(steps: seq<Step>, batch: seq<string>, now: int, cfg: Config, env: Env, id: string, kind: Kind, user: string)
    requires var t := Exec(Empty, steps); IsBatch(t, batch) && ScanAll(t, batch, now, cfg, env).Ok? && id in t.items
    ensures var t := Exec(Empty, steps);
            var u := Do(t, ScanStep(batch, now, cfg, env));
            && id in u.items && t.outbox <= u.outbox
            && (if id in batch then ScannedTo(t.items[id], u.items[id], now, env) else u.items[id] == t.items[id])
            && var i := u.items[id];
               var news := u.outbox[|t.outbox|..];
               && (Notice(id, i.deadlineVersion, kind, user, i.stage, Counting(i)) in news
                   <==> && id in batch && cfg.enabled && Owed(i, kind, now) && ShouldHear(i, kind, user, cfg, env)
                        && Receipt(id, i.deadlineVersion, Marketplace(kind)) !in t.receipts)
               && (forall n :: n in news && n.item == id ==> n == Notice(id, i.deadlineVersion, n.kind, n.user, i.stage, Counting(i)))
               && (Receipt(id, i.deadlineVersion, Marketplace(kind)) in u.receipts
                   <==> || Receipt(id, i.deadlineVersion, Marketplace(kind)) in t.receipts
                        || (id in batch && cfg.enabled && Owed(i, kind, now) && exists x :: ShouldHear(i, kind, x, cfg, env)))
               && (Receipt(id, i.deadlineVersion, Shop(kind)) in u.receipts
                   <==> || Receipt(id, i.deadlineVersion, Shop(kind)) in t.receipts
                        || (id in batch && cfg.enabled && Owed(i, kind, now) && cfg.tellsShop && i.waitingOn == "vendor" && !kind.Escalation?))
  {
    hide Exec, Inv, IsBatch, ScanAll, ScannedIn, Owing, Owed, Listed, ShouldHear, Counting, EffectiveDueAt, ScannedTo, Later;
    var t := Exec(Empty, steps);
    EveryRun(steps);
    ScanAllKeeps(t, batch, now, cfg, env);
    ScanAllSends(t, batch, now, cfg, env);
    InTable(t, batch);
    ScannedIsTo(t.items[id], now, env);
    var u := ScanAll(t, batch, now, cfg, env).value;
    assert Do(t, ScanStep(batch, now, cfg, env)) == u;
    var i, news := u.items[id], u.outbox[|t.outbox|..];
    OwedIsOwing(i, kind, now, cfg);
    SentToBatch(t, u, batch, now, cfg, env);
    ReceiptsStand(t, u, batch, now, cfg, env, id, kind);
    if id in batch && cfg.enabled && Owed(i, kind, now) && ShouldHear(i, kind, user, cfg, env) && Receipt(id, i.deadlineVersion, Marketplace(kind)) !in t.receipts {
      OwedIsSent(t, u, batch, now, cfg, env, id, kind, user);
    }
  }

  lemma ReceiptsStand(t: Tables, u: Tables, batch: seq<string>, now: int, cfg: Config, env: Env, id: string, kind: Kind)
    requires (forall x :: x in batch ==> x in t.items) && ScanSent(t, u, batch, now, cfg, env) && id in t.items
    ensures var s := ScannedIn(t.items[id], now, env);
            var told, shop := Receipt(id, s.deadlineVersion, Marketplace(kind)), Receipt(id, s.deadlineVersion, Shop(kind));
            var owing := id in batch && kind in Owing(s, now, cfg);
            && (told in u.receipts <==> told in t.receipts || (owing && exists x :: ShouldHear(s, kind, x, cfg, env)))
            && (shop in u.receipts <==> shop in t.receipts || (owing && cfg.tellsShop && s.waitingOn == "vendor" && !kind.Escalation?))
  {
    hide ScannedIn, Owing, ShouldHear, Listed, EffectiveDueAt, Rightful;
    var s := ScannedIn(t.items[id], now, env);
    var told, shop := Receipt(id, s.deadlineVersion, Marketplace(kind)), Receipt(id, s.deadlineVersion, Shop(kind));
    assert told in u.receipts && told !in t.receipts ==> Honoured(u, told, id, s, cfg, env);
    assert shop in u.receipts && shop !in t.receipts ==> Honoured(u, shop, id, s, cfg, env);
    if id in batch && kind in Owing(s, now, cfg) { assert Settled(u, id, s, kind, cfg, env); }
  }

  /** Everything new is about an item of the batch, as it is after the scan. */
  lemma SentToBatch(t: Tables, u: Tables, batch: seq<string>, now: int, cfg: Config, env: Env)
    requires (forall id :: id in batch ==> id in t.items) && ScanSent(t, u, batch, now, cfg, env)
    ensures forall n :: n in u.outbox[|t.outbox|..] ==>
              && n.item in batch && n.kind in Owing(ScannedIn(t.items[n.item], now, env), now, cfg)
              && Rightful(t, n, n.item, ScannedIn(t.items[n.item], now, env), cfg, env)
  {
    hide Rightful, ScannedIn, Owing;
    forall n | n in u.outbox[|t.outbox|..]
      ensures n.item in batch && n.kind in Owing(ScannedIn(t.items[n.item], now, env), now, cfg)
              && Rightful(t, n, n.item, ScannedIn(t.items[n.item], now, env), cfg, env)
    {
      var x :| 0 <= x < |u.outbox| - |t.outbox| && u.outbox[|t.outbox|..][x] == n;
      assert u.outbox[|t.outbox| + x] == n;
    }
  }

  lemma OwedIsSent(t: Tables, u: Tables, batch: seq<string>, now: int, cfg: Config, env: Env, id: string, kind: Kind, user: string)
    requires Inv(t) && (forall x :: x in batch ==> x in t.items) && ScanSent(t, u, batch, now, cfg, env) && id in batch
    requires var s := ScannedIn(t.items[id], now, env);
             && kind in Owing(s, now, cfg) && ShouldHear(s, kind, user, cfg, env)
             && Receipt(id, s.deadlineVersion, Marketplace(kind)) !in t.receipts
    ensures NoticeTo(id, ScannedIn(t.items[id], now, env), kind, user) in u.outbox[|t.outbox|..]
  {
    hide ScannedIn, Owing, ShouldHear, EffectiveDueAt, Rightful;
    var s := ScannedIn(t.items[id], now, env);
    var r := Receipt(id, s.deadlineVersion, Marketplace(kind));
    assert Settled(u, id, s, kind, cfg, env);
    assert Honoured(u, r, id, s, cfg, env);
    var n := NoticeTo(id, s, kind, user);
    forall x | 0 <= x < |t.outbox| ensures MarketplaceReceipt(t.outbox[x]) in t.receipts { assert NoticeBacked(t, t.outbox[x]); }
    var x :| 0 <= x < |u.outbox| && u.outbox[x] == n;
    assert MarketplaceReceipt(u.outbox[x]) == r;
    assert u.outbox[|t.outbox|..][x - |t.outbox|] == n;
  }

  /** An item keeps the whole scan back: its assignee cannot be checked, or something it is owed cannot be sent. */
  ghost predicate HoldsBack(t: Tables, id: string, now: int, cfg: Config, env: Env)
    requires id in t.items
  {
    || (exists user :: t.items[id].assignee == Some(user) && env.verdict(user) == Unavailable)
    || (exists i, kind :: ScannedTo(t.items[id], i, now, env) && cfg.enabled && Owed(i, kind, now) && Stuck(t, id, i, kind, cfg, env))
  }

  lemma HoldsBackIsBlocked(t: Tables, id: string, now: int, cfg: Config, env: Env)
    requires id in t.items
    ensures HoldsBack(t, id, now, cfg, env) <==> Blocked(t, id, now, cfg, env)
  {
    var s := ScannedIn(t.items[id], now, env);
    hide Owed, Owing, Stuck, ScannedIn, ScannedTo;
    ScannedIsTo(t.items[id], now, env);
    forall i | ScannedTo(t.items[id], i, now, env) ensures i == s { ScannedOnce(t.items[id], i, s, now, env); }
    forall kind ensures kind in Owing(s, now, cfg) <==> cfg.enabled && Owed(s, kind, now) { OwedIsOwing(s, kind, now, cfg); }
    if HoldsBack(t, id, now, cfg, env) && !(exists user :: t.items[id].assignee == Some(user) && env.verdict(user) == Unavailable) {
      var i, kind :| ScannedTo(t.items[id], i, now, env) && cfg.enabled && Owed(i, kind, now) && Stuck(t, id, i, kind, cfg, env);
      assert kind in Owing(s, now, cfg) && Stuck(t, id, s, kind, cfg, env);
    }
    if exists kind :: kind in Owing(s, now, cfg) && Stuck(t, id, s, kind, cfg, env) {
      var kind :| kind in Owing(s, now, cfg) && Stuck(t, id, s, kind, cfg, env);
      assert ScannedTo(t.items[id], s, now, env) && cfg.enabled && Owed(s, kind, now) && Stuck(t, id, s, kind, cfg, env);
    }
  }

  lemma ScannedOnce(i: Value, j: Value, k: Value, now: int, env: Env)
    requires ScannedTo(i, j, now, env) && ScannedTo(i, k, now, env)
    ensures j == k
  {}

  /**
    After every history a scan fails, and then changes nothing, exactly when
    for some item of its batch an assignee or someone a notice is meant for
    cannot be checked, or the shop must first be told and its hook refuses.
  */
  lemma ScanFailsIff(steps: seq<Step>, batch: seq<string>, now: int, cfg: Config, env: Env)
    requires IsBatch(Exec(Empty, steps), batch)
    ensures var t := Exec(Empty, steps);
            && (ScanAll(t, batch, now, cfg, env).Err? <==> exists id :: id in batch && HoldsBack(t, id, now, cfg, env))
            && (ScanAll(t, batch, now, cfg, env).Err? ==> Do(t, ScanStep(batch, now, cfg, env)) == t)
  {
    hide Exec, Inv, IsBatch, ScanAll, Blocked, HoldsBack;
    EveryRun(steps);
    var t := Exec(Empty, steps);
    InTable(t, batch);
    ScanAllSends(t, batch, now, cfg, env);
    forall id | id in batch ensures HoldsBack(t, id, now, cfg, env) <==> Blocked(t, id, now, cfg, env) { HoldsBackIsBlocked(t, id, now, cfg, env); }
  }

  /**
    A scan that commits leaves every scanned item's breach recorded and every
    notice then owed settled: the shop told, and whoever should hear told now
    or before, after every one it is meant for was checked.
  */
  lemma ScanMissesNothing(t: Tables, batch: seq<string>, now: int, cfg: Config, env: Env, id: string)
    requires Inv(t) && IsBatch(t, batch) && id in batch && ScanAll(t, batch, now, cfg, env).Ok?
    ensures var u := Tick(t, batch, now, cfg, env);
            && id in u.items && ScannedTo(t.items[id], u.items[id], now, env)
            && (now >= Counting(u.items[id]) ==> u.items[id].breachedAt.Some?)
            && (forall kind :: cfg.enabled && Owed(u.items[id], kind, now) ==> Settled(u, id, u.items[id], kind, cfg, env))
  {
    hide Inv, Settled, ScanAll, Notices, Owed, ScannedIn, Owing;
    ScanAllKeeps(t, batch, now, cfg, env);
    ScanAllSends(t, batch, now, cfg, env);
    InTable(t, batch);
    ScannedIsTo(t.items[id], now, env);
    var u := ScanAll(t, batch, now, cfg, env).value;
    forall kind | cfg.enabled && Owed(u.items[id], kind, now) ensures Settled(u, id, u.items[id], kind, cfg, env) {
      OwedIsOwing(u.items[id], kind, now, cfg);
    }
  }
}
