/** What holds over every run of owner syncs, operator commands and scans. */
module CaseSlaRuns {
  import opened Options
  import opened Deadline
  import opened CaseSla

  // ---- what one step keeps -----------------------------------------------------

  /** How the tables may have changed: nothing recorded is taken back, and nothing already sent is sent again. */
  ghost predicate Later(t: Tables, u: Tables) {
    && (forall id :: id in t.items ==> id in u.items && Moves(t.items[id], u.items[id]))
    && t.receipts <= u.receipts
    && t.outbox <= u.outbox && t.shop <= u.shop
    && (forall x :: |t.outbox| <= x < |u.outbox| ==> MarketplaceReceipt(u.outbox[x]) !in t.receipts)
    && (forall x :: |t.shop| <= x < |u.shop| ==> ShopReceipt(u.shop[x]) !in t.receipts)
    && (forall k :: k in t.commands ==> k in u.commands && u.commands[k] == t.commands[k])
  }

  function MarketplaceReceipt(n: Notice): Receipt { Receipt(n.item, n.deadlineVersion, Marketplace(n.kind)) }

  function ShopReceipt(n: ShopNotice): Receipt { Receipt(n.item, n.deadlineVersion, Shop(n.kind)) }

  lemma LaterIsTransitive(t: Tables, u: Tables, v: Tables)
    requires Later(t, u) && Later(u, v)
    ensures Later(t, v)
  {
    forall x | |t.outbox| <= x < |v.outbox| ensures MarketplaceReceipt(v.outbox[x]) !in t.receipts {
      if x < |u.outbox| { assert v.outbox[x] == u.outbox[x]; }
    }
    forall x | |t.shop| <= x < |v.shop| ensures ShopReceipt(v.shop[x]) !in t.receipts {
      if x < |u.shop| { assert v.shop[x] == u.shop[x]; }
    }
  }

  lemma Unmoved(t: Tables)
    requires ItemsOk(t)
    ensures Later(t, t)
  {}

  lemma TellShopLater(t: Tables, id: string, i: Value, kind: Kind, cfg: Config, env: Env)
    requires ItemsOk(t)
    ensures var out := TellShop(t, id, i, kind, cfg, env); out.Ok? ==> Later(t, out.value)
  {}

  lemma TellMarketplaceLater(t: Tables, id: string, i: Value, kind: Kind, cfg: Config, env: Env)
    requires ItemsOk(t)
    ensures var out := TellMarketplace(t, id, i, kind, cfg, env); out.Ok? ==> Later(t, out.value)
  {
    hide Recipients, ActiveOf, Verifiable;
  }

  lemma {:induction false} NotifyAllLater(t: Tables, id: string, i: Value, kinds: seq<Kind>, cfg: Config, env: Env)
    requires ItemsOk(t)
    ensures var out := NotifyAll(t, id, i, kinds, cfg, env); out.Ok? ==> Later(t, out.value) && out.value.items == t.items
    decreases |kinds|
  {
    hide Later, Sound, EffectiveDueAt;
    Unmoved(t);
    if kinds != [] {
      var n := |kinds| - 1;
      NotifyAllLater(t, id, i, kinds[..n], cfg, env);
      var u := NotifyAll(t, id, i, kinds[..n], cfg, env);
      if u.Ok? {
        TellShopLater(u.value, id, i, kinds[n], cfg, env);
        var v := TellShop(u.value, id, i, kinds[n], cfg, env);
        if v.Ok? {
          TellMarketplaceLater(v.value, id, i, kinds[n], cfg, env);
          LaterIsTransitive(t, u.value, v.value);
          var w := TellMarketplace(v.value, id, i, kinds[n], cfg, env);
          if w.Ok? { LaterIsTransitive(t, v.value, w.value); }
        }
      }
    }
  }

  lemma SaveLater(t: Tables, id: string, j: Value)
    requires ItemsOk(t) && Sound(j) && (id in t.items ==> Moves(t.items[id], j))
    ensures Later(t, t.(items := t.items[id := j]))
  {}

  ghost predicate Kept(t: Tables, u: Tables) { Inv(u) && Later(t, u) }

  lemma SoundItems(t: Tables)
    requires Inv(t)
    ensures ItemsOk(t)
  {}

  lemma SaveIsKept(t: Tables, id: string, j: Value)
    requires Inv(t) && Sound(j) && (id in t.items ==> Moves(t.items[id], j))
    ensures Kept(t, t.(items := t.items[id := j]))
  {
    hide Inv, Later, Sound, Moves;
    SoundItems(t);
    SaveKeeps(t, id, j);
    SaveLater(t, id, j);
  }

  /** The item one scan leaves. */
  function ScannedIn(i: Value, now: int, env: Env): Value { Scanned(i, now, Drops(i, env)) }

  lemma ScannedMoves(t: Tables, id: string, now: int, env: Env)
    requires Inv(t) && id in t.items && t.items[id].active
    ensures Sound(ScannedIn(t.items[id], now, env)) && Moves(t.items[id], ScannedIn(t.items[id], now, env))
  {
    hide Moves, Sound, Scanned;
    SoundItems(t);
    EventMoves(t.items[id], Scan(now, Drops(t.items[id], env)));
    MovesToSound(t.items[id], ScannedIn(t.items[id], now, env));
  }

  lemma MovesToSound(i: Value, j: Value)
    requires Moves(i, j)
    ensures Sound(j)
  {}

  lemma ScanItemKeeps(t: Tables, id: string, now: int, cfg: Config, env: Env)
    requires Inv(t) && id in t.items && t.items[id].active
    ensures var out := ScanItem(t, id, now, cfg, env);
            out.Ok? ==> Kept(t, out.value) && out.value.items == t.items[id := ScannedIn(t.items[id], now, env)]
  {
    hide Inv, Later, Scanned, NotifyAll, Notices, Moves, Sound;
    var s := ScannedIn(t.items[id], now, env);
    var saved := t.(items := t.items[id := s]);
    var kinds := if cfg.enabled then Notices(s, now) else [];
    ScannedMoves(t, id, now, env);
    SaveIsKept(t, id, s);
    SoundItems(saved);
    NotifyAllKeeps(saved, id, kinds, cfg, env);
    NotifyAllLater(saved, id, s, kinds, cfg, env);
    NotifyIgnoresItems(t, id, s, kinds, cfg, env, saved.items);
    SoundItems(t);
    NotifyAllLater(t, id, s, kinds, cfg, env);
    var out := NotifyAll(saved, id, s, kinds, cfg, env);
    if out.Ok? { LaterIsTransitive(t, saved, out.value); }
  }

  /** After the scan of a batch: exactly its items were scanned, each once. */
  ghost predicate ExactlyScanned(t: Tables, u: Tables, batch: seq<string>, now: int, env: Env) {
    && u.items.Keys == t.items.Keys
    && (forall id :: id in t.items ==>
          u.items[id] == if id in batch then ScannedIn(t.items[id], now, env) else t.items[id])
  }

  lemma BatchFront(t: Tables, batch: seq<string>)
    requires IsBatch(t, batch) && batch != []
    ensures var n := |batch| - 1; IsBatch(t, batch[..n]) && batch[n] !in batch[..n] && batch[n] in t.items && t.items[batch[n]].active
  {}

  lemma ExactlyScannedGrows(t: Tables, u: Tables, v: Tables, batch: seq<string>, id: string, now: int, env: Env)
    requires id !in batch && id in t.items && ExactlyScanned(t, u, batch, now, env)
    requires v.items == u.items[id := ScannedIn(u.items[id], now, env)]
    ensures ExactlyScanned(t, v, batch + [id], now, env)
  {
    hide Scanned;
  }

  lemma {:induction false} ScanAllKeeps(t: Tables, batch: seq<string>, now: int, cfg: Config, env: Env)
    requires Inv(t) && IsBatch(t, batch)
    ensures var out := ScanAll(t, batch, now, cfg, env);
            out.Ok? ==> Kept(t, out.value) && ExactlyScanned(t, out.value, batch, now, env)
    decreases |batch|
  {
    hide Inv, Later, ScanItem, IsBatch, ItemsOk, ScannedIn;
    SoundItems(t);
    Unmoved(t);
    if batch != [] {
      var n := |batch| - 1;
      BatchFront(t, batch);
      ScanAllKeeps(t, batch[..n], now, cfg, env);
      var u := ScanAll(t, batch[..n], now, cfg, env);
      if u.Ok? {
        ScanItemKeeps(u.value, batch[n], now, cfg, env);
        var v := ScanItem(u.value, batch[n], now, cfg, env);
        if v.Ok? {
          LaterIsTransitive(t, u.value, v.value);
          ExactlyScannedGrows(t, u.value, v.value, batch[..n], batch[n], now, env);
          assert batch == batch[..n] + [batch[n]];
        }
      }
    }
  }

  lemma TickKeeps(t: Tables, batch: seq<string>, now: int, cfg: Config, env: Env)
    requires Inv(t)
    ensures Kept(t, Tick(t, batch, now, cfg, env))
  {
    hide Inv, Later, ScanAll, ItemsOk;
    SoundItems(t);
    Unmoved(t);
    if IsBatch(t, batch) { ScanAllKeeps(t, batch, now, cfg, env); }
  }

  lemma SyncKeeps(t: Tables, id: string, input: StageInput)
    requires Inv(t)
    ensures Kept(t, Do(t, OwnerSync(id, input)))
  {
    hide Inv, Later, Synced, Sound, Moves, ItemsOk, New;
    SoundItems(t);
    Unmoved(t);
    if id in t.items {
      SoundItem(t, id);
      EventMoves(t.items[id], Stage(input));
      MovesToSound(t.items[id], Synced(t.items[id], input).0);
      SaveIsKept(t, id, Synced(t.items[id], input).0);
    } else {
      NewIsSound(input);
      SaveIsKept(t, id, New(input));
    }
  }

  lemma SoundItem(t: Tables, id: string)
    requires Inv(t) && id in t.items
    ensures Sound(t.items[id])
  {}

  /** A command that succeeds raises the version it was issued for. */
  lemma ActedMoves(i: Value, action: Action, m: Mutation, now: int, ownerAccepts: bool)
    requires Sound(i)
    ensures var out := Acted(i, action, m, now, ownerAccepts);
            out.Ok? ==> Moves(i, out.value) && out.value.version == i.version + 1
  {
    hide Moves, Sound, ThreeQuarters;
    EventMoves(i, Assignment(if m.assigneeId == "" then None else Some(m.assigneeId)));
    EventMoves(i, Extension(now, m.newDueAt));
    EventMoves(i, Activation);
    EventMoves(i, Replay);
  }

  lemma CommandKeeps(t: Tables, k: CommandKey, c: Command)
    requires Inv(t) && k.item in t.items && k !in t.commands
    requires c.request.expectedVersion == t.items[k.item].version && Moves(t.items[k.item], c.response) && c.response.version == t.items[k.item].version + 1
    ensures Kept(t, t.(items := t.items[k.item := c.response], commands := t.commands[k := c]))
  {
    hide OutboxOk, ShopOk, ReceiptsOk, ItemsOk, CommandsOk, Sound, Moves;
    MovesToSound(t.items[k.item], c.response);
    SaveIsKept(t, k.item, c.response);
    var saved := t.(items := t.items[k.item := c.response]);
    var u := saved.(commands := t.commands[k := c]);
    SameTablesButCommands(saved, u);
    CommandIsNew(t, saved, k, c);
  }

  lemma CommandIsNew(t: Tables, saved: Tables, k: CommandKey, c: Command)
    requires CommandsOk(t) && CommandsOk(saved) && saved.commands == t.commands && k !in t.commands
    requires k.item in t.items && k.item in saved.items
    requires c.request.expectedVersion == t.items[k.item].version < saved.items[k.item].version
    ensures CommandsOk(saved.(commands := t.commands[k := c]))
  {}

  lemma SameTablesButCommands(t: Tables, u: Tables)
    requires u.items == t.items && u.receipts == t.receipts && u.outbox == t.outbox && u.shop == t.shop
    ensures OutboxOk(t) ==> OutboxOk(u)
    ensures ShopOk(t) ==> ShopOk(u)
    ensures ReceiptsOk(t) ==> ReceiptsOk(u)
    ensures ItemsOk(t) ==> ItemsOk(u)
  {
    if OutboxOk(t) {
      forall x | 0 <= x < |u.outbox| ensures NoticeBacked(u, u.outbox[x]) { assert NoticeBacked(t, t.outbox[x]); }
    }
  }

  lemma MutateKeeps(t: Tables, k: CommandKey, m: Mutation, now: int, ownerAccepts: bool)
    requires Inv(t)
    ensures Kept(t, Mutate(t, k, m, now, ownerAccepts).0)
  {
    hide Inv, Later, Acted, Sound, Moves, ItemsOk;
    SoundItems(t);
    Unmoved(t);
    if k.item in t.items && k !in t.commands {
      var i := t.items[k.item];
      SoundItem(t, k.item);
      ActedMoves(i, k.action, m, now, ownerAccepts);
      var out := Acted(i, k.action, m, now, ownerAccepts);
      if i.active && i.version == m.expectedVersion && out.Ok? {
        CommandKeeps(t, k, Command(m, out.value));
      }
    }
  }

  lemma StepKeeps(t: Tables, step: Step)
    requires Inv(t)
    ensures Kept(t, Do(t, step))
  {
    hide Inv, Later, Sync, Mutate, Tick;
    match step
    case OwnerSync(id, input) => SyncKeeps(t, id, input);
    case Operator(k, m, now, ok) => MutateKeeps(t, k, m, now, ok);
    case ScanStep(batch, now, cfg, env) => TickKeeps(t, batch, now, cfg, env);
  }

  lemma {:induction false} RunKeeps(t: Tables, steps: seq<Step>)
    requires Inv(t)
    ensures Kept(t, Exec(t, steps))
    decreases |steps|
  {
    hide Inv, Later, Do, ItemsOk;
    if steps == [] {
      SoundItems(t);
      Unmoved(t);
    } else {
      StepKeeps(t, steps[0]);
      RunKeeps(Do(t, steps[0]), steps[1..]);
      LaterIsTransitive(t, Do(t, steps[0]), Exec(t, steps));
    }
  }

  lemma EveryRun(steps: seq<Step>)
    ensures Inv(Exec(Empty, steps))
  {
    hide Exec, Do;
    RunKeeps(Empty, steps);
  }

  // ---- main results ------------------------------------------------------------

  /**
    Whatever owners, operators and scans do: no user is sent the same kind of
    notice for the same deadline version twice; all notices of one deadline
    version name the same stage and deadline; the shop is told of a reminder
    and of an overdue deadline at most once each, and never of an escalation.
  */
  lemma OneNoticePerDeadline(steps: seq<Step>)
    ensures var t := Exec(Empty, steps);
            && (forall x, y :: 0 <= x < y < |t.outbox| ==> !SameNotice(t.outbox[x], t.outbox[y]))
            && (forall x, y :: 0 <= x < |t.outbox| && 0 <= y < |t.outbox| ==> SameDeadline(t.outbox[x], t.outbox[y]))
            && (forall x, y :: 0 <= x < y < |t.shop| ==> t.shop[x] != t.shop[y])
            && (forall x :: 0 <= x < |t.shop| ==> !t.shop[x].kind.Escalation?)
  {
    hide Exec;
    EveryRun(steps);
  }

  /** Once one scan has sent a kind of notice for a deadline version, no later step sends it again, to anyone. */
  lemma SentOnlyOnce(steps: seq<Step>, more: seq<Step>, n: Notice)
    requires n in Exec(Empty, steps).outbox
    ensures var t := Exec(Empty, steps);
            var u := Exec(t, more);
            t.outbox <= u.outbox && forall x :: |t.outbox| <= x < |u.outbox| ==> MarketplaceReceipt(u.outbox[x]) != MarketplaceReceipt(n)
  {
    hide Exec;
    EveryRun(steps);
    var t := Exec(Empty, steps);
    RunKeeps(t, more);
    var x :| 0 <= x < |t.outbox| && t.outbox[x] == n;
    assert NoticeBacked(t, t.outbox[x]);
  }

  /** At most one command ever succeeds against one version of one item. */
  lemma OneCommandPerVersion(steps: seq<Step>, k: CommandKey, l: CommandKey)
    requires var t := Exec(Empty, steps);
             && k in t.commands && l in t.commands && k != l && k.item == l.item
    ensures var t := Exec(Empty, steps); t.commands[k].request.expectedVersion != t.commands[l].request.expectedVersion
  {
    hide Exec;
    EveryRun(steps);
  }

  /**
    A command repeated under its key at any later time, whatever happened in
    between, returns the stored result and changes nothing.
  */
  lemma RepeatedCommandChangesNothing(steps: seq<Step>, k: CommandKey, m: Mutation, now: int, accepts: bool, more: seq<Step>, again: int, acceptsAgain: bool)
    requires Mutate(Exec(Empty, steps), k, m, now, accepts).1.Ok?
    ensures var first := Mutate(Exec(Empty, steps), k, m, now, accepts);
            var u := Exec(first.0, more);
            Mutate(u, k, m, again, acceptsAgain) == (u, first.1)
  {
    hide Exec, Acted, Inv;
    EveryRun(steps);
    var t := Exec(Empty, steps);
    var first := Mutate(t, k, m, now, accepts);
    MutateKeeps(t, k, m, now, accepts);
    assert k in first.0.commands && first.0.commands[k] == Command(m, first.1.value);
    ItemOfCommand(first.0, k);
    RunKeeps(first.0, more);
  }

  lemma ItemOfCommand(t: Tables, k: CommandKey)
    requires Inv(t) && k in t.commands
    ensures k.item in t.items
  {}

  /** The same key with another request is refused for good. */
  lemma ReusedKeyIsRefused(steps: seq<Step>, k: CommandKey, more: seq<Step>, m: Mutation, now: int, accepts: bool)
    requires k in Exec(Empty, steps).commands && m != Exec(Empty, steps).commands[k].request
    ensures var u := Exec(Exec(Empty, steps), more); Mutate(u, k, m, now, accepts) == (u, Err(KeyReused))
  {
    hide Exec, Acted, Inv;
    EveryRun(steps);
    ItemOfCommand(Exec(Empty, steps), k);
    RunKeeps(Exec(Empty, steps), more);
  }
}
