/** The tables updated in place: one method call is one transaction. */
module CaseSlaStore {
  import opened Options
  import opened Deadline
  import opened CaseSla
  import Texts

  // ---- the scan's recipient check, asked once per user and batch -----------------

  ghost predicate Remembers(checked: map<string, bool>, env: Env) {
    forall u :: u in checked ==> !env.verdict(u).Unavailable? && (checked[u] <==> env.verdict(u).ActiveAdmin?)
  }

  method IsActive(id: string, env: Env, checked: map<string, bool>) returns (ok: Option<bool>, seen: map<string, bool>)
    requires Remembers(checked, env)
    ensures Remembers(seen, env)
    ensures ok == if env.verdict(id).Unavailable? then None else Some(env.verdict(id).ActiveAdmin?)
  {
    seen := checked;
    if id in checked {
      return Some(checked[id]), seen;
    }
    var answer := env.verdict(id);
    if answer.Unavailable? {
      return None, seen;
    }
    seen := checked[id := answer.ActiveAdmin?];
    return Some(answer.ActiveAdmin?), seen;
  }

  method ActiveAmong(ids: seq<string>, env: Env, checked: map<string, bool>)
    returns (valid: Option<seq<string>>, seen: map<string, bool>)
    requires Remembers(checked, env)
    ensures Remembers(seen, env)
    ensures valid == if Verifiable(ids, env) then Some(ActiveOf(ids, env)) else None
  {
    hide Remembers;
    seen := checked;
    var found: seq<string> := [];
    for n := 0 to |ids|
      invariant Remembers(seen, env)
      invariant found == ActiveOf(ids[..n], env)
      invariant Verifiable(ids[..n], env)
    {
      var ok;
      ok, seen := IsActive(ids[n], env, seen);
      if ok.None? {
        return None, seen;
      }
      assert ids[..n + 1][..n] == ids[..n];
      if ok.value {
        found := found + [ids[n]];
      }
    }
    assert ids[..|ids|] == ids;
    return Some(found), seen;
  }

  // ---- what one item's scan sends ----------------------------------------------------

  /** Tells the shop; CaseSla.ShopIsToldOnce says what that leaves. */
  method Tell(t: Tables, id: string, i: Value, kind: Kind, cfg: Config, env: Env) returns (r: Result<Tables, Failure>)
    ensures r == TellShop(t, id, i, kind, cfg, env)
    ensures r.Ok? && ShopIsOwed(i, kind, cfg) ==> Receipt(id, i.deadlineVersion, Shop(kind)) in r.value.receipts
    ensures r.Ok? ==> t.shop <= r.value.shop && |r.value.shop| <= |t.shop| + 1 && r.value == t.(receipts := r.value.receipts, shop := r.value.shop)
  {
    if !cfg.tellsShop || i.waitingOn != "vendor" || kind.Escalation? {
      return Ok(t);
    }
    var receipt := Receipt(id, i.deadlineVersion, Shop(kind));
    if receipt in t.receipts {
      return Ok(t);
    }
    if !env.hook(id, kind) {
      return Err(HookFailed);
    }
    return Ok(t.(receipts := t.receipts + {receipt}, shop := t.shop + [ShopNotice(id, i.deadlineVersion, kind)]));
  }

  method Enqueue(outbox: seq<Notice>, id: string, i: Value, kind: Kind, users: seq<string>) returns (grown: seq<Notice>)
    ensures grown == outbox + NoticesFor(id, i, kind, users)
  {
    hide EffectiveDueAt;
    grown := outbox;
    var due := EffectiveDueAt(i);
    for n := 0 to |users|
      invariant |grown| == |outbox| + n
      invariant grown == outbox + NoticesFor(id, i, kind, users)[..n]
    {
      grown := grown + [Notice(id, i.deadlineVersion, kind, users[n], i.stage, due)];
    }
  }

  method SendOne(t: Tables, id: string, i: Value, kind: Kind, cfg: Config, env: Env, checked: map<string, bool>)
    returns (r: Result<Tables, Failure>, seen: map<string, bool>)
    requires Remembers(checked, env)
    ensures Remembers(seen, env)
    ensures r == Notify(t, id, i, kind, cfg, env)
  {
    hide Remembers, Verifiable, ActiveOf, TellShop, NoticesFor;
    seen := checked;
    r := Tell(t, id, i, kind, cfg, env);
    if r.Err? {
      return;
    }
    var told := r.value;
    var recipients := cfg.onCall;
    if i.assignee.Some? {
      recipients := [i.assignee.value];
    }
    if !kind.Reminder? {
      recipients := recipients + cfg.escalation;
    }
    assert recipients == (if i.assignee.Some? then [i.assignee.value] else cfg.onCall) + (if kind.Reminder? then [] else cfg.escalation);
    var valid;
    valid, seen := ActiveAmong(Texts.SortedSet(recipients), env, seen);
    if valid.None? {
      return Err(VerificationFailed), seen;
    }
    var receipt := Receipt(id, i.deadlineVersion, Marketplace(kind));
    if valid.value == [] || receipt in told.receipts {
      return;
    }
    var outbox := Enqueue(told.outbox, id, i, kind, valid.value);
    r := Ok(told.(receipts := told.receipts + {receipt}, outbox := outbox));
  }

  method SendAll(t: Tables, id: string, i: Value, kinds: seq<Kind>, cfg: Config, env: Env, checked: map<string, bool>)
    returns (r: Result<Tables, Failure>, seen: map<string, bool>)
    requires Remembers(checked, env)
    ensures Remembers(seen, env)
    ensures r == NotifyAll(t, id, i, kinds, cfg, env)
  {
    hide Remembers, Notify;
    seen := checked;
    r := Ok(t);
    for n := 0 to |kinds|
      invariant Remembers(seen, env)
      invariant r.Ok? && r == NotifyAll(t, id, i, kinds[..n], cfg, env)
    {
      assert kinds[..n + 1][..n] == kinds[..n];
      r, seen := SendOne(r.value, id, i, kinds[n], cfg, env, seen);
      if r.Err? {
        FailureStays(t, id, i, kinds, n + 1, cfg, env);
        return;
      }
    }
    assert kinds[..|kinds|] == kinds;
  }

  lemma {:induction false} FailureStays(t: Tables, id: string, i: Value, kinds: seq<Kind>, n: nat, cfg: Config, env: Env)
    requires n <= |kinds| && NotifyAll(t, id, i, kinds[..n], cfg, env).Err?
    ensures NotifyAll(t, id, i, kinds, cfg, env) == NotifyAll(t, id, i, kinds[..n], cfg, env)
    decreases |kinds|
  {
    if n == |kinds| {
      assert kinds[..n] == kinds;
    } else {
      assert kinds[..|kinds| - 1][..n] == kinds[..n];
      FailureStays(t, id, i, kinds[..|kinds| - 1], n, cfg, env);
    }
  }

  method ScanOne(t: Tables, id: string, now: int, cfg: Config, env: Env, checked: map<string, bool>)
    returns (r: Result<Tables, Failure>, seen: map<string, bool>)
    requires Remembers(checked, env) && id in t.items
    ensures Remembers(seen, env)
    ensures r == ScanItem(t, id, now, cfg, env)
  {
    hide Remembers, Scanned, Notices, NotifyAll, EffectiveDueAt;
    seen := checked;
    var i := new Item.Load(t.items[id]);
    var drop := false;
    if i.assignee.Some? {
      var ok;
      ok, seen := IsActive(i.assignee.value, env, seen);
      if ok.None? {
        return Err(VerificationFailed), seen;
      }
      drop := !ok.value;
    }
    i.RecordScan(now, drop);
    var kinds: seq<Kind> := [];
    if cfg.enabled {
      kinds := i.NoticesDue(now);
    }
    r, seen := SendAll(t, id, i.Val(), kinds, cfg, env, seen);
    if r.Ok? {
      r := Ok(r.value.(items := r.value.items[id := i.Val()]));
    }
  }

  method ScanBatch(t: Tables, batch: seq<string>, now: int, cfg: Config, env: Env) returns (r: Result<Tables, Failure>)
    requires forall x :: 0 <= x < |batch| ==> batch[x] in t.items
    ensures r == ScanAll(t, batch, now, cfg, env)
  {
    hide Remembers, ScanItem;
    var seen: map<string, bool> := map[];
    assert Remembers(seen, env) by { NothingRemembered(env); }
    r := Ok(t);
    for n := 0 to |batch|
      invariant Remembers(seen, env)
      invariant r.Ok? && r == ScanAll(t, batch[..n], now, cfg, env)
      invariant r.value.items.Keys == t.items.Keys
    {
      assert batch[..n + 1][..n] == batch[..n];
      ScanItemKeepsKeys(r.value, batch[n], now, cfg, env);
      r, seen := ScanOne(r.value, batch[n], now, cfg, env, seen);
      if r.Err? {
        BatchFailureStays(t, batch, n + 1, now, cfg, env);
        return;
      }
    }
    assert batch[..|batch|] == batch;
  }

  lemma NothingRemembered(env: Env)
    ensures Remembers(map[], env)
  {}

  lemma ScanItemKeepsKeys(t: Tables, id: string, now: int, cfg: Config, env: Env)
    requires id in t.items
    ensures var out := ScanItem(t, id, now, cfg, env); out.Ok? ==> out.value.items.Keys == t.items.Keys
  {
    hide Scanned, NotifyAll, Notices;
    var s := Scanned(t.items[id], now, Drops(t.items[id], env));
    NotifyLeavesItems(t, id, s, if cfg.enabled then Notices(s, now) else [], cfg, env);
  }

  lemma {:induction false} NotifyLeavesItems(t: Tables, id: string, i: Value, kinds: seq<Kind>, cfg: Config, env: Env)
    ensures var out := NotifyAll(t, id, i, kinds, cfg, env); out.Ok? ==> out.value.items == t.items
    decreases |kinds|
  {
    hide Recipients, ActiveOf, Verifiable, NoticesFor;
    if kinds != [] { NotifyLeavesItems(t, id, i, kinds[..|kinds| - 1], cfg, env); }
  }

  lemma {:induction false} BatchFailureStays(t: Tables, batch: seq<string>, n: nat, now: int, cfg: Config, env: Env)
    requires n <= |batch| && ScanAll(t, batch[..n], now, cfg, env).Err?
    ensures ScanAll(t, batch, now, cfg, env) == ScanAll(t, batch[..n], now, cfg, env)
    decreases |batch|
  {
    hide ScanItem;
    if n == |batch| {
      assert batch[..n] == batch;
    } else {
      assert batch[..|batch| - 1][..n] == batch[..n];
      BatchFailureStays(t, batch[..|batch| - 1], n, now, cfg, env);
    }
  }

  // ---- the store ---------------------------------------------------------------------

  class Store {
    var items: map<string, Value>
    var receipts: set<Receipt>
    var outbox: seq<Notice>
    var shop: seq<ShopNotice>
    var commands: map<CommandKey, Command>

    function Now(): Tables
      reads this
    {
      Tables(items, receipts, outbox, shop, commands)
    }

    constructor ()
      ensures Now() == Empty
    {
      items, receipts, outbox, shop, commands := map[], {}, [], [], map[];
    }

    /** An owner's write about the item's stage. */
    method SyncStage(id: string, input: StageInput) returns (r: Result<(), SyncError>)
      modifies this
      ensures r.Ok? <==> Sync(old(Now()), id, input).Ok?
      ensures Now() == Do(old(Now()), OwnerSync(id, input))
    {
      hide New, Apply;
      if input.at == ZERO_TIME || input.createdAt == ZERO_TIME {
        return Err(MissingTimestamps);
      }
      if id !in items {
        if input.stage != "" {
          var created := new Item(input);
          items := items[id := created.Val()];
        }
        return Ok(());
      }
      var i := new Item.Load(items[id]);
      var changed := i.ApplyInput(input);
      if input.assignmentChanged {
        i.Assign(input.assignee);
        changed := true;
      }
      if changed {
        items := items[id := i.Val()];
      }
      return Ok(());
    }

    /** An operator's command, remembered under its key. */
    method MutateItem(k: CommandKey, m: Mutation, now: int, ownerAccepts: bool) returns (r: Result<Value, MutateError>)
      modifies this
      ensures (Now(), r) == Mutate(old(Now()), k, m, now, ownerAccepts)
    {
      hide CanExtend, Extend;
      if k.item !in items {
        return Err(NotFound);
      }
      if k in commands {
        if commands[k].request != m {
          return Err(KeyReused);
        }
        return Ok(commands[k].response);
      }
      var i := new Item.Load(items[k.item]);
      if !i.active || i.version != m.expectedVersion {
        return Err(StageChanged);
      }
      match k.action {
        case Assignments =>
          i.Assign(if m.assigneeId == "" then None else Some(m.assigneeId));
          if !ownerAccepts {
            return Err(OwnerRefused);
          }
        case Extensions =>
          var ok := i.ExtendTo(now, m.newDueAt);
          if !ok {
            return Err(InvalidExtension);
          }
        case Activations =>
          if !i.legacy {
            return Err(AlreadyActive);
          }
          i.legacy, i.version := false, i.version + 1;
        case NoticeReplays =>
          i.version := i.version + 1;
        case UnknownAction =>
          return Err(InvalidAction);
      }
      items := items[k.item := i.Val()];
      commands := commands[k := Command(m, i.Val())];
      return Ok(i.Val());
    }

    /** One scan: every item of the batch, or none when a check or the shop's hook fails. */
    method ScanDue(batch: seq<string>, now: int, cfg: Config, env: Env) returns (ok: bool)
      requires IsBatch(Now(), batch)
      modifies this
      ensures ok <==> ScanAll(old(Now()), batch, now, cfg, env).Ok?
      ensures Now() == Tick(old(Now()), batch, now, cfg, env)
    {
      hide ScanAll;
      var r := ScanBatch(Now(), batch, now, cfg, env);
      if r.Err? {
        return false;
      }
      items, receipts, outbox, shop, commands := r.value.items, r.value.receipts, r.value.outbox, r.value.shop, r.value.commands;
      return true;
    }
  }
}
