/**
  Case deadlines as stored: owners sync stages, operators issue idempotent
  commands, and a scanner sends notices once per deadline version. Each call
  is one transaction over the tables.
*/
module CaseSla {
  import opened Options
  import opened Deadline
  import Texts

  datatype ReceiptKind = Marketplace(kind: Kind) | Shop(kind: Kind)

  /** Primary key (work_item_id, deadline_version, reminder_kind). */
  datatype Receipt = Receipt(item: string, deadlineVersion: int, kind: ReceiptKind)

  datatype Notice = Notice(item: string, deadlineVersion: int, kind: Kind, user: string, stage: string, dueAt: int)

  datatype ShopNotice = ShopNotice(item: string, deadlineVersion: int, kind: Kind)

  datatype Action = Assignments | Extensions | Activations | NoticeReplays | UnknownAction

  datatype Mutation = Mutation(expectedVersion: int, reason: string, assigneeId: string, newDueAt: int)

  datatype CommandKey = CommandKey(actor: string, item: string, action: Action, key: string)

  datatype Command = Command(request: Mutation, response: Value)

  datatype Tables = Tables(
    items: map<string, Value>, receipts: set<Receipt>,
    outbox: seq<Notice>, shop: seq<ShopNotice>, commands: map<CommandKey, Command>)

  const Empty := Tables(map[], {}, [], [], map[])

  datatype Config = Config(enabled: bool, onCall: seq<string>, escalation: seq<string>, tellsShop: bool)

  datatype Verdict = ActiveAdmin | InactiveAdmin | Unavailable

  /** What the identity service and the owner's shop hook answer during one scan. */
  datatype Env = Env(verdict: string -> Verdict, hook: (string, Kind) -> bool)

  datatype Failure = VerificationFailed | HookFailed

  // ---- the scan ----------------------------------------------------------------

  function Recipients(cfg: Config, i: Value, kind: Kind): seq<string> {
    Texts.SortedSet((if i.assignee.Some? then [i.assignee.value] else cfg.onCall) + (if kind.Reminder? then [] else cfg.escalation))
  }

  function ActiveOf(ids: seq<string>, env: Env): seq<string>
    decreases |ids|
  {
    if ids == [] then []
    else
      var n := |ids| - 1;
      ActiveOf(ids[..n], env) + (if env.verdict(ids[n]).ActiveAdmin? then [ids[n]] else [])
  }

  predicate Verifiable(ids: seq<string>, env: Env) {
    forall x :: 0 <= x < |ids| ==> !env.verdict(ids[x]).Unavailable?
  }

  function NoticesFor(id: string, i: Value, kind: Kind, users: seq<string>): seq<Notice> {
    seq(|users|, x requires 0 <= x < |users| => Notice(id, i.deadlineVersion, kind, users[x], i.stage, EffectiveDueAt(i)))
  }

  function TellShop(t: Tables, id: string, i: Value, kind: Kind, cfg: Config, env: Env): Result<Tables, Failure> {
    var r := Receipt(id, i.deadlineVersion, Shop(kind));
    if !cfg.tellsShop || i.waitingOn != "vendor" || kind.Escalation? || r in t.receipts then Ok(t)
    else if !env.hook(id, kind) then Err(HookFailed)
    else Ok(t.(receipts := t.receipts + {r}, shop := t.shop + [ShopNotice(id, i.deadlineVersion, kind)]))
  }

  function TellMarketplace(t: Tables, id: string, i: Value, kind: Kind, cfg: Config, env: Env): Result<Tables, Failure> {
    var ids := Recipients(cfg, i, kind);
    var r := Receipt(id, i.deadlineVersion, Marketplace(kind));
    if !Verifiable(ids, env) then Err(VerificationFailed)
    else if ActiveOf(ids, env) == [] || r in t.receipts then Ok(t)
    else Ok(t.(receipts := t.receipts + {r}, outbox := t.outbox + NoticesFor(id, i, kind, ActiveOf(ids, env))))
  }

  function Notify(t: Tables, id: string, i: Value, kind: Kind, cfg: Config, env: Env): Result<Tables, Failure> {
    match TellShop(t, id, i, kind, cfg, env)
    case Err(e) => Err(e)
    case Ok(u) => TellMarketplace(u, id, i, kind, cfg, env)
  }

  function NotifyAll(t: Tables, id: string, i: Value, kinds: seq<Kind>, cfg: Config, env: Env): Result<Tables, Failure>
    decreases |kinds|
  {
    if kinds == [] then Ok(t)
    else
      var n := |kinds| - 1;
      match NotifyAll(t, id, i, kinds[..n], cfg, env)
      case Err(e) => Err(e)
      case Ok(u) => Notify(u, id, i, kinds[n], cfg, env)
  }

  predicate Drops(i: Value, env: Env) { i.assignee.Some? && env.verdict(i.assignee.value).InactiveAdmin? }

  function ScanItem(t: Tables, id: string, now: int, cfg: Config, env: Env): Result<Tables, Failure>
    requires id in t.items
  {
    var i := t.items[id];
    if i.assignee.Some? && env.verdict(i.assignee.value).Unavailable? then Err(VerificationFailed)
    else
      var s := Scanned(i, now, Drops(i, env));
      match NotifyAll(t, id, s, if cfg.enabled then Notices(s, now) else [], cfg, env)
      case Err(e) => Err(e)
      case Ok(u) => Ok(u.(items := u.items[id := s]))
  }

  /** The rows one scan locked: active, each once, at most a hundred. */
  predicate IsBatch(t: Tables, batch: seq<string>) {
    && |batch| <= 100
    && (forall x :: 0 <= x < |batch| ==> batch[x] in t.items && t.items[batch[x]].active)
    && (forall x, y :: 0 <= x < y < |batch| ==> batch[x] != batch[y])
  }

  function ScanAll(t: Tables, batch: seq<string>, now: int, cfg: Config, env: Env): Result<Tables, Failure>
    decreases |batch|
  {
    if batch == [] then Ok(t)
    else
      var n := |batch| - 1;
      match ScanAll(t, batch[..n], now, cfg, env)
      case Err(e) => Err(e)
      case Ok(u) => if batch[n] in u.items then ScanItem(u, batch[n], now, cfg, env) else Ok(u)
  }

  /** A scan commits as a whole or not at all. */
  function Tick(t: Tables, batch: seq<string>, now: int, cfg: Config, env: Env): Tables {
    if !IsBatch(t, batch) then t
    else
      match ScanAll(t, batch, now, cfg, env)
      case Err(_) => t
      case Ok(u) => u
  }

  // ---- owners and operators --------------------------------------------------------

  const ZERO_TIME: int := -62_135_596_800 * 1_000_000_000

  datatype SyncError = MissingTimestamps

  function Sync(t: Tables, id: string, input: StageInput): Result<Tables, SyncError> {
    if input.at == ZERO_TIME || input.createdAt == ZERO_TIME then Err(MissingTimestamps)
    else if id !in t.items then
      if input.stage == "" then Ok(t) else Ok(t.(items := t.items[id := New(input)]))
    else
      var (v, changed) := Synced(t.items[id], input);
      if changed then Ok(t.(items := t.items[id := v])) else Ok(t)
  }

  datatype MutateError = NotFound | KeyReused | StageChanged | InvalidExtension | AlreadyActive | InvalidAction | OwnerRefused

  /** The item a valid command leaves. */
  function Acted(i: Value, action: Action, m: Mutation, now: int, ownerAccepts: bool): Result<Value, MutateError> {
    match action
    case Assignments =>
      if !ownerAccepts then Err(OwnerRefused)
      else Ok(After(i, Assignment(if m.assigneeId == "" then None else Some(m.assigneeId))))
    case Extensions => if CanExtend(i, now, m.newDueAt) then Ok(After(i, Extension(now, m.newDueAt))) else Err(InvalidExtension)
    case Activations => if i.legacy then Ok(After(i, Activation)) else Err(AlreadyActive)
    case NoticeReplays => Ok(After(i, Replay))
    case UnknownAction => Err(InvalidAction)
  }

  function Mutate(t: Tables, k: CommandKey, m: Mutation, now: int, ownerAccepts: bool): (Tables, Result<Value, MutateError>) {
    if k.item !in t.items then (t, Err(NotFound))
    else if k in t.commands then
      (t, if t.commands[k].request == m then Ok(t.commands[k].response) else Err(KeyReused))
    else
      var i := t.items[k.item];
      if !i.active || i.version != m.expectedVersion then (t, Err(StageChanged))
      else
        match Acted(i, k.action, m, now, ownerAccepts)
        case Err(e) => (t, Err(e))
        case Ok(v) => (t.(items := t.items[k.item := v], commands := t.commands[k := Command(m, v)]), Ok(v))
  }

  // ---- runs ------------------------------------------------------------------------

  datatype Step =
    | OwnerSync(id: string, input: StageInput)
    | Operator(k: CommandKey, m: Mutation, now: int, ownerAccepts: bool)
    | ScanStep(batch: seq<string>, now: int, cfg: Config, env: Env)

  function Do(t: Tables, step: Step): Tables {
    match step
    case OwnerSync(id, input) => (match Sync(t, id, input) case Ok(u) => u case Err(_) => t)
    case Operator(k, m, now, ok) => Mutate(t, k, m, now, ok).0
    case ScanStep(batch, now, cfg, env) => Tick(t, batch, now, cfg, env)
  }

  function Exec(t: Tables, steps: seq<Step>): Tables
    decreases |steps|
  {
    if steps == [] then t else Exec(Do(t, steps[0]), steps[1..])
  }

  // ---- one notice per deadline -------------------------------------------------------

  ghost predicate NoticeBacked(t: Tables, n: Notice) {
    && Receipt(n.item, n.deadlineVersion, Marketplace(n.kind)) in t.receipts
    && n.item in t.items && n.deadlineVersion <= t.items[n.item].deadlineVersion
    && (n.deadlineVersion == t.items[n.item].deadlineVersion ==>
          n.stage == t.items[n.item].stage && n.dueAt == EffectiveDueAt(t.items[n.item]))
  }

  ghost predicate SameNotice(a: Notice, b: Notice) {
    a.item == b.item && a.deadlineVersion == b.deadlineVersion && a.kind == b.kind && a.user == b.user
  }

  ghost predicate SameDeadline(a: Notice, b: Notice) {
    a.item == b.item && a.deadlineVersion == b.deadlineVersion ==> a.stage == b.stage && a.dueAt == b.dueAt
  }

  ghost predicate OutboxOk(t: Tables) {
    && (forall x :: 0 <= x < |t.outbox| ==> NoticeBacked(t, t.outbox[x]))
    && (forall x, y :: 0 <= x < y < |t.outbox| ==> !SameNotice(t.outbox[x], t.outbox[y]))
    && (forall x, y :: 0 <= x < |t.outbox| && 0 <= y < |t.outbox| ==> SameDeadline(t.outbox[x], t.outbox[y]))
  }

  ghost predicate ShopOk(t: Tables) {
    && (forall x :: 0 <= x < |t.shop| ==>
          Receipt(t.shop[x].item, t.shop[x].deadlineVersion, Shop(t.shop[x].kind)) in t.receipts && !t.shop[x].kind.Escalation?)
    && (forall x, y :: 0 <= x < y < |t.shop| ==> t.shop[x] != t.shop[y])
  }

  ghost predicate ReceiptsOk(t: Tables) {
    forall r :: r in t.receipts ==> r.item in t.items && r.deadlineVersion <= t.items[r.item].deadlineVersion
  }

  ghost predicate CommandsOk(t: Tables) {
    && (forall k :: k in t.commands ==> k.item in t.items && t.commands[k].request.expectedVersion < t.items[k.item].version)
    && (forall k, l :: k in t.commands && l in t.commands && k != l && k.item == l.item ==>
          t.commands[k].request.expectedVersion != t.commands[l].request.expectedVersion)
  }

  ghost predicate ItemsOk(t: Tables) {
    forall id :: id in t.items ==> Sound(t.items[id])
  }

  ghost predicate Inv(t: Tables) {
    ItemsOk(t) && OutboxOk(t) && ShopOk(t) && ReceiptsOk(t) && CommandsOk(t)
  }

  /** A new value for one item that keeps its deadline version's meaning. */
  ghost predicate Moves(i: Value, j: Value) {
    && Sound(j) && i.version <= j.version && i.deadlineVersion <= j.deadlineVersion
    && (j.deadlineVersion == i.deadlineVersion ==> ViewOf(j) == ViewOf(i))
  }

  lemma SaveKeeps(t: Tables, id: string, j: Value)
    requires Inv(t) && Sound(j) && (id in t.items ==> Moves(t.items[id], j))
    ensures Inv(t.(items := t.items[id := j]))
  {
    var u := t.(items := t.items[id := j]);
    forall x | 0 <= x < |u.outbox| ensures NoticeBacked(u, u.outbox[x]) {
      assert NoticeBacked(t, t.outbox[x]);
    }
  }

  lemma EventMoves(i: Value, e: Event)
    requires Sound(i)
    ensures Moves(i, After(i, e))
  {
    hide After;
    EventPins(i, e);
    EventKeepsSound(i, e);
  }

  lemma {:induction false} ActiveIsSublist(ids: seq<string>, env: Env)
    requires Texts.Ascending(ids)
    ensures Texts.Ascending(ActiveOf(ids, env))
    ensures forall u :: u in ActiveOf(ids, env) <==> u in ids && env.verdict(u).ActiveAdmin?
    decreases |ids|
  {
    if ids != [] {
      var n := |ids| - 1;
      ActiveIsSublist(ids[..n], env);
      var front := ActiveOf(ids[..n], env);
      forall x | 0 <= x < |front| ensures Texts.Less(front[x], ids[n]) {
        assert front[x] in front;
      }
      assert ids == ids[..n] + [ids[n]];
    }
  }

  ghost predicate Distinct(users: seq<string>) {
    forall x, y :: 0 <= x < y < |users| ==> users[x] != users[y]
  }

  /** No recipient is listed twice, however the configured lists overlap. */
  lemma RecipientsAreDistinct(cfg: Config, i: Value, kind: Kind, env: Env)
    ensures Distinct(ActiveOf(Recipients(cfg, i, kind), env))
  {
    var all := (if i.assignee.Some? then [i.assignee.value] else cfg.onCall) + (if kind.Reminder? then [] else cfg.escalation);
    Texts.SortedSetAscends(all);
    ActiveIsSublist(Recipients(cfg, i, kind), env);
    var users := ActiveOf(Recipients(cfg, i, kind), env);
    forall x, y | 0 <= x < y < |users| ensures users[x] != users[y] {
      Texts.LessIsAsymmetric(users[x], users[y]);
    }
  }

  /** Whom a notice is meant for: the assignee, or whoever is on call when there is none; and the escalation list, but not for a reminder. */
  predicate Listed(i: Value, kind: Kind, user: string, cfg: Config) {
    i.assignee == Some(user) || (i.assignee == None && user in cfg.onCall) || (kind != Reminder && user in cfg.escalation)
  }

  /** Of those, the active administrators. */
  predicate ShouldHear(i: Value, kind: Kind, user: string, cfg: Config, env: Env) {
    Listed(i, kind, user, cfg) && env.verdict(user) == ActiveAdmin
  }

  lemma RecipientsAreListed(cfg: Config, i: Value, kind: Kind, env: Env, user: string)
    ensures user in Recipients(cfg, i, kind) <==> Listed(i, kind, user, cfg)
    ensures user in ActiveOf(Recipients(cfg, i, kind), env) <==> ShouldHear(i, kind, user, cfg, env)
  {
    Texts.SortedSetAscends((if i.assignee.Some? then [i.assignee.value] else cfg.onCall) + (if kind.Reminder? then [] else cfg.escalation));
    ActiveIsSublist(Recipients(cfg, i, kind), env);
  }

  /** The shop must hear of a reminder or overdue deadline of a stage waiting on it. */
  predicate ShopIsOwed(i: Value, kind: Kind, cfg: Config) { cfg.tellsShop && i.waitingOn == "vendor" && !kind.Escalation? }

  /**
    What telling the shop means: it fails exactly when the shop is owed a first
    notice and the hook refuses; otherwise an owed receipt is there afterwards,
    one notice was added exactly if it was not there before, nothing else
    changed, and telling again, whatever the hook would answer, changes nothing.
  */
  lemma ShopIsToldOnce(t: Tables, id: string, i: Value, kind: Kind, cfg: Config, env: Env, again: Env)
    ensures var out := TellShop(t, id, i, kind, cfg, env);
            var r := Receipt(id, i.deadlineVersion, Shop(kind));
            var owed := ShopIsOwed(i, kind, cfg);
            && (out.Err? <==> owed && r !in t.receipts && !env.hook(id, kind))
            && (out.Ok? ==>
                  var u := out.value;
                  && u == t.(receipts := u.receipts, shop := u.shop)
                  && u.receipts == (if owed then t.receipts + {r} else t.receipts)
                  && u.shop == t.shop + (if owed && r !in t.receipts then [ShopNotice(id, i.deadlineVersion, kind)] else [])
                  && TellShop(u, id, i, kind, cfg, again) == Ok(u))
  {
    var r := Receipt(id, i.deadlineVersion, Shop(kind));
    assert t.shop + [] == t.shop;
    if r in t.receipts { assert t.receipts + {r} == t.receipts; }
  }

  lemma ShopKeeps(t: Tables, id: string, kind: Kind, cfg: Config, env: Env)
    requires Inv(t) && id in t.items
    ensures TellShop(t, id, t.items[id], kind, cfg, env).Ok? ==>
              Inv(TellShop(t, id, t.items[id], kind, cfg, env).value) && TellShop(t, id, t.items[id], kind, cfg, env).value.items == t.items
  {
    var i := t.items[id];
    var out := TellShop(t, id, i, kind, cfg, env);
    if out.Ok? && out.value != t {
      var u := out.value;
      forall x | 0 <= x < |u.outbox| ensures NoticeBacked(u, u.outbox[x]) {
        assert NoticeBacked(t, t.outbox[x]);
      }
    }
  }

  lemma NewNotices(t: Tables, u: Tables, id: string, i: Value, kind: Kind, users: seq<string>)
    requires OutboxOk(t) && id in t.items && t.items[id] == i && u.items == t.items
    requires Distinct(users)
    requires Receipt(id, i.deadlineVersion, Marketplace(kind)) !in t.receipts
    requires u.receipts == t.receipts + {Receipt(id, i.deadlineVersion, Marketplace(kind))}
    requires u.outbox == t.outbox + NoticesFor(id, i, kind, users)
    ensures OutboxOk(u)
  {
    var n := |t.outbox|;
    forall x | 0 <= x < |u.outbox| ensures NoticeBacked(u, u.outbox[x]) {
      if x < n { assert NoticeBacked(t, t.outbox[x]); }
    }
    forall x, y | 0 <= x < y < |u.outbox| ensures !SameNotice(u.outbox[x], u.outbox[y]) {
      if x < n { assert NoticeBacked(t, t.outbox[x]); }
    }
    forall x, y | 0 <= x < |u.outbox| && 0 <= y < |u.outbox| ensures SameDeadline(u.outbox[x], u.outbox[y]) {
      assert NoticeBacked(u, u.outbox[x]) && NoticeBacked(u, u.outbox[y]);
      if x < n && y < n { assert SameDeadline(t.outbox[x], t.outbox[y]); }
    }
  }

  lemma MarketplaceKeeps(t: Tables, id: string, kind: Kind, cfg: Config, env: Env)
    requires Inv(t) && id in t.items
    ensures var out := TellMarketplace(t, id, t.items[id], kind, cfg, env); out.Ok? ==> Inv(out.value) && out.value.items == t.items
  {
    var i := t.items[id];
    var out := TellMarketplace(t, id, i, kind, cfg, env);
    if out.Ok? && out.value != t {
      hide Distinct, Recipients, ActiveOf;
      RecipientsAreDistinct(cfg, i, kind, env);
      NewNotices(t, out.value, id, i, kind, ActiveOf(Recipients(cfg, i, kind), env));
    }
  }

  lemma {:induction false} NotifyAllKeeps(t: Tables, id: string, kinds: seq<Kind>, cfg: Config, env: Env)
    requires Inv(t) && id in t.items
    ensures var out := NotifyAll(t, id, t.items[id], kinds, cfg, env); out.Ok? ==> Inv(out.value) && out.value.items == t.items
    decreases |kinds|
  {
    hide Inv, TellShop, TellMarketplace;
    if kinds != [] {
      var n := |kinds| - 1;
      NotifyAllKeeps(t, id, kinds[..n], cfg, env);
      var u := NotifyAll(t, id, t.items[id], kinds[..n], cfg, env);
      if u.Ok? {
        ShopKeeps(u.value, id, kinds[n], cfg, env);
        var v := TellShop(u.value, id, t.items[id], kinds[n], cfg, env);
        if v.Ok? { MarketplaceKeeps(v.value, id, kinds[n], cfg, env); }
      }
    }
  }

  function WithItems(r: Result<Tables, Failure>, items: map<string, Value>): Result<Tables, Failure> {
    match r case Ok(u) => Ok(u.(items := items)) case Err(e) => Err(e)
  }

  lemma NotifyIgnoresItemsOnce(t: Tables, id: string, i: Value, kind: Kind, cfg: Config, env: Env, items: map<string, Value>)
    ensures Notify(t.(items := items), id, i, kind, cfg, env) == WithItems(Notify(t, id, i, kind, cfg, env), items)
  {
    hide Recipients, ActiveOf, Verifiable, EffectiveDueAt;
  }

  /** Notifying first and saving after, as the scan does, equals saving first and notifying after. */
  lemma {:induction false} NotifyIgnoresItems(t: Tables, id: string, i: Value, kinds: seq<Kind>, cfg: Config, env: Env, items: map<string, Value>)
    ensures NotifyAll(t.(items := items), id, i, kinds, cfg, env) == WithItems(NotifyAll(t, id, i, kinds, cfg, env), items)
    decreases |kinds|
  {
    hide Notify;
    if kinds != [] {
      var n := |kinds| - 1;
      NotifyIgnoresItems(t, id, i, kinds[..n], cfg, env, items);
      var u := NotifyAll(t, id, i, kinds[..n], cfg, env);
      if u.Ok? { NotifyIgnoresItemsOnce(u.value, id, i, kinds[n], cfg, env, items); }
    }
  }
}
