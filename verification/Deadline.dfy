/**
  Versioned response deadlines of one work item: stages start, pause, resume,
  extend and end, an outer limit never moves, and a missed deadline is
  recorded once. Times and durations are nanoseconds.
*/
module Deadline {
  import opened Options

  const HOUR: int := 3_600_000_000_000
  const OVERALL_LIMIT: int := 7 * 24 * HOUR

  datatype Kind = Reminder | Overdue | Escalation(step: int)

  datatype StageInput = StageInput(
    stage: string, waitingOn: string, duration: int, at: int, createdAt: int,
    pause: bool, legacy: bool, assignee: Option<string>, assignmentChanged: bool)

  datatype Value = Value(
    stage: string, waitingOn: string, stageStartedAt: int, dueAt: int, reminderAt: int, overallDueAt: int,
    pausedAt: Option<int>, assignee: Option<string>, deadlineVersion: int, version: int,
    active: bool, legacy: bool, breachedAt: Option<int>, needsAttention: bool, createdAt: int)

  function Min(a: int, b: int): int { if a <= b then a else b }

  /** d * 3 / 4, truncated toward zero. */
  function ThreeQuarters(d: int): (q: int)
    ensures d >= 0 ==> 0 <= q <= d && 4 * q <= 3 * d < 4 * q + 4
    ensures d < 0 ==> d <= q <= 0 && 4 * q - 4 < 3 * d <= 4 * q
  {
    if d >= 0 then d * 3 / 4 else -((-d) * 3 / 4)
  }

  function EffectiveDueAt(i: Value): int {
    if i.pausedAt.Some? || i.dueAt > i.overallDueAt then i.overallDueAt else i.dueAt
  }

  function StartStage(i: Value, input: StageInput, at: int): Value {
    var due := Min(at + input.duration, i.overallDueAt);
    i.(stage := input.stage, waitingOn := input.waitingOn, stageStartedAt := at, dueAt := due,
       reminderAt := at + ThreeQuarters(due - at), pausedAt := if input.pause then Some(at) else None,
       active := input.stage != "", needsAttention := false)
  }

  function New(input: StageInput): Value {
    var blank := Value("", "", 0, 0, 0, input.createdAt + OVERALL_LIMIT, None, None, 1, 1, false, input.legacy, None, false, input.createdAt);
    StartStage(blank, input, input.at).(assignee := input.assignee)
  }

  predicate LateAt(i: Value, at: int) { i.active && i.breachedAt.None? && at >= EffectiveDueAt(i) }

  function Breach(i: Value, at: int): Value { if LateAt(i, at) then i.(breachedAt := Some(EffectiveDueAt(i))) else i }

  function Bump(i: Value): Value { i.(version := i.version + 1, deadlineVersion := i.deadlineVersion + 1) }

  function Resume(i: Value, input: StageInput): Value
    requires i.pausedAt.Some?
  {
    var waited := if input.at < i.pausedAt.value then 0 else input.at - i.pausedAt.value;
    var due := Min(i.dueAt + waited, i.overallDueAt);
    i.(dueAt := due, reminderAt := Min(i.reminderAt + waited, due), pausedAt := None, waitingOn := input.waitingOn)
  }

  /** A write or message about the item, and whether anything was saved. */
  function Apply(i: Value, input: StageInput): (Value, bool) {
    var late := LateAt(i, input.at);
    var b := Breach(i, input.at);
    if input.stage == "" then
      if !b.active then (b, false) else (Bump(b.(active := false)), true)
    else if input.pause && !(b.pausedAt.Some? && b.active) then
      (Bump(b.(pausedAt := Some(input.at), waitingOn := "buyer")), true)
    else if !input.pause && b.pausedAt.Some? && b.active && b.stage == input.stage then
      (Bump(Resume(b, input)), true)
    else if !input.pause && (b.stage != input.stage || !b.active) then
      (Bump(StartStage(b, input, input.at).(legacy := false)), true)
    else
      (if late then b.(version := b.version + 1) else b, late)
  }

  predicate CanExtend(i: Value, at: int, due: int) {
    i.active && i.pausedAt.None? && due > i.dueAt && due > at && due <= i.overallDueAt
  }

  function Extend(i: Value, at: int, due: int): Value {
    if !CanExtend(i, at, due) then i
    else
      var b := if at >= i.dueAt && i.breachedAt.None? then i.(breachedAt := Some(i.dueAt)) else i;
      Bump(b.(dueAt := due, reminderAt := at + ThreeQuarters(due - at), needsAttention := false))
  }

  function Escalations(due: int, now: int, step: int): seq<Kind>
    requires 1 <= step <= 4
    decreases 4 - step
  {
    if step == 4 then []
    else (if now >= due + step * 24 * HOUR then [Escalation(step)] else []) + Escalations(due, now, step + 1)
  }

  function Notices(i: Value, now: int): seq<Kind> {
    var due := EffectiveDueAt(i);
    if !i.active || i.legacy then []
    else if now < due then if i.pausedAt.None? && now >= i.reminderAt then [Reminder] else []
    else [Overdue] + Escalations(due, now, 1)
  }

  // ---- what can happen to an item --------------------------------------------

  datatype Event =
    | Stage(input: StageInput)
    | Extension(at: int, due: int)
    | Assignment(assignee: Option<string>)
    | Activation
    | Replay
    | Scan(now: int, dropAssignee: bool)

  /** The scan of the worker: an absent assignee is dropped, a missed deadline recorded. */
  function Scanned(i: Value, now: int, dropAssignee: bool): Value {
    var a := if dropAssignee && i.assignee.Some? then i.(assignee := None, version := i.version + 1) else i;
    var due := EffectiveDueAt(a);
    var b := if now >= due && a.breachedAt.None? then a.(breachedAt := Some(due)) else a;
    if now >= due + 72 * HOUR then b.(needsAttention := true) else b
  }

  function Synced(i: Value, input: StageInput): (Value, bool) {
    var (v, changed) := Apply(i, input);
    if input.assignmentChanged then (v.(assignee := input.assignee, version := v.version + 1), true) else (v, changed)
  }

  function After(i: Value, e: Event): Value {
    match e
    case Stage(input) => Synced(i, input).0
    case Extension(at, due) => Extend(i, at, due)
    case Assignment(a) => i.(assignee := a, version := i.version + 1)
    case Activation => if i.legacy then i.(legacy := false, version := i.version + 1) else i
    case Replay => i.(version := i.version + 1)
    case Scan(now, drop) => if i.active then Scanned(i, now, drop) else i
  }

  function Run(i: Value, events: seq<Event>): Value
    decreases |events|
  {
    if events == [] then i else After(Run(i, events[..|events| - 1]), events[|events| - 1])
  }

  // ---- the deadline version pins the deadline ---------------------------------

  datatype View = View(stage: string, waitingOn: string, stageStartedAt: int, dueAt: int, reminderAt: int,
                       overallDueAt: int, pausedAt: Option<int>, active: bool, createdAt: int)

  function ViewOf(i: Value): View {
    View(i.stage, i.waitingOn, i.stageStartedAt, i.dueAt, i.reminderAt, i.overallDueAt, i.pausedAt, i.active, i.createdAt)
  }

  ghost predicate Pinned(i: Value, j: Value) {
    && i.deadlineVersion <= j.deadlineVersion <= i.deadlineVersion + 1
    && (j.deadlineVersion == i.deadlineVersion ==> ViewOf(j) == ViewOf(i))
    && j.deadlineVersion - i.deadlineVersion <= j.version - i.version
  }

  lemma ApplyPins(i: Value, input: StageInput)
    ensures Pinned(i, Apply(i, input).0)
  {
    hide ThreeQuarters;
  }

  lemma ScanPins(i: Value, now: int, drop: bool)
    ensures Pinned(i, Scanned(i, now, drop))
  {}

  lemma EventPins(i: Value, e: Event)
    ensures Pinned(i, After(i, e))
  {
    hide ThreeQuarters, Apply, Scanned, StartStage;
    match e
    case Stage(input) => ApplyPins(i, input);
    case Scan(now, drop) => ScanPins(i, now, drop);
    case _ =>
  }

  lemma {:induction false} RunPins(i: Value, events: seq<Event>, m: nat)
    requires m <= |events|
    ensures Run(i, events[..m]).deadlineVersion <= Run(i, events).deadlineVersion
    ensures Run(i, events[..m]).deadlineVersion == Run(i, events).deadlineVersion ==>
              ViewOf(Run(i, events[..m])) == ViewOf(Run(i, events))
    decreases |events|
  {
    var n := |events| - 1;
    if m == |events| {
      assert events[..m] == events;
    } else {
      assert events[..n][..m] == events[..m];
      RunPins(i, events[..n], m);
      EventPins(Run(i, events[..n]), events[n]);
    }
  }

  /** Two moments with the same deadline version have the same stage, due, reminder, pause and effective deadline. */
  lemma SameVersionSameDeadline(i: Value, events: seq<Event>, m: nat, n: nat)
    requires m <= n <= |events|
    requires Run(i, events[..m]).deadlineVersion == Run(i, events[..n]).deadlineVersion
    ensures ViewOf(Run(i, events[..m])) == ViewOf(Run(i, events[..n]))
    ensures EffectiveDueAt(Run(i, events[..m])) == EffectiveDueAt(Run(i, events[..n]))
  {
    assert events[..n][..m] == events[..m];
    RunPins(i, events[..n], m);
  }

  // ---- safety over whole runs --------------------------------------------------

  predicate Sound(i: Value) {
    && i.overallDueAt == i.createdAt + OVERALL_LIMIT
    && i.dueAt <= i.overallDueAt
    && 1 <= i.deadlineVersion <= i.version
    && (i.reminderAt <= i.dueAt || i.reminderAt <= i.stageStartedAt)
  }

  lemma NewIsSound(input: StageInput)
    ensures Sound(New(input))
  {}

  /** The item keeps its limits, and a recorded breach is never touched. */
  ghost predicate Keeps(i: Value, j: Value) {
    Sound(j) && j.createdAt == i.createdAt && (i.breachedAt.Some? ==> j.breachedAt == i.breachedAt)
  }

  lemma StartKeepsSound(i: Value, input: StageInput)
    requires i.overallDueAt == i.createdAt + OVERALL_LIMIT && 1 <= i.deadlineVersion <= i.version
    ensures Keeps(i, StartStage(i, input, input.at))
  {
    hide ThreeQuarters;
  }

  lemma ApplyKeepsSound(i: Value, input: StageInput)
    requires Sound(i)
    ensures Keeps(i, Apply(i, input).0)
  {
    hide StartStage;
    StartKeepsSound(Breach(i, input.at), input);
  }

  lemma ScanKeepsSound(i: Value, now: int, drop: bool)
    requires Sound(i)
    ensures Keeps(i, Scanned(i, now, drop))
  {}

  lemma ExtendKeepsSound(i: Value, at: int, due: int)
    requires Sound(i)
    ensures Keeps(i, Extend(i, at, due))
  {
    hide ThreeQuarters;
  }

  lemma EventKeepsSound(i: Value, e: Event)
    requires Sound(i)
    ensures Keeps(i, After(i, e))
  {
    hide Apply, Scanned, Extend;
    match e
    case Stage(input) => ApplyKeepsSound(i, input);
    case Scan(now, drop) => ScanKeepsSound(i, now, drop);
    case Extension(at, due) => ExtendKeepsSound(i, at, due);
    case _ =>
  }

  /**
    Over every history of an item: the outer limit is seven days after
    creation, the deadline and the effective deadline stay within it, the
    deadline version never passes the version, and a breach is never cleared
    or rewritten.
  */
  lemma {:induction false} DeadlineSafety(input: StageInput, events: seq<Event>, m: nat)
    requires m <= |events|
    ensures var i := Run(New(input), events);
            && Sound(i) && i.createdAt == input.createdAt
            && EffectiveDueAt(i) <= i.overallDueAt == input.createdAt + OVERALL_LIMIT
    ensures Run(New(input), events[..m]).breachedAt.Some? ==>
              Run(New(input), events).breachedAt == Run(New(input), events[..m]).breachedAt
    decreases |events|
  {
    if events == [] {
      NewIsSound(input);
    } else {
      var n := |events| - 1;
      if m == |events| {
        assert events[..m] == events;
        DeadlineSafety(input, events[..n], n);
      } else {
        assert events[..n][..m] == events[..m];
        DeadlineSafety(input, events[..n], m);
      }
      EventKeepsSound(Run(New(input), events[..n]), events[n]);
    }
  }

  /** Every write, accepted extension or scan at or past an active item's effective deadline records the breach. */
  lemma BreachIsRecorded(i: Value, e: Event)
    requires Sound(i) && i.active
    requires match e
             case Stage(input) => input.at >= EffectiveDueAt(i)
             case Extension(at, due) => CanExtend(i, at, due) && at >= EffectiveDueAt(i)
             case Scan(now, _) => now >= EffectiveDueAt(i)
             case _ => false
    ensures After(i, e).breachedAt == if i.breachedAt.Some? then i.breachedAt else Some(EffectiveDueAt(i))
  {
    hide ThreeQuarters, Apply;
    if e.Stage? { ApplyBreaches(i, e.input); }
  }

  /** A breach is only ever recorded for a deadline that has passed. */
  lemma NoFalseBreach(i: Value, e: Event)
    requires Sound(i) && i.breachedAt.None? && After(i, e).breachedAt.Some?
    ensures i.active && After(i, e).breachedAt == Some(EffectiveDueAt(i))
    ensures match e
            case Stage(input) => input.at >= EffectiveDueAt(i)
            case Extension(at, _) => at >= EffectiveDueAt(i)
            case Scan(now, _) => now >= EffectiveDueAt(i)
            case _ => false
  {
    hide ThreeQuarters, Apply;
    if e.Stage? { ApplyBreaches(i, e.input); }
  }

  /** A message leaves exactly the breach it recorded, whatever else it does. */
  lemma ApplyBreaches(i: Value, input: StageInput)
    ensures Apply(i, input).0.breachedAt == Breach(i, input.at).breachedAt
  {
    hide StartStage, EffectiveDueAt;
    StartLeavesBreach(Breach(i, input.at), input);
  }

  lemma StartLeavesBreach(i: Value, input: StageInput)
    ensures StartStage(i, input, input.at).breachedAt == i.breachedAt
  {
    hide ThreeQuarters;
  }

  // ---- repeated messages -------------------------------------------------------

  /**
    A repeated message leaves the deadline alone, except a pause of an item
    that is not active: the pause does not reactivate it, so every repeat
    counts as a new one.
  */
  lemma RepeatKeepsDeadlineIff(i: Value, input: StageInput)
    ensures var once := Apply(i, input).0;
            var twice := Apply(once, input).0;
            && (twice.deadlineVersion == once.deadlineVersion <==> !(input.stage != "" && input.pause && !i.active))
            && (twice.deadlineVersion == once.deadlineVersion ==> ViewOf(twice) == ViewOf(once))
  {
    hide Apply;
    MessageSettles(i, input);
    var once := Apply(i, input).0;
    RepeatStays(once, input);
    ApplyPins(once, input);
  }

  lemma RunStep(i: Value, events: seq<Event>, e: Event)
    ensures Run(i, events + [e]) == After(Run(i, events), e)
  {
    hide After;
    assert (events + [e])[..|events|] == events;
  }

  /** Such a message can arrive: an item whose obligation ended is paused, and the repeat raises its deadline version. */
  lemma RepeatedPauseRaisesVersion(first: StageInput, end: StageInput, pause: StageInput)
    requires first.stage != "" && end.stage == "" && pause.stage != "" && pause.pause
    ensures var events := [Stage(end), Stage(pause), Stage(pause)];
            Run(New(first), events).deadlineVersion == Run(New(first), events[..2]).deadlineVersion + 1
  {
    hide Apply;
    var events := [Stage(end), Stage(pause), Stage(pause)];
    var ended := After(New(first), Stage(end));
    RunStep(New(first), [], Stage(end));
    RunStep(New(first), [Stage(end)], Stage(pause));
    RunStep(New(first), [Stage(end), Stage(pause)], Stage(pause));
    assert [] + [Stage(end)] == [Stage(end)] && [Stage(end)] + [Stage(pause)] == events[..2] && events[..2] + [Stage(pause)] == events;
    MessageSettles(New(first), end);
    var once := After(ended, Stage(pause));
    assert Run(New(first), events[..2]) == once;
    MessageSettles(ended, pause);
    assert Run(New(first), events) == After(once, Stage(pause));
    RepeatStays(once, pause);
  }

  /** After a message the item is in the state the message asked for, unless it paused an inactive item. */
  lemma MessageSettles(i: Value, input: StageInput)
    ensures var once := Apply(i, input).0;
            if input.stage == "" then !once.active
            else if input.pause then once.pausedAt.Some? && once.active == i.active
            else once.active && once.pausedAt.None? && once.stage == input.stage
  {
    hide StartStage;
    StartShows(Breach(i, input.at), input);
  }

  lemma RepeatStays(v: Value, input: StageInput)
    ensures var w := Apply(v, input).0;
            && (input.stage == "" && !v.active ==> w.deadlineVersion == v.deadlineVersion)
            && (input.stage != "" && input.pause && v.pausedAt.Some? ==> w.deadlineVersion == v.deadlineVersion + (if v.active then 0 else 1))
            && (input.stage != "" && !input.pause && v.active && v.pausedAt.None? && v.stage == input.stage ==> w.deadlineVersion == v.deadlineVersion)
  {
    hide StartStage;
  }

  lemma StartShows(i: Value, input: StageInput)
    ensures var s := StartStage(i, input, input.at);
            && s.stage == input.stage && (s.active <==> input.stage != "") && (s.pausedAt.Some? <==> input.pause)
            && s.deadlineVersion == i.deadlineVersion
  {
    hide ThreeQuarters;
  }

  // ---- the operator's budget -----------------------------------------------------

  /** The stage a message starts, with its whole budget ahead. */
  ghost predicate Started(s: Value, input: StageInput) {
    && input.stage != "" && s.active && s.stage == input.stage && s.stageStartedAt == input.at
    && s.dueAt == Min(s.overallDueAt, input.at + input.duration)
    && s.pausedAt == (if input.pause then Some(input.at) else None)
  }

  lemma NewStarts(input: StageInput)
    requires input.stage != ""
    ensures Started(New(input), input)
  {
    hide ThreeQuarters;
  }

  /** A message without a pause starts its stage when the item is in another one or inactive. */
  lemma MessageStarts(i: Value, input: StageInput)
    requires input.stage != "" && !input.pause && (i.stage != input.stage || !i.active)
    ensures Started(After(i, Stage(input)), input) && After(i, Stage(input)).overallDueAt == i.overallDueAt
  {
    hide ThreeQuarters;
  }

  /** An event after which the stage goes on: no other stage, no end, no extension. A pause may name any stage. */
  predicate Continues(input: StageInput, e: Event) {
    match e
    case Stage(m) => m.stage != "" && (m.pause || m.stage == input.stage)
    case Extension(_, _) => false
    case _ => true
  }

  /** Later events of the stage, its messages in time order. */
  ghost predicate StageGoesOn(input: StageInput, events: seq<Event>) {
    && (forall k :: 0 <= k < |events| ==> Continues(input, events[k]))
    && (forall k :: 0 <= k < |events| && events[k].Stage? ==> input.at <= events[k].input.at)
    && (forall k, l :: 0 <= k < l < |events| && events[k].Stage? && events[l].Stage? ==> events[k].input.at <= events[l].input.at)
  }

  function LastMessage(input: StageInput, events: seq<Event>): (last: StageInput)
    ensures last == input || Stage(last) in events
    decreases |events|
  {
    if events == [] then input
    else
      var n := |events| - 1;
      if events[n].Stage? then events[n].input else LastMessage(input, events[..n])
  }

  /** Wall-clock time during which the last message had asked for a pause. */
  function PausedTime(input: StageInput, events: seq<Event>): int
    decreases |events|
  {
    if events == [] then 0
    else
      var n := |events| - 1;
      var last := LastMessage(input, events[..n]);
      PausedTime(input, events[..n]) + if events[n].Stage? && last.pause then events[n].input.at - last.at else 0
  }

  /** What is true of the item after the events: paused iff the last message paused, and the budget is exact. */
  ghost predicate BudgetHolds(s: Value, input: StageInput, events: seq<Event>) {
    var v := Run(s, events);
    var last := LastMessage(input, events);
    var budget := input.at + input.duration + PausedTime(input, events);
    && v.active && v.stage == input.stage && v.overallDueAt == s.overallDueAt && v.stageStartedAt == input.at
    && (v.pausedAt.Some? <==> last.pause)
    && (v.pausedAt.Some? ==> v.pausedAt.value <= last.at)
    && v.dueAt == Min(s.overallDueAt, if v.pausedAt.Some? then budget - (last.at - v.pausedAt.value) else budget)
  }

  /** What a message about the running stage does to its clock. */
  ghost predicate ClockMoves(v: Value, w: Value, input: StageInput) {
    && w.active && w.stage == v.stage && w.overallDueAt == v.overallDueAt && w.stageStartedAt == v.stageStartedAt
    && w.pausedAt == (if !input.pause then None else if v.pausedAt.Some? then v.pausedAt else Some(input.at))
    && w.dueAt == (if input.pause || v.pausedAt.None? then v.dueAt
                   else Min(v.dueAt + (if input.at < v.pausedAt.value then 0 else input.at - v.pausedAt.value), v.overallDueAt))
  }

  lemma SameStageApply(v: Value, input: StageInput)
    requires v.active && input.stage != "" && (input.pause || v.stage == input.stage)
    ensures ClockMoves(v, Apply(v, input).0, input)
  {
    hide StartStage, EffectiveDueAt;
  }

  lemma SameStageMessage(v: Value, input: StageInput)
    requires v.active && input.stage != "" && (input.pause || v.stage == input.stage)
    ensures ClockMoves(v, After(v, Stage(input)), input)
  {
    hide Apply;
    SameStageApply(v, input);
  }

  /** Scans, assignments, activations and replays leave the deadline alone. */
  lemma OtherEventsKeepDeadline(v: Value, e: Event)
    requires !e.Stage? && !e.Extension?
    ensures ViewOf(After(v, e)) == ViewOf(v)
  {}

  lemma {:induction false} BudgetIsConserved(s: Value, input: StageInput, events: seq<Event>)
    requires Started(s, input) && StageGoesOn(input, events)
    ensures BudgetHolds(s, input, events)
    decreases |events|
  {
    hide After;
    if events != [] {
      var n := |events| - 1;
      BudgetIsConserved(s, input, events[..n]);
      assert Continues(input, events[n]);
      var v, last := Run(s, events[..n]), LastMessage(input, events[..n]);
      if events[n].Stage? {
        if last != input {
          var k :| 0 <= k < n && events[..n][k] == Stage(last);
          assert events[k] == Stage(last);
        }
        assert last.at <= events[n].input.at;
        SameStageMessage(v, events[n].input);
      } else {
        OtherEventsKeepDeadline(v, events[n]);
      }
    }
  }

  lemma {:induction false} RunCompose(i: Value, a: seq<Event>, b: seq<Event>)
    ensures Run(i, a + b) == Run(Run(i, a), b)
    decreases |b|
  {
    hide After;
    if b == [] {
      assert a + b == a;
    } else {
      assert (a + b)[..|a + b| - 1] == a + b[..|b| - 1];
      RunCompose(i, a, b[..|b| - 1]);
    }
  }

  /**
    Whatever happened to an item before a message started a stage, and however
    often the stage is then paused and resumed among scans, assignments and
    replays, its deadline is the earlier of the outer limit and
    start + duration + total paused time, although the code clamps at every
    resume.
  */
  lemma PausingKeepsTheBudget(first: StageInput, before: seq<Event>, start: StageInput, events: seq<Event>)
    requires var i := Run(New(first), before);
             start.stage != "" && !start.pause && (i.stage != start.stage || !i.active)
    requires StageGoesOn(start, events) && !LastMessage(start, events).pause
    ensures var v := Run(New(first), before + [Stage(start)] + events);
            && v.pausedAt.None?
            && v.dueAt == EffectiveDueAt(v)
               == Min(first.createdAt + OVERALL_LIMIT, start.at + start.duration + PausedTime(start, events))
  {
    hide After;
    var i := Run(New(first), before);
    var s := After(i, Stage(start));
    DeadlineSafety(first, before, |before|);
    MessageStarts(i, start);
    BudgetIsConserved(s, start, events);
    RunCompose(New(first), before, [Stage(start)]);
    assert [Stage(start)][..0] == [];
    RunCompose(New(first), before + [Stage(start)], events);
  }

  /** The same for the stage an item is created with, whether or not it starts paused. */
  lemma FirstStageKeepsTheBudget(first: StageInput, events: seq<Event>)
    requires first.stage != "" && StageGoesOn(first, events) && !LastMessage(first, events).pause
    ensures var v := Run(New(first), events);
            && v.pausedAt.None?
            && v.dueAt == Min(first.createdAt + OVERALL_LIMIT, first.at + first.duration + PausedTime(first, events))
  {
    hide After;
    NewStarts(first);
    DeadlineSafety(first, [], 0);
    BudgetIsConserved(New(first), first, events);
  }

  // ---- notices -------------------------------------------------------------------

  lemma EscalationsIff(due: int, now: int, step: int, k: int)
    requires 1 <= step <= 4
    ensures Escalation(k) in Escalations(due, now, step) <==> step <= k <= 3 && now >= due + k * 24 * HOUR
    ensures Reminder !in Escalations(due, now, step) && Overdue !in Escalations(due, now, step)
    decreases 4 - step
  {
    if step < 4 { EscalationsIff(due, now, step + 1, k); }
  }

  /** Exactly when each notice is due. */
  lemma NoticesIff(i: Value, now: int, k: int)
    ensures var n := Notices(i, now);
            var open := i.active && !i.legacy;
            && (Reminder in n <==> open && i.pausedAt.None? && i.reminderAt <= now < EffectiveDueAt(i))
            && (Overdue in n <==> open && now >= EffectiveDueAt(i))
            && (Escalation(k) in n <==> open && 1 <= k <= 3 && now >= EffectiveDueAt(i) + k * 24 * HOUR)
  {
    EscalationsIff(EffectiveDueAt(i), now, 1, k);
  }

  /** After downtime nothing but the reminder is missed: what was due before is still due. */
  lemma NoticesCatchUp(i: Value, earlier: int, later: int, kind: Kind)
    requires earlier <= later && kind in Notices(i, earlier)
    ensures kind in Notices(i, later) || (kind == Reminder && Overdue in Notices(i, later))
  {
    var k := if kind.Escalation? then kind.step else 0;
    NoticesIff(i, earlier, k);
    NoticesIff(i, later, k);
  }

  // ---- the item updated in place ---------------------------------------------------

  class Item {
    var stage: string
    var waitingOn: string
    var stageStartedAt: int
    var dueAt: int
    var reminderAt: int
    var overallDueAt: int
    var pausedAt: Option<int>
    var assignee: Option<string>
    var deadlineVersion: int
    var version: int
    var active: bool
    var legacy: bool
    var breachedAt: Option<int>
    var needsAttention: bool
    var createdAt: int

    function Val(): Value
      reads this
    {
      Value(stage, waitingOn, stageStartedAt, dueAt, reminderAt, overallDueAt, pausedAt, assignee, deadlineVersion, version,
            active, legacy, breachedAt, needsAttention, createdAt)
    }

    constructor (input: StageInput)
      ensures Val() == New(input)
    {
      stage, waitingOn, stageStartedAt, dueAt, reminderAt := "", "", 0, 0, 0;
      createdAt, overallDueAt := input.createdAt, input.createdAt + OVERALL_LIMIT;
      version, deadlineVersion, legacy := 1, 1, input.legacy;
      pausedAt, assignee, active, breachedAt, needsAttention := None, None, false, None, false;
      new;
      Start(input, input.at);
      assignee := input.assignee;
    }

    /** The item as read back from its row. */
    constructor Load(v: Value)
      ensures Val() == v
    {
      stage, waitingOn, stageStartedAt, dueAt, reminderAt := v.stage, v.waitingOn, v.stageStartedAt, v.dueAt, v.reminderAt;
      overallDueAt, pausedAt, assignee := v.overallDueAt, v.pausedAt, v.assignee;
      deadlineVersion, version, active, legacy := v.deadlineVersion, v.version, v.active, v.legacy;
      breachedAt, needsAttention, createdAt := v.breachedAt, v.needsAttention, v.createdAt;
    }

    method Start(input: StageInput, at: int)
      modifies this
      ensures Val() == StartStage(old(Val()), input, at)
    {
      hide ThreeQuarters;
      var due := at + input.duration;
      if due > overallDueAt {
        due := overallDueAt;
      }
      SetDue(due, at + ThreeQuarters(due - at));
      Enter(input, at);
    }

    method Enter(input: StageInput, at: int)
      modifies this
      ensures Val() == old(Val()).(stage := input.stage, waitingOn := input.waitingOn, stageStartedAt := at,
                                   pausedAt := if input.pause then Some(at) else None,
                                   active := input.stage != "", needsAttention := false)
    {
      stage, waitingOn, stageStartedAt := input.stage, input.waitingOn, at;
      pausedAt := None;
      active := input.stage != "";
      needsAttention := false;
      if input.pause {
        pausedAt := Some(at);
      }
    }

    method SetDue(due: int, reminder: int)
      modifies this
      ensures Val() == old(Val()).(dueAt := due, reminderAt := reminder)
    {
      dueAt, reminderAt := due, reminder;
    }

    method BumpVersions()
      modifies this
      ensures Val() == Bump(old(Val()))
    {
      version, deadlineVersion := version + 1, deadlineVersion + 1;
    }

    /** The deadline that counts: the outer one while the buyer is waited for. */
    function Due(): (due: int)
      reads this
      ensures due == EffectiveDueAt(Val())
    {
      if pausedAt.Some? || dueAt > overallDueAt then overallDueAt else dueAt
    }

    /** Records a deadline missed by `at`, once. */
    method RecordBreach(at: int) returns (breached: bool)
      modifies this
      ensures breached <==> LateAt(old(Val()), at)
      ensures Val() == Breach(old(Val()), at)
    {
      breached := active && breachedAt.None? && at >= Due();
      if breached {
        breachedAt := Some(Due());
      }
    }

    /** Resuming gives back the time the buyer took, never beyond the outer limit. */
    method ResumeAt(input: StageInput)
      requires pausedAt.Some?
      modifies this
      ensures Val() == Resume(old(Val()), input)
    {
      var waited := input.at - pausedAt.value;
      if waited < 0 {
        waited := 0;
      }
      var due, reminder := dueAt + waited, reminderAt + waited;
      if due > overallDueAt {
        due := overallDueAt;
      }
      if reminder > due {
        reminder := due;
      }
      SetDue(due, reminder);
      pausedAt, waitingOn := None, input.waitingOn;
    }

    method ApplyInput(input: StageInput) returns (changed: bool)
      modifies this
      ensures (Val(), changed) == Apply(old(Val()), input)
    {
      hide StartStage, Resume;
      var breached := RecordBreach(input.at);
      if input.stage == "" {
        if !active {
          return false;
        }
        active := false;
      } else if input.pause {
        if pausedAt.Some? && active {
          if breached {
            version := version + 1;
          }
          return breached;
        }
        pausedAt, waitingOn := Some(input.at), "buyer";
      } else if pausedAt.Some? && active && stage == input.stage {
        ResumeAt(input);
      } else if stage != input.stage || !active {
        Start(input, input.at);
        legacy := false;
      } else {
        if breached {
          version := version + 1;
        }
        return breached;
      }
      BumpVersions();
      return true;
    }

    method ExtendTo(at: int, due: int) returns (ok: bool)
      modifies this
      ensures ok <==> CanExtend(old(Val()), at, due)
      ensures Val() == Extend(old(Val()), at, due)
    {
      hide ThreeQuarters;
      if !active || pausedAt.Some? || due <= dueAt || due <= at || due > overallDueAt {
        return false;
      }
      if at >= dueAt && breachedAt.None? {
        breachedAt := Some(dueAt);
      }
      SetDue(due, at + ThreeQuarters(due - at));
      BumpVersions();
      needsAttention := false;
      return true;
    }

    method Assign(to: Option<string>)
      modifies this
      ensures Val() == After(old(Val()), Assignment(to))
    {
      assignee, version := to, version + 1;
    }

    /** What the scan writes to the item: an assignee who left, a missed deadline, three days of silence. */
    method RecordScan(now: int, dropAssignee: bool)
      modifies this
      ensures Val() == Scanned(old(Val()), now, dropAssignee)
    {
      if assignee.Some? && dropAssignee {
        Assign(None);
      }
      var due := Due();
      if now >= due && breachedAt.None? {
        breachedAt := Some(due);
      }
      if now >= due + 72 * HOUR {
        needsAttention := true;
      }
    }

    method NoticesDue(now: int) returns (n: seq<Kind>)
      ensures n == Notices(Val(), now)
    {
      if !active || legacy {
        return [];
      }
      var due := Due();
      if now < due {
        if pausedAt.None? && now >= reminderAt {
          return [Reminder];
        }
        return [];
      }
      n := [Overdue];
      for step := 1 to 4
        invariant n + Escalations(due, now, step) == [Overdue] + Escalations(due, now, 1)
      {
        if now >= due + step * 24 * HOUR {
          n := n + [Escalation(step)];
        }
      }
    }
  }
}
