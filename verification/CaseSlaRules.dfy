/**
  What each write does to a work item, field by field: owners' messages,
  extensions and the operators' commands.
*/
module CaseSlaRules {
  import opened Options
  import opened Deadline
  import opened CaseSla

  /** The reminder lies three quarters of the way from the start to the deadline, rounded toward the start. */
  predicate ThreeQuarterPoint(from: int, to: int, reminder: int) {
    if to >= from then 4 * (reminder - from) <= 3 * (to - from) < 4 * (reminder - from) + 4
    else 4 * (reminder - from) - 4 < 3 * (to - from) <= 4 * (reminder - from)
  }

  /** A deadline that has passed by a time is recorded, once. */
  predicate BreachRecorded(i: Value, j: Value, at: int) {
    var deadline := if i.pausedAt == None then Min(i.dueAt, i.overallDueAt) else i.overallDueAt;
    j.breachedAt == if i.active && i.breachedAt == None && at >= deadline then Some(deadline) else i.breachedAt
  }

  /** A new item is on version 1, due after its duration and at the latest seven days after the case began. */
  lemma CreationMeans(input: StageInput)
    ensures var j := New(input);
            && j.stage == input.stage && j.waitingOn == input.waitingOn && j.stageStartedAt == input.at
            && j.createdAt == input.createdAt && j.overallDueAt == input.createdAt + 604_800_000_000_000
            && j.dueAt == Min(input.at + input.duration, j.overallDueAt) && ThreeQuarterPoint(input.at, j.dueAt, j.reminderAt)
            && j.pausedAt == (if input.pause then Some(input.at) else None) && (j.active <==> input.stage != "")
            && j.assignee == input.assignee && j.legacy == input.legacy && j.breachedAt == None && !j.needsAttention
            && j.version == 1 && j.deadlineVersion == 1
  {}

  /** What kind of message this is for the item. */
  datatype Change = Ends | Pauses | Resumes | Starts | Repeats

  function ChangeOf(i: Value, input: StageInput): Change {
    if input.stage == "" && i.active then Ends
    else if input.stage != "" && input.pause && (!i.active || i.pausedAt == None) then Pauses
    else if input.stage != "" && !input.pause && i.active && i.stage == input.stage && i.pausedAt != None then Resumes
    else if input.stage != "" && !input.pause && (!i.active || i.stage != input.stage) then Starts
    else Repeats
  }

  ghost predicate ClockBecomes(i: Value, j: Value, input: StageInput, what: Change) {
    var waited := if i.pausedAt == None || input.at < i.pausedAt.value then 0 else input.at - i.pausedAt.value;
    && j.pausedAt == (if what == Pauses then Some(input.at) else if what in {Resumes, Starts} then None else i.pausedAt)
    && j.dueAt == (match what
                   case Starts => Min(input.at + input.duration, i.overallDueAt)
                   case Resumes => Min(i.dueAt + waited, i.overallDueAt)
                   case _ => i.dueAt)
    && (what == Starts ==> ThreeQuarterPoint(input.at, j.dueAt, j.reminderAt))
    && (what == Resumes ==> j.reminderAt == Min(i.reminderAt + waited, j.dueAt))
    && (what in {Ends, Pauses, Repeats} ==> j.reminderAt == i.reminderAt)
  }

  ghost predicate StageBecomes(i: Value, j: Value, input: StageInput, what: Change) {
    && j.createdAt == i.createdAt && j.overallDueAt == i.overallDueAt
    && j.active == (if what == Ends then false else i.active || what == Starts)
    && j.stage == (if what == Starts then input.stage else i.stage)
    && j.stageStartedAt == (if what == Starts then input.at else i.stageStartedAt)
    && j.waitingOn == (if what == Pauses then "buyer" else if what in {Resumes, Starts} then input.waitingOn else i.waitingOn)
    && j.legacy == (i.legacy && what != Starts) && j.needsAttention == (i.needsAttention && what != Starts)
  }

  lemma BreachMeans(i: Value, at: int)
    ensures Breach(i, at) == i.(breachedAt := Breach(i, at).breachedAt) && BreachRecorded(i, Breach(i, at), at)
    ensures LateAt(i, at) <==> Breach(i, at).breachedAt != i.breachedAt
  {}

  lemma StartMeans(i: Value, input: StageInput)
    requires input.stage != "" && !input.pause
    ensures var j := StartStage(i, input, input.at);
            && j == i.(stage := input.stage, waitingOn := input.waitingOn, stageStartedAt := input.at, dueAt := Min(input.at + input.duration, i.overallDueAt),
                       reminderAt := j.reminderAt, pausedAt := None, active := true, needsAttention := false)
            && ThreeQuarterPoint(input.at, j.dueAt, j.reminderAt)
  {
    hide ThreeQuarters;
  }

  lemma ApplyMeans(i: Value, input: StageInput)
    ensures var j := Apply(i, input).0;
            var what := ChangeOf(i, input);
            && ClockBecomes(i, j, input, what) && StageBecomes(i, j, input, what)
            && j.assignee == i.assignee && j.breachedAt == Breach(i, input.at).breachedAt
            && j.deadlineVersion == i.deadlineVersion + (if what == Repeats then 0 else 1)
            && j.version == i.version + if what != Repeats || (input.stage != "" && j.breachedAt != i.breachedAt) then 1 else 0
  {
    hide StartStage, Breach, LateAt, BreachRecorded, ThreeQuarterPoint;
    BreachMeans(i, input.at);
    if ChangeOf(i, input).Starts? { StartMeans(Breach(i, input.at), input); }
  }

  /**
    A message, field by field. Ending takes the item out of the lists, pausing
    stops its clock for the buyer, resuming gives the waited time back within
    the outer limit, and starting sets a new deadline and reminder, clears the
    attention mark and turns notices on; each raises both versions. Anything
    else leaves the deadline alone. A missed deadline is recorded by every
    message and a changed assignment raises the version once more.
  */
  lemma MessageMeans(i: Value, input: StageInput)
    ensures var j := After(i, Stage(input));
            var what := ChangeOf(i, input);
            && StageBecomes(i, j, input, what) && ClockBecomes(i, j, input, what) && BreachRecorded(i, j, input.at)
            && j.deadlineVersion == i.deadlineVersion + (if what == Repeats then 0 else 1)
            && j.version == i.version + (if input.assignmentChanged then 1 else 0)
                            + (if what != Repeats || (input.stage != "" && j.breachedAt != i.breachedAt) then 1 else 0)
            && j.assignee == (if input.assignmentChanged then input.assignee else i.assignee)
  {
    hide Apply, Breach, ClockBecomes, StageBecomes;
    ApplyMeans(i, input);
    BreachMeans(i, input.at);
    var j := Apply(i, input).0;
    SameClock(i, j, After(i, Stage(input)), input, ChangeOf(i, input));
  }

  lemma SameClock(i: Value, j: Value, k: Value, input: StageInput, what: Change)
    requires ClockBecomes(i, j, input, what) && StageBecomes(i, j, input, what)
    requires k == j.(assignee := k.assignee, version := k.version)
    ensures ClockBecomes(i, k, input, what) && StageBecomes(i, k, input, what)
  {}

  /**
    An extension is accepted exactly for a running item that does not wait for
    the buyer, to a moment after the present one and after the old deadline and
    within the outer limit. The new deadline is the one asked for, the reminder
    lies three quarters of the way to it, and a deadline already missed is
    recorded as it was.
  */
  lemma ExtensionMeans(i: Value, at: int, due: int)
    ensures CanExtend(i, at, due) <==> i.active && i.pausedAt == None && i.dueAt < due && at < due && due <= i.overallDueAt
    ensures !CanExtend(i, at, due) ==> After(i, Extension(at, due)) == i
    ensures CanExtend(i, at, due) ==>
              var j := After(i, Extension(at, due));
              && j == i.(dueAt := due, reminderAt := j.reminderAt, breachedAt := j.breachedAt, needsAttention := false,
                         deadlineVersion := i.deadlineVersion + 1, version := i.version + 1)
              && ThreeQuarterPoint(at, due, j.reminderAt)
              && j.breachedAt == if i.breachedAt == None && at >= i.dueAt then Some(i.dueAt) else i.breachedAt
  {
    hide ThreeQuarters;
  }

  // ---- the operators' commands ---------------------------------------------------------

  /** What a command of each kind writes; only an extension moves the deadline. */
  predicate Obeyed(i: Value, j: Value, action: Action, m: Mutation, now: int) {
    match action
    case Assignments => j == i.(assignee := if m.assigneeId == "" then None else Some(m.assigneeId), version := i.version + 1)
    case Extensions => j.dueAt == m.newDueAt && j == After(i, Extension(now, m.newDueAt))
    case Activations => j == i.(legacy := false, version := i.version + 1)
    case NoticeReplays => j == i.(version := i.version + 1)
    case UnknownAction => false
  }

  /** Why a command of each kind would not be obeyed, if anything. */
  function Obstacle(i: Value, action: Action, m: Mutation, now: int, ownerAccepts: bool): Option<MutateError> {
    match action
    case Assignments => if ownerAccepts then None else Some(OwnerRefused)
    case Extensions =>
      if i.pausedAt != None || m.newDueAt <= i.dueAt || m.newDueAt <= now || m.newDueAt > i.overallDueAt then Some(InvalidExtension) else None
    case Activations => if i.legacy then None else Some(AlreadyActive)
    case NoticeReplays => None
    case UnknownAction => Some(InvalidAction)
  }

  /**
    A command under a new key is obeyed exactly when its item is active and
    still at the version the operator saw, and the command itself applies; it
    is then stored with its result. Each refusal names the first of these that
    fails and changes nothing.
  */
  lemma CommandMeans(t: Tables, k: CommandKey, m: Mutation, now: int, ownerAccepts: bool)
    requires k !in t.commands
    ensures var (u, answer) := Mutate(t, k, m, now, ownerAccepts);
            && (answer == Err(NotFound) <==> k.item !in t.items)
            && (answer == Err(StageChanged) <==> k.item in t.items && (!t.items[k.item].active || t.items[k.item].version != m.expectedVersion))
            && (k.item in t.items && t.items[k.item].active && t.items[k.item].version == m.expectedVersion ==>
                  var i := t.items[k.item];
                  && (answer.Ok? <==> Obstacle(i, k.action, m, now, ownerAccepts) == None)
                  && (answer.Err? ==> Obstacle(i, k.action, m, now, ownerAccepts) == Some(answer.error))
                  && (answer.Ok? ==> Obeyed(i, answer.value, k.action, m, now)))
            && u == if answer.Ok? then t.(items := t.items[k.item := answer.value], commands := t.commands[k := Command(m, answer.value)]) else t
  {
    hide ThreeQuarters;
  }

  /** A used key answers with what it stored if the request is the same one, and refuses any other. */
  lemma UsedKeyMeans(t: Tables, k: CommandKey, m: Mutation, now: int, ownerAccepts: bool)
    requires k in t.commands && k.item in t.items
    ensures Mutate(t, k, m, now, ownerAccepts)
         == (t, if t.commands[k].request == m then Ok(t.commands[k].response) else Err(KeyReused))
  {}

  // ---- the owners' messages ------------------------------------------------------------

  /** An owner's message with both timestamps creates its item, unless it names no stage, or changes it as MessageMeans says; without them it changes nothing. */
  lemma SyncMeans(t: Tables, id: string, input: StageInput)
    ensures var u := Do(t, OwnerSync(id, input));
            var year1 := -62_135_596_800_000_000_000;
            && (Sync(t, id, input).Err? <==> input.at == year1 || input.createdAt == year1)
            && (Sync(t, id, input).Err? || (id !in t.items && input.stage == "") ==> u == t)
            && (Sync(t, id, input).Ok? && (id in t.items || input.stage != "") ==>
                  u == t.(items := t.items[id := if id in t.items then After(t.items[id], Stage(input)) else New(input)]))
  {
    hide New, Apply;
    if id in t.items {
      UnchangedIsSame(t.items[id], input);
      assert t.items[id := t.items[id]] == t.items;
    }
  }

  /** What is not saved has not changed. */
  lemma UnchangedIsSame(i: Value, input: StageInput)
    ensures !Apply(i, input).1 ==> Apply(i, input).0 == i
  {
    hide StartStage, EffectiveDueAt, Resume;
  }
}
