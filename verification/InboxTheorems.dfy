/** What the inbox promises its consumers and operators. */
module InboxTheorems {
  import opened Options
  import opened Inbox
  import opened InboxSafety

  // ---- what a step writes ------------------------------------------------------------

  /** Rows and settlements may change under one key, and a settlement only together with its row. */
  ghost predicate WritesOnly(s: State, u: State, k: Key) {
    && u.stream == s.stream && u.clock == s.clock
    && s.inbox.Keys <= u.inbox.Keys <= s.inbox.Keys + {k}
    && (u.history == s.history || (k in u.inbox && exists applied :: u.history == s.history[k := Settlement(applied, s.clock)]))
  }

  /** Workers keep their message and key, and none is added. */
  ghost predicate SameWork(s: State, u: State) {
    forall w :: w in u.workers ==>
      && w in s.workers && u.workers[w].pull == s.workers[w].pull && u.workers[w].key == s.workers[w].key
      && u.workers[w].deliveredAt == s.workers[w].deliveredAt
  }

  /** The only keys a step writes under are its worker's and parked ones. */
  ghost predicate MayWrite(s: State, step: Step, k: Key) {
    Touched(s, step) == Some(k) || k in s.inbox
  }

  /** Everything a step other than a publication, a delivery, a purge or a pause may do to the inbox. */
  ghost predicate Shaped(s: State, step: Step, u: State) {
    SameWork(s, u) && ((u.inbox == s.inbox && u.history == s.history && u.stream == s.stream && u.clock == s.clock)
                       || (exists k :: MayWrite(s, step, k) && WritesOnly(s, u, k)))
  }

  lemma ProcessWrites(s: State, k: Key)
    ensures WritesOnly(s, Process(s, k), k) && Process(s, k).workers == s.workers
  {
    if k !in s.inbox { assert Process(s, k).history == s.history[k := Settlement(true, s.clock)]; }
  }

  lemma ParkWrites(s: State, k: Key, attempts: nat)
    ensures WritesOnly(s, ParkRow(s, k, attempts), k) && ParkRow(s, k, attempts).workers == s.workers
  {}

  lemma ReplayWrites(s: State, k: Key)
    requires k in s.inbox
    ensures WritesOnly(s, ReplayRow(s, k), k) && ReplayRow(s, k).workers == s.workers
  {
    assert ReplayRow(s, k).history == s.history[k := Settlement(true, s.clock)];
  }

  lemma DiscardWrites(s: State, k: Key)
    requires k in s.inbox
    ensures WritesOnly(s, DiscardRow(s, k), k) && DiscardRow(s, k).workers == s.workers
  {
    assert DiscardRow(s, k).history == s.history[k := Settlement(false, s.clock)];
  }

  /** A worker that only moves on leaves the inbox as it is, or as its write left it. */
  lemma MoveShape(s: State, step: Step, t: State, k: Key, w: nat, phase: Phase)
    requires w in t.workers && t.workers == s.workers && (t == s || (MayWrite(s, step, k) && WritesOnly(s, t, k)))
    ensures Shaped(s, step, Move(t, w, phase))
  {
    hide MayWrite;
    if t != s { assert WritesOnly(s, Move(t, w, phase), k); }
  }

  lemma TryShape(s: State, w: nat, attempt: Attempt)
    ensures Shaped(s, Step.Try(w, attempt), DoTry(s, w, attempt))
  {
    hide WritesOnly, Process, Shaped, Move;
    if Busy(s, w) && s.workers[w].phase.Got? {
      hide DoTry;
      var k := s.workers[w].key;
      var step := Step.Try(w, attempt);
      ProcessWrites(s, k);
      TryIs(s, w, attempt);
      var phase: Phase :| DoTry(s, w, attempt) == Move(s, w, phase) || DoTry(s, w, attempt) == Move(Process(s, k), w, phase);
      MoveShape(s, step, s, k, w, phase);
      MoveShape(s, step, Process(s, k), k, w, phase);
    } else {
      SameShape(s, Step.Try(w, attempt));
    }
  }

  lemma SameShape(s: State, step: Step)
    ensures Shaped(s, step, s)
  {}

  lemma ParkShape(s: State, w: nat, write: Write)
    ensures Shaped(s, Step.Park(w, write), DoPark(s, w, write))
  {
    hide WritesOnly, ParkRow, Shaped, Move;
    var step := Step.Park(w, write);
    if Busy(s, w) && s.workers[w].phase.Failed? {
      hide DoPark;
      var it := s.workers[w];
      var t := ParkRow(s, it.key, it.attempt);
      ParkWrites(s, it.key, it.attempt);
      ParkIs(s, w, write);
      var ack: bool :| DoPark(s, w, write) == Move(s, w, Answering(ack)) || DoPark(s, w, write) == Move(t, w, Answering(ack));
      MoveShape(s, step, s, it.key, w, Answering(ack));
      MoveShape(s, step, t, it.key, w, Answering(ack));
    } else {
      SameShape(s, step);
    }
  }

  lemma OperatorShape(s: State, step: Step)
    requires step.Replay? || step.Discard?
    ensures Shaped(s, step, Do(s, step))
  {
    hide WritesOnly, ReplayRow, DiscardRow;
    if IsParked(s, step.key) {
      assert MayWrite(s, step, step.key);
      ReplayWrites(s, step.key);
      DiscardWrites(s, step.key);
    }
  }

  lemma StepShape(s: State, step: Step)
    requires !step.Publish? && !step.Deliver? && !step.Purge? && !step.Pass?
    ensures Shaped(s, step, Do(s, step))
  {
    hide Shaped, DoTry, DoPark;
    match step
    case Try(w, attempt) => TryShape(s, w, attempt);
    case Park(w, write) => ParkShape(s, w, write);
    case Replay(k, succeeds) => OperatorShape(s, step);
    case Discard(k) => OperatorShape(s, step);
    case Answer(w, lost) => AnswerShape(s, w, lost);
    case Crash(w) => CrashShape(s, w);
  }

  lemma AnswerShape(s: State, w: nat, lost: bool)
    ensures Shaped(s, Answer(w, lost), DoAnswer(s, w, lost))
  {}

  lemma CrashShape(s: State, w: nat)
    ensures Shaped(s, Crash(w), Gone(s, w))
  {}

  // ---- every run whose steps come in time ----------------------------------------

  /**
    Under duplication, reordering, crashes, lost answers, parking, replay,
    discard and purge: each (consumer, event) is applied at most once; while
    its row exists it was applied exactly when the row is processed; and
    operators decide about it at most once.
  */
  lemma AppliedAtMostOnce(clock: int, steps: seq<Step>, k: Key)
    requires RunCovered(clock, steps)
    ensures var s := Exec(Start(clock), steps);
            && Effects(s, k) <= 1
            && (k in s.inbox ==> (Effects(s, k) == 1 <==> s.inbox[k].status.Processed?))
            && (k in s.inbox && s.inbox[k].status.Discarded? ==> Dropped(k) in s.audit)
            && (forall n, m :: 0 <= n < m < |s.audit| ==> s.audit[n].key != s.audit[m].key)
  {
    hide Exec;
    RunKeeps(clock, steps);
    assert KeyOk(Exec(Start(clock), steps), k);
  }

  /**
    A processed event stays processed, never parked again, and a discarded one
    is never applied, from any moment on: their rows never change until they
    are purged.
  */
  lemma SettledForGood(clock: int, steps: seq<Step>, m: nat, k: Key)
    requires RunCovered(clock, steps) && m <= |steps|
    requires var s := Exec(Start(clock), steps[..m]); k in s.inbox && !s.inbox[k].status.Parked?
    ensures var s := Exec(Start(clock), steps[..m]);
            var u := Exec(Start(clock), steps);
            && Effects(u, k) == Effects(s, k) == (if s.inbox[k].status.Processed? then 1 else 0)
            && (k in u.inbox ==> u.inbox[k].status == s.inbox[k].status && u.inbox[k].processedAt == s.inbox[k].processedAt)
  {
    hide Exec;
    CoveredFront(clock, steps, m);
    RunKeeps(clock, steps[..m]);
    RunKeeps(clock, steps);
    RunGrows(clock, steps, m);
    assert KeyOk(Exec(Start(clock), steps[..m]), k);
    assert KeyOk(Exec(Start(clock), steps), k);
  }

  /**
    Nothing is lost: a message acknowledged by a consumer is applied, discarded
    by an operator, or parked under a row; and a parked row leaves that state
    only by being applied or discarded.
  */
  lemma AckedIsAccountedFor(clock: int, steps: seq<Step>, p: Pull)
    requires RunCovered(clock, steps) && p in Exec(Start(clock), steps).acked
    ensures var s := Exec(Start(clock), steps);
            var k := s.acked[p];
            && Stands(s, p, k)
            && (Effects(s, k) == 1 || Dropped(k) in s.audit || IsParked(s, k))
  {
    hide Exec;
    RunKeeps(clock, steps);
    var s := Exec(Start(clock), steps);
    assert KeyOk(s, s.acked[p]);
  }

  // ---- runs without a purge ------------------------------------------------------------

  ghost predicate NoPurge(steps: seq<Step>) { forall n :: 0 <= n < |steps| ==> !steps[n].Purge? }

  lemma StepKeepsRows(s: State, step: Step)
    requires s.history.Keys <= s.inbox.Keys && !step.Purge?
    ensures Do(s, step).history.Keys <= Do(s, step).inbox.Keys
  {
    hide DoTry, DoPark, DoAnswer, ReplayRow, DiscardRow, MayWrite;
    if step.Publish? || step.Pass? {
    } else if step.Deliver? {
      assert DoDeliver(s, step.w, step.pull, step.counted).inbox == s.inbox;
    } else {
      StepShape(s, step);
    }
  }

  lemma {:induction false} RowsStay(clock: int, steps: seq<Step>)
    requires NoPurge(steps)
    ensures var s := Exec(Start(clock), steps); s.history.Keys <= s.inbox.Keys
    decreases |steps|
  {
    hide Do;
    if steps != [] {
      var n := |steps| - 1;
      RowsStay(clock, steps[..n]);
      StepKeepsRows(Exec(Start(clock), steps[..n]), steps[n]);
    }
  }

  lemma NoPurgeIsCovered(clock: int, steps: seq<Step>)
    requires NoPurge(steps)
    ensures RunCovered(clock, steps)
  {
    hide Exec;
    forall n | 0 <= n < |steps| ensures Covered(Exec(Start(clock), steps[..n]), steps[n]) {
      RowsStay(clock, steps[..n]);
    }
  }

  /** Without a purge, no timing matters: applied iff processed, and every acknowledged message has its row. */
  lemma ExactlyTheProcessed(clock: int, steps: seq<Step>, k: Key, p: Pull)
    requires NoPurge(steps)
    ensures var s := Exec(Start(clock), steps);
            && Effects(s, k) == (if k in s.inbox && s.inbox[k].status.Processed? then 1 else 0)
            && (p in s.acked ==> Stands(s, p, s.acked[p]) && s.acked[p] in s.inbox)
  {
    hide Exec;
    NoPurgeIsCovered(clock, steps);
    RunKeeps(clock, steps);
    RowsStay(clock, steps);
    assert KeyOk(Exec(Start(clock), steps), k);
  }

  /** At the moment of an acknowledgement the row exists, because the transaction before it found or wrote it. */
  lemma AckStandsOnARow(clock: int, steps: seq<Step>, w: nat)
    requires NoPurge(steps)
    requires var s := Exec(Start(clock), steps); w in s.workers && s.workers[w].phase == Answering(true)
    ensures var s := Exec(Start(clock), steps); s.workers[w].key in s.inbox && Stands(s, s.workers[w].pull, s.workers[w].key)
  {
    hide Exec;
    NoPurgeIsCovered(clock, steps);
    RunKeeps(clock, steps);
    RowsStay(clock, steps);
  }

  // ---- why thirty days are enough ------------------------------------------------------

  /** The latest a message of one event follows another: fifteen days. */
  const REPUBLISH: int := 15 * DAY

  /** A transaction comes within a day of its delivery; an unreadable message can at least be told by its place in the stream. */
  ghost predicate Prompt(s: State, step: Step) {
    match step
    case Deliver(_, p, counted) => p.seqNo < |s.stream| && s.stream[p.seqNo].event.None? ==> counted
    case Try(w, _) => w in s.workers ==> s.clock <= s.workers[w].deliveredAt + DAY
    case Park(w, _) => w in s.workers ==> s.clock <= s.workers[w].deliveredAt + DAY
    case _ => true
  }

  ghost predicate RunPrompt(clock: int, steps: seq<Step>) {
    forall n :: 0 <= n < |steps| ==> Prompt(Exec(Start(clock), steps[..n]), steps[n])
  }

  /** Every event is published once, or again within fifteen days. */
  ghost predicate PublishedTogether(stream: seq<Message>) {
    forall n, m :: 0 <= n < |stream| && 0 <= m < |stream| && EventName(stream, n) == EventName(stream, m) ==>
                     stream[m].publishedAt <= stream[n].publishedAt + REPUBLISH
  }

  /** Some message of the key's event was published by then. */
  ghost predicate PublishedBy(stream: seq<Message>, k: Key, time: int) {
    exists n :: 0 <= n < |stream| && EventName(stream, n) == k.event && stream[n].publishedAt <= time
  }

  ghost predicate Timely(s: State) {
    && (forall k :: k in s.history ==> PublishedBy(s.stream, k, s.history[k].at))
    && (forall k :: k in s.inbox ==> PublishedBy(s.stream, k, s.clock))
    && (forall w :: w in s.workers ==>
          && s.workers[w].pull.seqNo < |s.stream| && s.workers[w].key.event == EventName(s.stream, s.workers[w].pull.seqNo)
          && s.workers[w].deliveredAt <= s.stream[s.workers[w].pull.seqNo].publishedAt + RETENTION
          && PublishedBy(s.stream, s.workers[w].key, s.clock))
  }

  lemma PublishedStays(stream: seq<Message>, longer: seq<Message>, k: Key, time: int, later: int)
    requires PublishedBy(stream, k, time) && stream <= longer && time <= later
    ensures PublishedBy(longer, k, later)
  {
    var n :| 0 <= n < |stream| && EventName(stream, n) == k.event && stream[n].publishedAt <= time;
    assert EventName(longer, n) == k.event;
  }

  /** Rows and settlements change only under keys whose messages were published. */
  lemma TimelyAgain(s: State, u: State)
    requires Timely(s) && s.stream <= u.stream && s.clock <= u.clock && SameWork(s, u)
    requires forall k :: k in u.inbox ==> PublishedBy(s.stream, k, s.clock)
    requires forall k :: k in u.history ==> PublishedBy(s.stream, k, u.history[k].at)
    ensures Timely(u)
  {
    hide PublishedBy, Decimal;
    forall k | k in u.history ensures PublishedBy(u.stream, k, u.history[k].at) {
      PublishedStays(s.stream, u.stream, k, u.history[k].at, u.history[k].at);
    }
    forall k | k in u.inbox ensures PublishedBy(u.stream, k, u.clock) { PublishedStays(s.stream, u.stream, k, s.clock, u.clock); }
    forall w | w in u.workers ensures PublishedBy(u.stream, u.workers[w].key, u.clock) {
      PublishedStays(s.stream, u.stream, u.workers[w].key, s.clock, u.clock);
    }
  }

  lemma DeliverIsTimely(s: State, w: nat, p: Pull, counted: bool)
    requires Timely(s) && Prompt(s, Deliver(w, p, counted)) && forall n :: 0 <= n < |s.stream| ==> s.stream[n].publishedAt <= s.clock
    ensures Timely(DoDeliver(s, w, p, counted))
  {
    hide Decimal, PublishedBy;
    if DoDeliver(s, w, p, counted) != s {
      PublishedNow(s, p, counted);
    }
  }

  lemma PublishedNow(s: State, p: Pull, counted: bool)
    requires p.seqNo < |s.stream| && s.stream[p.seqNo].publishedAt <= s.clock && (counted || s.stream[p.seqNo].event.Some?)
    ensures PublishedBy(s.stream, KeyFor(s.stream, p, counted), s.clock)
  {
    assert EventName(s.stream, p.seqNo) == KeyFor(s.stream, p, counted).event;
  }

  ghost predicate Past(s: State) { forall n :: 0 <= n < |s.stream| ==> s.stream[n].publishedAt <= s.clock }

  lemma StepIsTimely(s: State, step: Step)
    requires Timely(s) && Past(s) && Prompt(s, step)
    ensures Timely(Do(s, step)) && Past(Do(s, step))
  {
    hide Timely, PublishedBy, EventName, DoTry, DoPark, DoAnswer, DoDeliver, ReplayRow, DiscardRow;
    match step
    case Deliver(w, p, counted) => DeliverIsTimely(s, w, p, counted); DeliverLeaves(s, w, p, counted);
    case Publish(event) => WaitIsTimely(s, Do(s, step));
    case Pass(time) => WaitIsTimely(s, Do(s, step));
    case Purge => WaitIsTimely(s, Do(s, step));
    case _ => ShapedIsTimely(s, step);
  }

  lemma DeliverLeaves(s: State, w: nat, p: Pull, counted: bool)
    ensures DoDeliver(s, w, p, counted).stream == s.stream && DoDeliver(s, w, p, counted).clock == s.clock
  {}

  lemma WaitIsTimely(s: State, u: State)
    requires Timely(s) && s.stream <= u.stream && s.clock <= u.clock && u.workers == s.workers && u.history == s.history
    requires forall k :: k in u.inbox ==> k in s.inbox
    ensures Timely(u)
  {
    hide PublishedBy, EventName;
    TimelyAgain(s, u);
  }

  lemma ShapedIsTimely(s: State, step: Step)
    requires Timely(s) && !step.Publish? && !step.Deliver? && !step.Purge? && !step.Pass?
    ensures Timely(Do(s, step)) && Do(s, step).stream == s.stream && Do(s, step).clock == s.clock
  {
    hide Do, Touched, PublishedBy, EventName;
    StepShape(s, step);
    var u := Do(s, step);
    if u.inbox != s.inbox || u.history != s.history {
      var k :| MayWrite(s, step, k) && WritesOnly(s, u, k);
      TouchedIsPublished(s, step, k);
    }
    TimelyAgain(s, u);
  }

  lemma TouchedIsPublished(s: State, step: Step, k: Key)
    requires Timely(s) && MayWrite(s, step, k)
    ensures PublishedBy(s.stream, k, s.clock)
  {
    hide PublishedBy, EventName;
  }

  /** A prompt transaction about a settled key comes within the keep time of its settlement. */
  lemma PromptIsCovered(s: State, step: Step)
    requires Timely(s) && Prompt(s, step) && PublishedTogether(s.stream)
    ensures Covered(s, step)
  {
    hide Decimal;
    var k := Touched(s, step);
    if k.Some? && k.value in s.history {
      var w := match step case Try(w, _) => w case Park(w, _) => w;
      var m := s.workers[w].pull.seqNo;
      assert PublishedBy(s.stream, k.value, s.history[k.value].at);
      var n :| 0 <= n < |s.stream| && EventName(s.stream, n) == k.value.event && s.stream[n].publishedAt <= s.history[k.value].at;
      assert EventName(s.stream, m) == EventName(s.stream, n);
    }
  }

  lemma {:induction false} RunIsTimely(clock: int, steps: seq<Step>)
    requires RunPrompt(clock, steps)
    ensures Timely(Exec(Start(clock), steps)) && Past(Exec(Start(clock), steps))
    decreases |steps|
  {
    hide Do, Prompt, PublishedBy, Decimal;
    if steps != [] {
      var n := |steps| - 1;
      PromptFront(clock, steps, n);
      RunIsTimely(clock, steps[..n]);
      StepIsTimely(Exec(Start(clock), steps[..n]), steps[n]);
    }
  }

  lemma PromptFront(clock: int, steps: seq<Step>, n: nat)
    requires RunPrompt(clock, steps) && n <= |steps|
    ensures RunPrompt(clock, steps[..n])
  {
    hide Prompt, Exec;
    forall m | 0 <= m < n ensures Prompt(Exec(Start(clock), steps[..n][..m]), steps[..n][m]) {
      assert steps[..n][..m] == steps[..m];
    }
  }

  lemma {:induction false} StreamGrows(clock: int, steps: seq<Step>, m: nat)
    requires m <= |steps|
    ensures Exec(Start(clock), steps[..m]).stream <= Exec(Start(clock), steps).stream
    decreases |steps|
  {
    hide Do;
    if m == |steps| {
      assert steps[..m] == steps;
    } else {
      var n := |steps| - 1;
      assert steps[..n][..m] == steps[..m];
      StreamGrows(clock, steps[..n], m);
      StepGrowsStream(Exec(Start(clock), steps[..n]), steps[n]);
    }
  }

  lemma StepGrowsStream(s: State, step: Step)
    ensures s.stream <= Do(s, step).stream
  {
    hide DoTry, DoPark, DoAnswer, DoDeliver, ReplayRow, DiscardRow, MayWrite;
    if step.Deliver? { DeliverLeaves(s, step.w, step.pull, step.counted); }
    else if !step.Publish? && !step.Pass? && !step.Purge? { StepShape(s, step); }
  }

  /**
    Fourteen days of retention make thirty days of keeping enough: when events
    are published once or again within fifteen days, and handled within a day
    of delivery, purging never lets one be applied again.
  */
  lemma PurgeKeepsDeduplication(clock: int, steps: seq<Step>, k: Key)
    requires RunPrompt(clock, steps) && PublishedTogether(Exec(Start(clock), steps).stream)
    ensures RunCovered(clock, steps)
    ensures Effects(Exec(Start(clock), steps), k) <= 1
  {
    hide Exec, Covered, Timely, PublishedTogether, RunPrompt;
    forall n | 0 <= n < |steps| ensures Covered(Exec(Start(clock), steps[..n]), steps[n]) {
      PromptFront(clock, steps, n);
      RunIsTimely(clock, steps[..n]);
      StreamGrows(clock, steps, n);
      FewerMessages(Exec(Start(clock), steps[..n]).stream, Exec(Start(clock), steps).stream);
      PromptAt(clock, steps, n);
      PromptIsCovered(Exec(Start(clock), steps[..n]), steps[n]);
    }
    AppliedAtMostOnce(clock, steps, k);
  }

  /**
    With purges too, no message is acknowledged without its row existing at
    that moment, when the answer comes within a day of the delivery and the
    run is as above.
  */
  lemma AckStandsOnARowDespitePurges(clock: int, steps: seq<Step>, w: nat)
    requires RunPrompt(clock, steps) && PublishedTogether(Exec(Start(clock), steps).stream)
    requires var s := Exec(Start(clock), steps);
             w in s.workers && s.workers[w].phase == Answering(true) && s.clock <= s.workers[w].deliveredAt + DAY
    ensures var s := Exec(Start(clock), steps); s.workers[w].key in s.inbox && Stands(s, s.workers[w].pull, s.workers[w].key)
  {
    hide Exec, Timely, PublishedTogether, RunPrompt;
    var s := Exec(Start(clock), steps);
    PurgeKeepsDeduplication(clock, steps, s.workers[w].key);
    RunKeeps(clock, steps);
    RunIsTimely(clock, steps);
    PromptIsCovered(s, Step.Try(w, NotStarted));
    assert KeyOk(s, s.workers[w].key);
  }

  lemma PromptAt(clock: int, steps: seq<Step>, n: nat)
    requires RunPrompt(clock, steps) && n < |steps|
    ensures Prompt(Exec(Start(clock), steps[..n]), steps[n])
  {
    hide Exec, Prompt;
  }

  lemma FewerMessages(stream: seq<Message>, longer: seq<Message>)
    requires PublishedTogether(longer) && stream <= longer
    ensures PublishedTogether(stream)
  {
    hide Decimal;
    forall n, m | 0 <= n < |stream| && 0 <= m < |stream| && EventName(stream, n) == EventName(stream, m)
      ensures stream[m].publishedAt <= stream[n].publishedAt + REPUBLISH
    {
      assert EventName(longer, n) == EventName(longer, m);
    }
  }

  // ---- exactly when an event is applied twice ----------------------------------------------

  /**
    An attempt that commits applies a readable event again exactly when its
    row is gone though it was applied before: the row was purged, more than
    thirty days after.
  */
  lemma AppliedTwiceIffPurged(s: State, w: nat)
    requires Inv(s) && Busy(s, w) && s.workers[w].phase.Got? && s.stream[s.workers[w].pull.seqNo].event.Some?
    ensures var k := s.workers[w].key;
            && (Effects(DoTry(s, w, Commits), k) == 2 <==> k in s.history && s.history[k].applied && k !in s.inbox)
            && (Effects(DoTry(s, w, Commits), k) == 2 ==> s.clock > s.history[k].at + KEEP)
  {
    hide Inv, Known;
    KeyFact(s, s.workers[w].key);
  }

  /**
    An attempt that commits applies a readable event that was settled before
    exactly when its row is gone: a processed one a second time, a discarded
    one although it was given up. That takes a purge, more than thirty days
    after it was settled.
  */
  lemma SettledIsAppliedIffPurged(s: State, w: nat)
    requires Inv(s) && Busy(s, w) && s.workers[w].phase.Got? && s.stream[s.workers[w].pull.seqNo].event.Some?
    requires s.workers[w].key in s.history
    ensures var k := s.workers[w].key;
            var before := if s.history[k].applied then 1 else 0;
            && Effects(s, k) == before
            && Effects(DoTry(s, w, Commits), k) == (if k in s.inbox then before else before + 1)
            && (k !in s.inbox ==> s.clock > s.history[k].at + KEEP)
  {
    hide Inv, Known;
    KeyFact(s, s.workers[w].key);
  }

  /** One untroubled round of a consumer: an event is published, delivered, applied and acknowledged. */
  function Round(s: State, k: Key, w: nat): State {
    var delivered := Do(Do(s, Publish(Some(k.event))), Deliver(w, Pull(k.consumer, |s.stream|), true));
    Do(Do(delivered, Step.Try(w, Commits)), Answer(w, false))
  }

  /** The worker is free, and only published messages were acknowledged, as in every reachable state. */
  ghost predicate Free(s: State, w: nat) { w !in s.workers && forall p :: p in s.acked ==> p.seqNo < |s.stream| }

  lemma DeliverIs(s: State, k: Key, w: nat)
    requires Free(s, w)
    ensures var t := Do(Do(s, Publish(Some(k.event))), Deliver(w, Pull(k.consumer, |s.stream|), true));
            && w in t.workers && t.workers[w].pull == Pull(k.consumer, |s.stream|) && t.workers[w].key == k && t.workers[w].phase.Got?
            && t.stream == s.stream + [Message(Some(k.event), s.clock)]
            && t.inbox == s.inbox && t.effects == s.effects && t.acked == s.acked && t.clock == s.clock
  {
    hide Decimal;
  }

  lemma RoundIs(s: State, k: Key, w: nat)
    requires Free(s, w)
    ensures var u := Round(s, k, w);
            && Free(u, w) && u.clock == s.clock
            && (k !in s.inbox ==> Effects(u, k) == Effects(s, k) + 1 && k in u.inbox && u.inbox[k] == Row(Processed, 1, Some(s.clock), None))
            && (k in s.inbox ==> Effects(u, k) == Effects(s, k) && u.inbox == s.inbox)
  {
    hide DoDeliver;
    DeliverIs(s, k, w);
  }

  /** A row settled now is purged after a wait of more than thirty days, and not before. */
  lemma PurgedAfter(s: State, k: Key, wait: nat)
    requires k in s.inbox && !s.inbox[k].status.Parked? && s.inbox[k].processedAt == Some(s.clock)
    ensures var u := Do(Do(s, Pass(wait)), Purge);
            && (k in u.inbox <==> wait <= KEEP)
            && Effects(u, k) == Effects(s, k) && u.workers == s.workers && u.acked == s.acked && u.stream == s.stream
  {}

  /**
    It does happen, for every consumer, free worker and state a run can reach:
    an event published again after its row was purged is applied a second
    time, and not a moment before.
  */
  lemma RepublicationAfterPurge(s: State, k: Key, w: nat, wait: nat)
    requires Free(s, w) && k !in s.inbox
    ensures var purged := Do(Do(Round(s, k, w), Pass(wait)), Purge);
            Effects(Round(purged, k, w), k) == Effects(s, k) + if wait > KEEP then 2 else 1
  {
    hide Round, Do;
    RoundIs(s, k, w);
    PurgedAfter(Round(s, k, w), k, wait);
    RoundIs(Do(Do(Round(s, k, w), Pass(wait)), Purge), k, w);
  }

  /** And an event an operator discarded is applied after all, when it is published again after its row was purged. */
  lemma DiscardedAfterPurge(s: State, k: Key, w: nat, wait: nat)
    requires Inv(s) && w !in s.workers && IsParked(s, k)
    ensures var purged := Do(Do(Do(s, Discard(k)), Pass(wait)), Purge);
            Effects(Round(purged, k, w), k) == if wait > KEEP then 1 else 0
  {
    hide Round, Inv;
    KeyFact(s, k);
    ReachableIsFree(s, w);
    var discarded := Do(s, Discard(k));
    assert Effects(discarded, k) == 0 && discarded.workers == s.workers && discarded.acked == s.acked && discarded.stream == s.stream;
    PurgedAfter(discarded, k, wait);
    hide Do;
    RoundIs(Do(Do(discarded, Pass(wait)), Purge), k, w);
  }

  lemma ReachableIsFree(s: State, w: nat)
    requires Inv(s) && w !in s.workers
    ensures Free(s, w)
  {
    forall p | p in s.acked ensures p.seqNo < |s.stream| { assert Stands(s, p, s.acked[p]); }
  }
}
