/** At-most-once effects and no loss, over every run of the event consumer. */
module InboxSafety {
  import opened Options
  import opened Inbox

  // ---- the invariant ---------------------------------------------------------------

  /** A row exists, or existed until it was purged. */
  ghost predicate Known(s: State, k: Key) { k in s.inbox || k in s.history }

  /** What a key's effects, history and row say about each other. */
  ghost predicate KeyOk(s: State, k: Key) {
    && Effects(s, k) == (if k in s.history && s.history[k].applied then 1 else 0)
    && (k in s.history ==> s.history[k].at <= s.clock)
    && (k in s.history && k in s.inbox ==>
          && s.inbox[k].status == (if s.history[k].applied then Processed else Discarded)
          && s.inbox[k].processedAt == Some(s.history[k].at))
    && (k in s.history && k !in s.inbox ==> s.clock > s.history[k].at + KEEP)
    && (k in s.inbox && k !in s.history ==> s.inbox[k].status.Parked?)
  }

  ghost predicate KeysOk(s: State) { forall k :: KeyOk(s, k) }

  /** Operators' decisions are recorded, once per event. */
  ghost predicate AuditOk(s: State) {
    && (forall n :: 0 <= n < |s.audit| ==> s.audit[n].key in s.history && s.history[s.audit[n].key].applied == s.audit[n].Replayed?)
    && (forall n, m :: 0 <= n < m < |s.audit| ==> s.audit[n].key != s.audit[m].key)
    && (forall k :: k in s.history && !s.history[k].applied ==> Dropped(k) in s.audit)
  }

  ghost predicate Stands(s: State, p: Pull, k: Key) {
    p.seqNo < |s.stream| && k.consumer == p.consumer && (s.stream[p.seqNo].event.Some? ==> k.event == s.stream[p.seqNo].event.value)
  }

  /** Whatever was acknowledged, or is about to be, is known to the inbox. */
  ghost predicate AcksOk(s: State) {
    && (forall p :: p in s.acked ==> Stands(s, p, s.acked[p]) && Known(s, s.acked[p]))
    && (forall w :: w in s.workers ==> Stands(s, s.workers[w].pull, s.workers[w].key))
    && (forall w :: w in s.workers && s.workers[w].phase == Answering(true) ==> Known(s, s.workers[w].key))
  }

  ghost predicate Inv(s: State) { KeysOk(s) && AuditOk(s) && AcksOk(s) }

  /** The key a step's transaction would insert. */
  function Touched(s: State, step: Step): Option<Key> {
    match step
    case Try(w, _) => if w in s.workers then Some(s.workers[w].key) else None
    case Park(w, _) => if w in s.workers then Some(s.workers[w].key) else None
    case _ => None
  }

  /** The step comes while the key's row is still there, or within the keep time of its settlement. */
  ghost predicate Covered(s: State, step: Step) {
    var k := Touched(s, step);
    k.Some? && k.value in s.history ==> k.value in s.inbox || s.clock <= s.history[k.value].at + KEEP
  }

  ghost predicate RunCovered(clock: int, steps: seq<Step>) {
    forall n :: 0 <= n < |steps| ==> Covered(Exec(Start(clock), steps[..n]), steps[n])
  }

  // ---- each write to the inbox keeps it ----------------------------------------------

  ghost predicate SameButInbox(s: State, u: State) {
    && u.stream == s.stream && u.acked == s.acked && u.workers == s.workers && u.clock == s.clock
  }

  /** No key is forgotten, and no settlement is changed. */
  ghost predicate Grows(s: State, u: State) {
    (forall k :: Known(s, k) ==> Known(u, k)) && (forall k :: k in s.history ==> k in u.history && u.history[k] == s.history[k])
  }

  lemma AcksGrow(s: State, u: State)
    requires AcksOk(s) && Grows(s, u) && s.stream <= u.stream && u.acked == s.acked && u.workers == s.workers
    ensures AcksOk(u)
  {
    hide Known;
  }

  /** One new row, settled now or parked, under a key the history does not have. */
  lemma WriteKeeps(s: State, u: State, k: Key)
    requires Inv(s) && SameButInbox(s, u) && k !in s.history
    requires u.inbox.Keys == s.inbox.Keys + {k} && forall j :: j in s.inbox && j != k ==> u.inbox[j] == s.inbox[j]
    requires (u.history == s.history && u.effects == s.effects && u.audit == s.audit && u.inbox[k].status.Parked?)
          || (&& u.history == s.history[k := Settlement(u.inbox[k].status.Processed?, s.clock)]
              && u.effects == (if u.inbox[k].status.Processed? then s.effects[k := Effects(s, k) + 1] else s.effects)
              && !u.inbox[k].status.Parked? && u.inbox[k].processedAt == Some(s.clock)
              && (u.audit == s.audit || u.audit == s.audit + [if u.inbox[k].status.Processed? then Replayed(k) else Dropped(k)])
              && (u.inbox[k].status.Discarded? ==> u.audit != s.audit))
    ensures Inv(u) && Grows(s, u)
  {
    forall j ensures KeyOk(u, j) { assert KeyOk(s, j); }
    assert AuditOk(u) by {
      if u.audit != s.audit { assert u.audit[|s.audit|].key == k; }
      forall j | j in u.history && !u.history[j].applied ensures Dropped(j) in u.audit {
        if j == k { assert u.audit[|s.audit|] == Dropped(k); }
      }
    }
    assert Grows(s, u);
    AcksGrow(s, u);
  }

  lemma FreeOrThere(s: State, k: Key)
    requires KeyOk(s, k) && (k in s.history ==> k in s.inbox || s.clock <= s.history[k].at + KEEP)
    ensures k !in s.inbox || s.inbox[k].status.Parked? ==> k !in s.history
  {}

  lemma ProcessKeeps(s: State, k: Key)
    requires Inv(s) && (k in s.history ==> k in s.inbox || s.clock <= s.history[k].at + KEEP)
    ensures Inv(Process(s, k)) && Grows(s, Process(s, k)) && Known(Process(s, k), k)
  {
    hide Inv;
    if k !in s.inbox {
      KeyFact(s, k);
      FreeOrThere(s, k);
      WriteKeeps(s, Process(s, k), k);
    }
  }

  lemma KeyFact(s: State, k: Key)
    requires Inv(s)
    ensures KeyOk(s, k)
  {}

  lemma ParkKeeps(s: State, k: Key, attempts: nat)
    requires Inv(s) && (k in s.history ==> k in s.inbox || s.clock <= s.history[k].at + KEEP)
    ensures Inv(ParkRow(s, k, attempts)) && Grows(s, ParkRow(s, k, attempts)) && Known(ParkRow(s, k, attempts), k)
  {
    hide Inv;
    KeyFact(s, k);
    FreeOrThere(s, k);
    if k !in s.inbox || s.inbox[k].status.Parked? { WriteKeeps(s, ParkRow(s, k, attempts), k); }
  }

  lemma ReplayKeeps(s: State, k: Key)
    requires Inv(s) && IsParked(s, k)
    ensures Inv(ReplayRow(s, k)) && Grows(s, ReplayRow(s, k))
  {
    hide Inv;
    KeyFact(s, k);
    FreeOrThere(s, k);
    WriteKeeps(s, ReplayRow(s, k), k);
  }

  lemma DiscardKeeps(s: State, k: Key)
    requires Inv(s) && IsParked(s, k)
    ensures Inv(DiscardRow(s, k)) && Grows(s, DiscardRow(s, k))
  {
    hide Inv;
    KeyFact(s, k);
    FreeOrThere(s, k);
    WriteKeeps(s, DiscardRow(s, k), k);
  }

  lemma PurgeKeeps(s: State)
    requires Inv(s)
    ensures Inv(Do(s, Purge)) && Grows(s, Do(s, Purge))
  {
    var u := Do(s, Purge);
    forall k ensures KeyOk(u, k) { assert KeyOk(s, k); }
    forall k | Known(s, k) ensures Known(u, k) { assert KeyOk(s, k); }
    AcksGrow(s, u);
  }

  lemma TimePasses(s: State, time: nat)
    requires Inv(s)
    ensures Inv(s.(clock := s.clock + time))
  {
    hide AcksOk, AuditOk;
    var u := s.(clock := s.clock + time);
    forall k ensures KeyOk(u, k) { assert KeyOk(s, k); }
    ClockIsApart(s, s.clock + time);
  }

  lemma ClockIsApart(s: State, clock: int)
    ensures AuditOk(s) ==> AuditOk(s.(clock := clock))
    ensures AcksOk(s) ==> AcksOk(s.(clock := clock))
  {}

  /** Changes to workers, deliveries and acknowledgements only. */
  lemma BookkeepingKeeps(s: State, u: State)
    requires Inv(s) && u.inbox == s.inbox && u.history == s.history && u.effects == s.effects && u.audit == s.audit && u.clock == s.clock
    requires AcksOk(u)
    ensures Inv(u) && Grows(s, u)
  {
    forall k ensures KeyOk(u, k) { assert KeyOk(s, k); }
  }

  lemma MoveKeeps(s: State, w: nat, phase: Phase)
    requires Inv(s) && w in s.workers && (phase == Answering(true) ==> Known(s, s.workers[w].key))
    ensures Inv(Move(s, w, phase)) && Grows(s, Move(s, w, phase))
  {
    hide KeysOk, AuditOk;
    MoveAcks(s, w, phase);
    BookkeepingKeeps(s, Move(s, w, phase));
  }

  lemma MoveAcks(s: State, w: nat, phase: Phase)
    requires AcksOk(s) && w in s.workers && (phase == Answering(true) ==> Known(s, s.workers[w].key))
    ensures AcksOk(Move(s, w, phase))
  {}

  lemma GrowsOn(s: State, t: State, u: State)
    requires Grows(s, t) && Grows(t, u)
    ensures Grows(s, u)
  {
    hide Known;
  }

  lemma TryKeeps(s: State, w: nat, attempt: Attempt)
    requires Inv(s) && Covered(s, Step.Try(w, attempt))
    ensures Inv(DoTry(s, w, attempt)) && Grows(s, DoTry(s, w, attempt))
  {
    hide Inv, Grows, Process;
    Same(s);
    if Busy(s, w) && s.workers[w].phase.Got? {
      var k := s.workers[w].key;
      var p := Process(s, k);
      ProcessKeeps(s, k);
      ProcessLeaves(s, k);
      MoveKeeps(p, w, Answering(true));
      MoveKeeps(p, w, Failed(false));
      GrowsOn(s, p, Move(p, w, Answering(true)));
      GrowsOn(s, p, Move(p, w, Failed(false)));
      MoveKeeps(s, w, Failed(true));
      MoveKeeps(s, w, Failed(false));
      if k in s.inbox { MoveKeeps(s, w, Answering(true)); }
    }
  }

  lemma Same(s: State)
    ensures Grows(s, s)
  {}

  lemma ProcessLeaves(s: State, k: Key)
    ensures Process(s, k).workers == s.workers
  {}

  lemma ParkStepKeeps(s: State, w: nat, write: Write)
    requires Inv(s) && Covered(s, Step.Park(w, write))
    ensures Inv(DoPark(s, w, write)) && Grows(s, DoPark(s, w, write))
  {
    hide Inv, Grows, ParkRow;
    Same(s);
    if Busy(s, w) && s.workers[w].phase.Failed? {
      var it := s.workers[w];
      var p := ParkRow(s, it.key, it.attempt);
      ParkKeeps(s, it.key, it.attempt);
      ParkLeaves(s, it.key, it.attempt);
      MoveKeeps(p, w, Answering(true));
      MoveKeeps(p, w, Answering(false));
      GrowsOn(s, p, Move(p, w, Answering(true)));
      GrowsOn(s, p, Move(p, w, Answering(false)));
      MoveKeeps(s, w, Answering(false));
    }
  }

  lemma ParkLeaves(s: State, k: Key, attempts: nat)
    ensures ParkRow(s, k, attempts).workers == s.workers
  {}

  lemma DeliverKeeps(s: State, w: nat, p: Pull, counted: bool)
    requires Inv(s)
    ensures Inv(DoDeliver(s, w, p, counted)) && Grows(s, DoDeliver(s, w, p, counted))
  {
    hide KeysOk, AuditOk;
    assert AcksOk(DoDeliver(s, w, p, counted)) by { hide Inv; DeliverAcks(s, w, p, counted); }
    BookkeepingKeeps(s, DoDeliver(s, w, p, counted));
  }

  lemma DeliverAcks(s: State, w: nat, p: Pull, counted: bool)
    requires AcksOk(s)
    ensures AcksOk(DoDeliver(s, w, p, counted))
  {
    hide Decimal;
  }

  lemma AnswerKeeps(s: State, w: nat, lost: bool)
    requires Inv(s)
    ensures Inv(DoAnswer(s, w, lost)) && Grows(s, DoAnswer(s, w, lost))
  {
    hide KeysOk, AuditOk;
    AnswerAcks(s, w, lost);
    BookkeepingKeeps(s, DoAnswer(s, w, lost));
  }

  lemma AnswerAcks(s: State, w: nat, lost: bool)
    requires AcksOk(s)
    ensures AcksOk(DoAnswer(s, w, lost))
  {
    hide AcksOk, Known, Stands;
    if w in s.workers && s.workers[w].phase == Answering(true) { AckAdded(s, w); }
    GoneAcks(s, w);
    GoneAcks(s.(acked := if w in s.workers then s.acked[s.workers[w].pull := s.workers[w].key] else s.acked), w);
  }

  lemma AckAdded(s: State, w: nat)
    requires AcksOk(s) && w in s.workers && s.workers[w].phase == Answering(true)
    ensures AcksOk(s.(acked := s.acked[s.workers[w].pull := s.workers[w].key]))
  {}

  lemma GoneAcks(s: State, w: nat)
    ensures AcksOk(s) ==> AcksOk(Gone(s, w))
  {}

  lemma CrashKeeps(s: State, w: nat)
    requires Inv(s)
    ensures Inv(Gone(s, w)) && Grows(s, Gone(s, w))
  {
    hide KeysOk, AuditOk;
    GoneAcks(s, w);
    BookkeepingKeeps(s, Gone(s, w));
  }

  lemma StepKeeps(s: State, step: Step)
    requires Inv(s) && Covered(s, step)
    ensures Inv(Do(s, step)) && Grows(s, Do(s, step))
  {
    hide Inv, Grows, Covered, DoTry, DoPark, DoDeliver, DoAnswer;
    Same(s);
    match step
    case Publish(event) => PublishKeeps(s, event);
    case Deliver(w, p, counted) => DeliverKeeps(s, w, p, counted);
    case Try(w, attempt) => TryKeeps(s, w, attempt);
    case Park(w, write) => ParkStepKeeps(s, w, write);
    case Answer(w, lost) => AnswerKeeps(s, w, lost);
    case Crash(w) => CrashKeeps(s, w);
    case Replay(k, succeeds) => if succeeds && IsParked(s, k) { ReplayKeeps(s, k); }
    case Discard(k) => if IsParked(s, k) { DiscardKeeps(s, k); }
    case Purge => PurgeKeeps(s);
    case Pass(time) => TimePasses(s, time); PassGrows(s, time);
  }

  lemma PassGrows(s: State, time: nat)
    ensures Grows(s, s.(clock := s.clock + time))
  {}

  lemma PublishKeeps(s: State, event: Option<string>)
    requires Inv(s)
    ensures Inv(Do(s, Publish(event))) && Grows(s, Do(s, Publish(event)))
  {
    var u := Do(s, Publish(event));
    forall k ensures KeyOk(u, k) { assert KeyOk(s, k); }
    AcksGrow(s, u);
  }

  lemma {:induction false} RunKeeps(clock: int, steps: seq<Step>)
    requires RunCovered(clock, steps)
    ensures Inv(Exec(Start(clock), steps))
    decreases |steps|
  {
    hide Inv, Do, Covered;
    if steps == [] {
      StartOk(clock);
    } else {
      var n := |steps| - 1;
      CoveredFront(clock, steps, n);
      RunKeeps(clock, steps[..n]);
      StepKeeps(Exec(Start(clock), steps[..n]), steps[n]);
    }
  }

  lemma StartOk(clock: int)
    ensures Inv(Start(clock))
  {}

  lemma CoveredFront(clock: int, steps: seq<Step>, n: nat)
    requires RunCovered(clock, steps) && n <= |steps|
    ensures RunCovered(clock, steps[..n])
  {
    hide Covered, Exec;
    forall m | 0 <= m < n ensures Covered(Exec(Start(clock), steps[..n][..m]), steps[..n][m]) {
      assert steps[..n][..m] == steps[..m];
    }
  }

  lemma {:induction false} RunGrows(clock: int, steps: seq<Step>, m: nat)
    requires RunCovered(clock, steps) && m <= |steps|
    ensures Grows(Exec(Start(clock), steps[..m]), Exec(Start(clock), steps))
    decreases |steps|
  {
    hide Inv, Do, Covered, Grows;
    if m == |steps| {
      assert steps[..m] == steps;
      Same(Exec(Start(clock), steps));
    } else {
      var n := |steps| - 1;
      CoveredFront(clock, steps, n);
      assert steps[..n][..m] == steps[..m];
      RunGrows(clock, steps[..n], m);
      RunKeeps(clock, steps[..n]);
      var t := Exec(Start(clock), steps[..n]);
      StepKeeps(t, steps[n]);
      GrowsOn(Exec(Start(clock), steps[..m]), t, Do(t, steps[n]));
    }
  }
}
