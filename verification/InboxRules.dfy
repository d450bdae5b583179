/**
  What the consumer and the operators do with one event, in the statuses,
  counts and times of the design, and why an event is ever parked.
*/
module InboxRules {
  import opened Options
  import opened Inbox
  import InboxConsumer

  // ---- one message -----------------------------------------------------------------

  /** The message has an event whose key is new to this consumer. */
  predicate IsNew(s: State, w: nat)
    requires Busy(s, w)
  {
    s.stream[s.workers[w].pull.seqNo].event.Some? && s.workers[w].key !in s.inbox
  }

  lemma PutsLeave(s: State, k: Key, attempts: nat)
    ensures var t := Process(s, k);
            && (k !in s.inbox ==> t == s.(inbox := s.inbox[k := Row(Processed, 1, Some(s.clock), None)],
                                          effects := s.effects[k := Effects(s, k) + 1], history := s.history[k := Settlement(true, s.clock)]))
            && (k !in s.inbox ==> ParkRow(t, k, attempts) == t)
            && (k !in s.inbox ==> ParkRow(s, k, attempts) == s.(inbox := s.inbox[k := Row(Parked, attempts, None, Some(s.clock))]))
  {}

  lemma CommitMeans(s: State, w: nat, attempt: Attempt, write: Write, lost: bool)
    requires Busy(s, w) && s.workers[w].phase.Got? && IsNew(s, w) && attempt in {Commits, CommitsButErrs}
    ensures var it := s.workers[w];
            var acks := !lost && (attempt == Commits || (it.attempt >= 5 && write == Done));
            InboxConsumer.Handled(s, w, attempt, write, lost)
              == s.(inbox := s.inbox[it.key := Row(Processed, 1, Some(s.clock), None)], effects := s.effects[it.key := Effects(s, it.key) + 1],
                    history := s.history[it.key := Settlement(true, s.clock)], workers := s.workers - {w},
                    acked := if acks then s.acked[it.pull := it.key] else s.acked)
  {
    hide InboxConsumer.Handled, Process, ParkRow;
    InboxConsumer.HandledIs(s, w, attempt, write, lost);
    PutsLeave(s, s.workers[w].key, s.workers[w].attempt);
  }

  lemma FailureMeans(s: State, w: nat, attempt: Attempt, write: Write, lost: bool)
    requires Busy(s, w) && s.workers[w].phase.Got? && IsNew(s, w) && attempt !in {Commits, CommitsButErrs}
    ensures var it := s.workers[w];
            var gaveUp := attempt == Fails(true) || it.attempt >= 5;
            InboxConsumer.Handled(s, w, attempt, write, lost)
              == s.(inbox := if gaveUp && write != NotDone then s.inbox[it.key := Row(Parked, it.attempt, None, Some(s.clock))] else s.inbox,
                    workers := s.workers - {w}, acked := if !lost && gaveUp && write == Done then s.acked[it.pull := it.key] else s.acked)
  {
    hide InboxConsumer.Handled, Process, ParkRow;
    InboxConsumer.HandledIs(s, w, attempt, write, lost);
    PutsLeave(s, s.workers[w].key, s.workers[w].attempt);
  }

  /**
    What handling a new event comes to. A commit applies it once and
    acknowledges it. A temporary failure before the fifth delivery leaves no
    trace and sends it back. A permanent failure, or any failure from the fifth
    delivery on, parks it, and acknowledges it only once the parked row is
    written. A commit whose answer was lost stays applied and is sent back, or
    acknowledged on the fifth delivery, but never parked.
  */
  lemma HandlingMeans(s: State, w: nat, attempt: Attempt, write: Write, lost: bool)
    requires Busy(s, w) && s.workers[w].phase.Got? && IsNew(s, w)
    ensures var it := s.workers[w];
            var k := it.key;
            var t := InboxConsumer.Handled(s, w, attempt, write, lost);
            var applied := s.inbox[k := Row(Processed, 1, Some(s.clock), None)];
            var parked := s.inbox[k := Row(Parked, it.attempt, None, Some(s.clock))];
            var gaveUp := attempt == Fails(true) || (attempt != Commits && it.attempt >= 5);
            && t.workers == s.workers - {w} && t.audit == s.audit && t.stream == s.stream && t.deliveries == s.deliveries && t.clock == s.clock
            && (attempt in {Commits, CommitsButErrs} ==>
                  t.inbox == applied && t.effects == s.effects[k := Effects(s, k) + 1] && t.history == s.history[k := Settlement(true, s.clock)])
            && (attempt in {Fails(true), Fails(false), NotStarted} ==>
                  t.effects == s.effects && t.history == s.history && t.inbox == if gaveUp && write != NotDone then parked else s.inbox)
            && t.acked == if !lost && (attempt == Commits || (gaveUp && write == Done)) then s.acked[it.pull := k] else s.acked
  {
    hide InboxConsumer.Handled;
    if attempt.Commits? || attempt.CommitsButErrs? { CommitMeans(s, w, attempt, write, lost); } else { FailureMeans(s, w, attempt, write, lost); }
  }

  /** An event that is already in the inbox is acknowledged and nothing else, unless the transaction could not start. */
  lemma DuplicatesAreAcknowledged(s: State, w: nat, attempt: Attempt, write: Write, lost: bool)
    requires Busy(s, w) && s.workers[w].phase.Got? && !IsNew(s, w) && s.stream[s.workers[w].pull.seqNo].event.Some? && attempt != NotStarted
    ensures InboxConsumer.Handled(s, w, attempt, write, lost)
         == s.(workers := s.workers - {w}, acked := if lost then s.acked else s.acked[s.workers[w].pull := s.workers[w].key])
  {
    hide InboxConsumer.Handled, Process, ParkRow;
    InboxConsumer.HandledIs(s, w, attempt, write, lost);
  }

  /** A message that cannot be read is parked on its first delivery. */
  lemma UnreadableIsParked(s: State, w: nat, attempt: Attempt, write: Write, lost: bool)
    requires Busy(s, w) && s.workers[w].phase.Got? && s.stream[s.workers[w].pull.seqNo].event.None? && s.workers[w].key !in s.inbox
    ensures var it := s.workers[w];
            var parked := s.inbox[it.key := Row(Parked, it.attempt, None, Some(s.clock))];
            InboxConsumer.Handled(s, w, attempt, write, lost)
              == s.(workers := s.workers - {w}, inbox := if write == NotDone then s.inbox else parked,
                    acked := if write == Done && !lost then s.acked[it.pull := it.key] else s.acked)
  {
    hide InboxConsumer.Handled, Process, ParkRow;
    InboxConsumer.HandledIs(s, w, attempt, write, lost);
    PutsLeave(s, s.workers[w].key, s.workers[w].attempt);
  }

  // ---- deliveries, operators and the purge -------------------------------------------

  /** A free worker gets a message exactly while it is unacknowledged and no older than 14 days, and counts its deliveries. */
  lemma DeliveryMeans(s: State, w: nat, p: Pull, counted: bool)
    requires w !in s.workers
    ensures var t := Do(s, Deliver(w, p, counted));
            var before := if p in s.deliveries then s.deliveries[p] else 0;
            && (w in t.workers <==> p.seqNo < |s.stream| && p !in s.acked && s.clock <= s.stream[p.seqNo].publishedAt + 1_209_600_000_000_000)
            && (w !in t.workers ==> t == s)
            && (w in t.workers ==>
                  && t == s.(deliveries := s.deliveries[p := before + 1], workers := s.workers[w := t.workers[w]])
                  && t.workers[w].pull == p && t.workers[w].phase == Got && t.workers[w].deliveredAt == s.clock
                  && t.workers[w].key.consumer == p.consumer
                  && t.workers[w].key.event == (match s.stream[p.seqNo].event
                                                case Some(e) => e
                                                case None => if counted then "stream-seq-" + Decimal(p.seqNo + 1) else "stream-seq-0")
                  && t.workers[w].attempt == if counted then before + 1 else 1)
  {
    hide Decimal;
  }

  /** An operator's decision is open exactly for a parked event: a successful replay applies it once, a discard settles it unapplied. */
  lemma OperatorsDecideParked(s: State, k: Key, succeeds: bool)
    ensures var open := k in s.inbox && s.inbox[k].status == Parked;
            var replayed, discarded := Do(s, Replay(k, succeeds)), Do(s, Discard(k));
            && (!open || !succeeds ==> replayed == s) && (!open ==> discarded == s)
            && (open && succeeds ==>
                  replayed == s.(inbox := s.inbox[k := Row(Processed, s.inbox[k].attempts, Some(s.clock), s.inbox[k].parkedAt)],
                                 effects := s.effects[k := Effects(s, k) + 1], history := s.history[k := Settlement(true, s.clock)],
                                 audit := s.audit + [Replayed(k)]))
            && (open ==>
                  discarded == s.(inbox := s.inbox[k := Row(Discarded, s.inbox[k].attempts, Some(s.clock), s.inbox[k].parkedAt)],
                                  history := s.history[k := Settlement(false, s.clock)], audit := s.audit + [Dropped(k)]))
  {}

  /** The purge deletes exactly the rows settled more than 30 days ago; parked rows stay. */
  lemma PurgeMeans(s: State, k: Key)
    ensures var t := Do(s, Purge);
            && t == s.(inbox := t.inbox)
            && (k in t.inbox <==> k in s.inbox && (s.inbox[k].status == Parked || s.inbox[k].processedAt.None?
                                                   || s.inbox[k].processedAt.value >= s.clock - 2_592_000_000_000_000))
            && (k in t.inbox ==> t.inbox[k] == s.inbox[k])
  {}

  // ---- why an event is parked ----------------------------------------------------------

  /** A step after which key k may be given up: its handler fails for good, its message cannot be read, or it is delivered for the fifth time. */
  predicate Hopeless(s: State, step: Step, k: Key) {
    match step
    case Try(w, attempt) =>
      && w in s.workers && s.workers[w].key == k && s.workers[w].pull.seqNo < |s.stream|
      && ((attempt == Fails(true) && k !in s.inbox) || s.stream[s.workers[w].pull.seqNo].event.None?)
    case Deliver(w, p, counted) =>
      && counted && p.consumer == k.consumer && p in s.deliveries && s.deliveries[p] >= 4
      && p.seqNo < |s.stream| && (s.stream[p.seqNo].event.None? || s.stream[p.seqNo].event == Some(k.event))
    case _ => false
  }

  ghost predicate HasReason(clock: int, steps: seq<Step>, k: Key) {
    exists n :: 0 <= n < |steps| && Hopeless(Exec(Start(clock), steps[..n]), steps[n], k)
  }

  /** Whoever is parked, given up or on the fifth delivery is among the given keys. */
  ghost predicate Explained(s: State, reasons: iset<Key>) {
    && (forall k :: k in s.inbox && s.inbox[k].status.Parked? ==> k in reasons)
    && (forall w :: w in s.workers && (s.workers[w].phase == Failed(true) || s.workers[w].attempt >= 5) ==> s.workers[w].key in reasons)
  }

  /** The worker moves on; its key is explained if it is parked or given up now. */
  ghost predicate MovesOn(s: State, t: State, w: nat, reasons: iset<Key>) {
    && w in s.workers && w in t.workers && t.workers == s.workers[w := t.workers[w]]
    && t.workers[w].key == s.workers[w].key && t.workers[w].attempt == s.workers[w].attempt
    && (t.workers[w].phase == Failed(true) ==> s.workers[w].key in reasons)
    && (forall k :: k in t.inbox && t.inbox[k].status.Parked? ==> k in reasons || (k in s.inbox && s.inbox[k].status.Parked?))
  }

  lemma MoveIsExplained(s: State, t: State, w: nat, reasons: iset<Key>)
    requires Explained(s, reasons) && MovesOn(s, t, w, reasons)
    ensures Explained(t, reasons)
  {}

  lemma ProcessingParksNothing(s: State, k: Key, x: Key)
    ensures var t := Process(s, k); t.workers == s.workers && (x in t.inbox && t.inbox[x].status.Parked? ==> x in s.inbox && s.inbox[x].status.Parked?)
  {}

  lemma ParkingParksOne(s: State, k: Key, attempts: nat, x: Key)
    ensures var t := ParkRow(s, k, attempts);
            t.workers == s.workers && (x in t.inbox && t.inbox[x].status.Parked? ==> x == k || (x in s.inbox && s.inbox[x].status.Parked?))
  {}

  lemma MoveMoves(s: State, t: State, w: nat, phase: Phase, reasons: iset<Key>)
    requires w in s.workers && t.workers == s.workers && (phase == Failed(true) ==> s.workers[w].key in reasons)
    requires forall x :: x in t.inbox && t.inbox[x].status.Parked? ==> x in reasons || (x in s.inbox && s.inbox[x].status.Parked?)
    ensures MovesOn(s, Move(t, w, phase), w, reasons)
  {}

  lemma TryMoves(s: State, w: nat, attempt: Attempt, reasons: iset<Key>)
    requires forall k :: Hopeless(s, Step.Try(w, attempt), k) ==> k in reasons
    ensures DoTry(s, w, attempt) == s || MovesOn(s, DoTry(s, w, attempt), w, reasons)
  {
    if Busy(s, w) && s.workers[w].phase.Got? {
      var k := s.workers[w].key;
      assert Hopeless(s, Step.Try(w, attempt), k) ==> k in reasons;
      hide Process, Move, MovesOn;
      var t := Process(s, k);
      forall x ensures x in t.inbox && t.inbox[x].status.Parked? ==> x in s.inbox && s.inbox[x].status.Parked? { ProcessingParksNothing(s, k, x); }
      ProcessingParksNothing(s, k, k);
      MoveMoves(s, s, w, Failed(false), reasons);
      MoveMoves(s, s, w, Answering(true), reasons);
      MoveMoves(s, t, w, Answering(true), reasons);
      MoveMoves(s, t, w, Failed(false), reasons);
      if k in reasons { MoveMoves(s, s, w, Failed(true), reasons); }
    }
  }

  lemma ParkMoves(s: State, w: nat, write: Write, reasons: iset<Key>)
    requires Explained(s, reasons)
    ensures DoPark(s, w, write) == s || MovesOn(s, DoPark(s, w, write), w, reasons)
  {
    if Busy(s, w) && s.workers[w].phase.Failed? {
      var it := s.workers[w];
      hide ParkRow, Move, MovesOn;
      var t := ParkRow(s, it.key, it.attempt);
      forall x ensures x in t.inbox && t.inbox[x].status.Parked? ==> x == it.key || (x in s.inbox && s.inbox[x].status.Parked?) {
        ParkingParksOne(s, it.key, it.attempt, x);
      }
      ParkingParksOne(s, it.key, it.attempt, it.key);
      MoveMoves(s, s, w, Answering(false), reasons);
      if it.key in reasons {
        MoveMoves(s, s, w, Answering(write.Done?), reasons);
        MoveMoves(s, t, w, Answering(write.Done?), reasons);
      }
    }
  }

  lemma OtherIsExplained(s: State, step: Step, reasons: iset<Key>)
    requires Explained(s, reasons) && !step.Deliver? && !step.Try? && !step.Park?
    ensures Explained(Do(s, step), reasons)
  {}

  lemma StepIsExplained(s: State, step: Step, reasons: iset<Key>)
    requires Explained(s, reasons) && forall k :: Hopeless(s, step, k) ==> k in reasons
    ensures Explained(Do(s, step), reasons)
  {
    hide DoTry, DoPark, DoDeliver, DoAnswer, MovesOn, Explained, Hopeless;
    match step
    case Deliver(w, p, counted) => DeliveryIsExplained(s, w, p, counted, reasons);
    case Try(w, attempt) =>
      TryMoves(s, w, attempt, reasons);
      if DoTry(s, w, attempt) != s { MoveIsExplained(s, DoTry(s, w, attempt), w, reasons); }
    case Park(w, write) =>
      ParkMoves(s, w, write, reasons);
      if DoPark(s, w, write) != s { MoveIsExplained(s, DoPark(s, w, write), w, reasons); }
    case _ => OtherIsExplained(s, step, reasons);
  }

  lemma DeliveryIsExplained(s: State, w: nat, p: Pull, counted: bool, reasons: iset<Key>)
    requires Explained(s, reasons) && forall k :: Hopeless(s, Deliver(w, p, counted), k) ==> k in reasons
    ensures Explained(Do(s, Deliver(w, p, counted)), reasons)
  {
    var t := Do(s, Deliver(w, p, counted));
    if w !in s.workers {
      DeliveryMeans(s, w, p, counted);
      hide Do;
      if w in t.workers { assert t.workers[w].attempt >= 5 ==> Hopeless(s, Deliver(w, p, counted), t.workers[w].key); }
    }
  }

  /**
    In every run, whatever crashes or is lost: an event is parked only when its
    handler failed for good, its message could not be read, or it was delivered
    a fifth time.
  */
  lemma {:induction false} ParkedForAReason(clock: int, steps: seq<Step>, k: Key)
    requires var s := Exec(Start(clock), steps); k in s.inbox && s.inbox[k].status == Parked
    ensures HasReason(clock, steps, k)
  {
    RunIsExplained(clock, steps);
  }

  lemma {:induction false} RunIsExplained(clock: int, steps: seq<Step>)
    ensures Explained(Exec(Start(clock), steps), iset k | HasReason(clock, steps, k))
    decreases |steps|
  {
    hide Do, Hopeless, Explained;
    var reasons := iset k | HasReason(clock, steps, k);
    if steps == [] {
      assert Explained(Start(clock), reasons) by { StartIsExplained(clock, reasons); }
    } else {
      var n := |steps| - 1;
      var s := Exec(Start(clock), steps[..n]);
      RunIsExplained(clock, steps[..n]);
      var earlier := iset k | HasReason(clock, steps[..n], k);
      forall k | k in earlier ensures k in reasons {
        var m :| 0 <= m < n && Hopeless(Exec(Start(clock), steps[..n][..m]), steps[..n][m], k);
        assert steps[..n][..m] == steps[..m];
      }
      MoreReasons(s, earlier, reasons);
      forall k | Hopeless(s, steps[n], k) ensures k in reasons {}
      StepIsExplained(s, steps[n], reasons);
    }
  }

  lemma StartIsExplained(clock: int, reasons: iset<Key>)
    ensures Explained(Start(clock), reasons)
  {}

  lemma MoreReasons(s: State, some: iset<Key>, more: iset<Key>)
    requires Explained(s, some) && forall k :: k in some ==> k in more
    ensures Explained(s, more)
  {}
}
