/** How often one message is delivered to a consumer when only its handler fails. */
module InboxRetries {
  import opened Options
  import opened Inbox

  ghost predicate Held(s: State, p: Pull) { exists w :: w in s.workers && s.workers[w].pull == p }

  /** Nothing but the handler misbehaves: deliveries are counted and one at a time, parking works, answers arrive. */
  ghost predicate Smooth(s: State, step: Step) {
    match step
    case Deliver(_, p, counted) => counted && !Held(s, p)
    case Park(_, write) => write.Done?
    case Answer(_, lost) => !lost
    case Crash(_) => false
    case Try(_, attempt) => true
    case _ => true
  }

  ghost predicate RunSmooth(clock: int, steps: seq<Step>) {
    forall n :: 0 <= n < |steps| ==> Smooth(Exec(Start(clock), steps[..n]), steps[n])
  }

  ghost predicate WorkerOk(s: State, w: nat)
    requires w in s.workers
  {
    var it := s.workers[w];
    && it.pull.seqNo < |s.stream| && it.pull in s.deliveries && s.deliveries[it.pull] == it.attempt && it.pull !in s.acked
    && (it.phase == Answering(false) ==> it.attempt < MAX_ATTEMPTS)
    && (forall v :: v in s.workers && s.workers[v].pull == it.pull ==> v == w)
  }

  ghost predicate CountOk(s: State, p: Pull)
    requires p in s.deliveries
  {
    1 <= s.deliveries[p] <= MAX_ATTEMPTS && (s.deliveries[p] == MAX_ATTEMPTS ==> p in s.acked || Held(s, p))
  }

  ghost predicate Bounded(s: State) {
    && (forall w :: w in s.workers ==> WorkerOk(s, w))
    && (forall p :: p in s.deliveries ==> CountOk(s, p))
    && (forall p :: p in s.acked ==> p in s.deliveries)
  }

  lemma DeliverBounded(s: State, w: nat, p: Pull)
    requires Bounded(s) && !Held(s, p)
    ensures Bounded(DoDeliver(s, w, p, true))
  {
    hide KeyFor;
    var u := DoDeliver(s, w, p, true);
    if u != s {
      forall v | v in u.workers ensures WorkerOk(u, v) {
        if v != w { assert WorkerOk(s, v); }
      }
      forall q | q in u.deliveries ensures CountOk(u, q) {
        if q != p {
          assert CountOk(s, q);
          if Held(s, q) {
            var v :| v in s.workers && s.workers[v].pull == q;
            assert u.workers[v].pull == q;
          }
        } else {
          assert u.workers[w].pull == p;
          if p in s.deliveries { assert CountOk(s, p); }
        }
      }
    }
  }

  /** A worker that moves on, whatever it wrote to the inbox. */
  ghost predicate MovesOn(s: State, u: State, w: nat) {
    && w in s.workers && u.workers.Keys == s.workers.Keys
    && (exists phase :: u.workers == s.workers[w := s.workers[w].(phase := phase)] && (phase == Answering(false) ==> s.workers[w].attempt < MAX_ATTEMPTS))
    && u.deliveries == s.deliveries && u.acked == s.acked && u.stream == s.stream
  }

  lemma MoveBounded(s: State, u: State, w: nat)
    requires Bounded(s) && MovesOn(s, u, w)
    ensures Bounded(u)
  {
    forall v | v in u.workers ensures WorkerOk(u, v) { assert WorkerOk(s, v); }
    forall q | q in u.deliveries ensures CountOk(u, q) {
      assert CountOk(s, q);
      if Held(s, q) {
        var v :| v in s.workers && s.workers[v].pull == q;
        assert u.workers[v].pull == q;
      }
    }
  }

  lemma MoveMoves(s: State, t: State, w: nat, phase: Phase)
    requires w in s.workers && t.workers == s.workers && t.deliveries == s.deliveries && t.acked == s.acked && t.stream == s.stream
    requires phase == Answering(false) ==> s.workers[w].attempt < MAX_ATTEMPTS
    ensures MovesOn(s, Move(t, w, phase), w)
  {
    assert Move(t, w, phase).workers == s.workers[w := s.workers[w].(phase := phase)];
  }

  lemma TryMoves(s: State, w: nat, attempt: Attempt)
    ensures DoTry(s, w, attempt) == s || MovesOn(s, DoTry(s, w, attempt), w)
  {
    hide Process, MovesOn, Move;
    if Busy(s, w) && s.workers[w].phase.Got? {
      hide DoTry;
      var t := Process(s, s.workers[w].key);
      WritesLeave(s, s.workers[w].key, 0);
      TryIs(s, w, attempt);
      var phase: Phase :| phase != Answering(false) && (DoTry(s, w, attempt) == Move(s, w, phase) || DoTry(s, w, attempt) == Move(t, w, phase));
      MoveMoves(s, s, w, phase);
      MoveMoves(s, t, w, phase);
    }
  }

  lemma ParkMoves(s: State, w: nat)
    ensures DoPark(s, w, Done) == s || MovesOn(s, DoPark(s, w, Done), w)
  {
    hide ParkRow, MovesOn, Move;
    if Busy(s, w) && s.workers[w].phase.Failed? {
      hide DoPark;
      var it := s.workers[w];
      var t := ParkRow(s, it.key, it.attempt);
      WritesLeave(s, it.key, it.attempt);
      ParkIs(s, w, Done);
      var ack: bool :| (ack || it.attempt < MAX_ATTEMPTS) && (DoPark(s, w, Done) == Move(s, w, Answering(ack)) || DoPark(s, w, Done) == Move(t, w, Answering(ack)));
      MoveMoves(s, s, w, Answering(ack));
      MoveMoves(s, t, w, Answering(ack));
    }
  }

  /** A worker that is done, its message acknowledged or open for another delivery. */
  lemma GoneBounded(s: State, u: State, w: nat)
    requires Bounded(s) && w in s.workers && u.workers == s.workers - {w} && u.deliveries == s.deliveries && u.stream == s.stream
    requires var p := s.workers[w].pull;
             (u.acked == s.acked && s.deliveries[p] < MAX_ATTEMPTS) || (u.acked == s.acked[p := s.workers[w].key])
    ensures Bounded(u)
  {
    assert WorkerOk(s, w);
    forall v | v in u.workers ensures WorkerOk(u, v) { assert WorkerOk(s, v); }
    forall q | q in u.deliveries ensures CountOk(u, q) {
      assert CountOk(s, q);
      if q != s.workers[w].pull && Held(s, q) {
        var v :| v in s.workers && s.workers[v].pull == q;
        assert v in u.workers && u.workers[v].pull == q;
      }
    }
  }

  lemma AnswerBounded(s: State, w: nat)
    requires Bounded(s)
    ensures Bounded(DoAnswer(s, w, false))
  {
    hide CountOk;
    if Busy(s, w) && s.workers[w].phase.Answering? {
      assert WorkerOk(s, w);
      hide Bounded;
      GoneBounded(s, DoAnswer(s, w, false), w);
    }
  }

  lemma RestBounded(s: State, u: State)
    requires Bounded(s) && u.workers == s.workers && u.deliveries == s.deliveries && u.acked == s.acked && s.stream <= u.stream
    ensures Bounded(u)
  {
    forall w | w in u.workers ensures WorkerOk(u, w) { assert WorkerOk(s, w); }
    forall q | q in u.deliveries ensures CountOk(u, q) {
      assert CountOk(s, q);
      if Held(s, q) {
        var v :| v in s.workers && s.workers[v].pull == q;
        assert u.workers[v].pull == q;
      }
    }
  }

  lemma StepBounded(s: State, step: Step)
    requires Bounded(s) && Smooth(s, step)
    ensures Bounded(Do(s, step))
  {
    hide Bounded, DoTry, DoPark, DoDeliver, DoAnswer, MovesOn, PurgeRows;
    match step
    case Deliver(w, p, counted) => DeliverBounded(s, w, p);
    case Try(w, attempt) => TryMoves(s, w, attempt); if DoTry(s, w, attempt) != s { MoveBounded(s, DoTry(s, w, attempt), w); }
    case Park(w, write) => ParkMoves(s, w); if DoPark(s, w, Done) != s { MoveBounded(s, DoPark(s, w, Done), w); }
    case Answer(w, lost) => AnswerBounded(s, w);
    case _ => RestBounded(s, Do(s, step));
  }

  lemma {:induction false} RunBounded(clock: int, steps: seq<Step>)
    requires RunSmooth(clock, steps)
    ensures Bounded(Exec(Start(clock), steps))
    decreases |steps|
  {
    hide Do, Smooth, Bounded;
    if steps == [] {
      assert Bounded(Start(clock)) by { StartBounded(clock); }
    } else {
      var n := |steps| - 1;
      forall m | 0 <= m < n ensures Smooth(Exec(Start(clock), steps[..n][..m]), steps[..n][m]) {
        assert steps[..n][..m] == steps[..m];
      }
      RunBounded(clock, steps[..n]);
      StepBounded(Exec(Start(clock), steps[..n]), steps[n]);
    }
  }

  lemma StartBounded(clock: int)
    ensures Bounded(Start(clock))
  {}

  /**
    However its handler fails, a message is delivered to a consumer at most
    five times; after the fifth it is acknowledged, or its worker still holds
    it and will park it.
  */
  lemma FiveDeliveries(clock: int, steps: seq<Step>, p: Pull)
    requires RunSmooth(clock, steps) && p in Exec(Start(clock), steps).deliveries
    ensures var s := Exec(Start(clock), steps);
            s.deliveries[p] <= 5 && (s.deliveries[p] == 5 ==> p in s.acked || Held(s, p))
  {
    hide Exec;
    RunBounded(clock, steps);
    assert CountOk(Exec(Start(clock), steps), p);
  }
}
