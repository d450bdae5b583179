/** The inbox table and the consumer's handling of one message, in place. */
module InboxConsumer {
  import opened Options
  import opened Inbox

  // ---- one message, from delivery to answer ------------------------------------------

  /** The consumer lets go of its message, acknowledged or not. */
  function LetGo(s: State, w: nat, ack: bool, lost: bool): State
    requires w in s.workers
  {
    s.(acked := if ack && !lost then s.acked[s.workers[w].pull := s.workers[w].key] else s.acked, workers := s.workers - {w})
  }

  /** What the insert transaction leaves, and the error the consumer sees: none, or one that may be permanent. */
  function Tried(s: State, k: Key, attempt: Attempt): (State, Option<bool>) {
    if attempt.NotStarted? then (s, Some(false))
    else if k in s.inbox then (s, None)
    else
      match attempt
      case Commits => (Process(s, k), None)
      case CommitsButErrs => (Process(s, k), Some(false))
      case Fails(permanent) => (s, Some(permanent))
  }

  function Handled(s: State, w: nat, attempt: Attempt, write: Write, lost: bool): State {
    Do(Do(Do(s, Step.Try(w, attempt)), Step.Park(w, write)), Answer(w, lost))
  }

  lemma LetGoIs(t: State, w: nat, phase: Phase, lost: bool)
    requires w in t.workers && t.workers[w].pull.seqNo < |t.stream| && phase.Answering?
    ensures DoAnswer(Move(t, w, phase), w, lost) == LetGo(t, w, phase.ack, lost)
  {
    assert t.workers[w := t.workers[w].(phase := phase)] - {w} == t.workers - {w};
  }

  lemma ParkedIs(t: State, w: nat, permanent: bool, write: Write)
    requires w in t.workers && t.workers[w].pull.seqNo < |t.stream|
    ensures DoPark(Move(t, w, Failed(permanent)), w, write)
         == if !permanent && t.workers[w].attempt < MAX_ATTEMPTS then Move(t, w, Answering(false))
            else Move(if write.NotDone? then t else ParkRow(t, t.workers[w].key, t.workers[w].attempt), w, Answering(write.Done?))
  {
    var m := Move(t, w, Failed(permanent));
    var k, n := t.workers[w].key, t.workers[w].attempt;
    MovePark(t, w, Failed(permanent), k, n);
    assert t.workers[w := t.workers[w].(phase := Failed(permanent))][w := t.workers[w].(phase := Answering(false))]
        == t.workers[w := t.workers[w].(phase := Answering(false))];
    assert t.workers[w := t.workers[w].(phase := Failed(permanent))][w := t.workers[w].(phase := Answering(true))]
        == t.workers[w := t.workers[w].(phase := Answering(true))];
  }

  lemma MovePark(t: State, w: nat, phase: Phase, k: Key, attempts: nat)
    requires w in t.workers
    ensures ParkRow(Move(t, w, phase), k, attempts) == ParkRow(t, k, attempts).(workers := Move(t, w, phase).workers)
    ensures ParkRow(t, k, attempts).workers == t.workers && ParkRow(t, k, attempts).stream == t.stream
  {}

  lemma AnswerStands(t: State, w: nat, ack: bool, write: Write)
    requires w in t.workers
    ensures DoPark(Move(t, w, Answering(ack)), w, write) == Move(t, w, Answering(ack))
  {}

  lemma TriedIs(s: State, w: nat, attempt: Attempt)
    requires Busy(s, w) && s.workers[w].phase.Got? && s.stream[s.workers[w].pull.seqNo].event.Some?
    ensures var (t, e) := Tried(s, s.workers[w].key, attempt);
            && t.workers == s.workers && t.stream == s.stream
            && DoTry(s, w, attempt) == Move(t, w, if e.None? then Answering(true) else Failed(e.value))
  {}

  /** What follows an attempt that left `t` and showed the consumer `e`. */
  function Settled(t: State, w: nat, e: Option<bool>, write: Write, lost: bool): State
    requires w in t.workers
  {
    var it := t.workers[w];
    if e.None? then LetGo(t, w, true, lost)
    else if !e.value && it.attempt < MAX_ATTEMPTS then LetGo(t, w, false, lost)
    else if write.NotDone? then LetGo(t, w, false, lost)
    else
      var p := ParkRow(t, it.key, it.attempt);
      if w in p.workers then LetGo(p, w, write.Done?, lost) else p
  }

  lemma SettledIs(t: State, w: nat, e: Option<bool>, write: Write, lost: bool)
    requires w in t.workers && t.workers[w].pull.seqNo < |t.stream|
    ensures DoAnswer(DoPark(Move(t, w, if e.None? then Answering(true) else Failed(e.value)), w, write), w, lost) == Settled(t, w, e, write, lost)
  {
    hide DoPark, DoAnswer, LetGo, Move, ParkRow;
    var it := t.workers[w];
    AnswerStands(t, w, true, write);
    LetGoIs(t, w, Answering(true), lost);
    if e.Some? {
      ParkedIs(t, w, e.value, write);
      LetGoIs(t, w, Answering(false), lost);
      var p := ParkRow(t, it.key, it.attempt);
      MovePark(t, w, Answering(true), it.key, it.attempt);
      LetGoIs(p, w, Answering(write.Done?), lost);
    }
  }

  /** An unreadable message is parked at once; the others are tried first. */
  lemma HandledIs(s: State, w: nat, attempt: Attempt, write: Write, lost: bool)
    requires Busy(s, w) && s.workers[w].phase.Got?
    ensures var it := s.workers[w];
            var (t, e) := if s.stream[it.pull.seqNo].event.None? then (s, Some(true)) else Tried(s, it.key, attempt);
            && t.workers == s.workers
            && Handled(s, w, attempt, write, lost) == Settled(t, w, e, write, lost)
  {
    hide DoPark, DoAnswer, Tried, Settled;
    var it := s.workers[w];
    if s.stream[it.pull.seqNo].event.None? {
      hide Move;
      SettledIs(s, w, Some(true), write, lost);
    } else {
      hide DoTry, Move;
      TriedIs(s, w, attempt);
      var (t, e) := Tried(s, it.key, attempt);
      SettledIs(t, w, e, write, lost);
    }
  }

  // ---- the table ---------------------------------------------------------------------

  class Table {
    var inbox: map<Key, Row>
    var effects: map<Key, nat>
    var history: map<Key, Settlement>
    var stream: seq<Message>
    var deliveries: map<Pull, nat>
    var acked: map<Pull, Key>
    var workers: map<nat, Worker>
    var audit: seq<AuditEntry>
    var clock: int

    function Now(): State
      reads this
    {
      State(inbox, effects, history, stream, deliveries, acked, workers, audit, clock)
    }

    constructor (start: int)
      ensures Now() == Start(start)
    {
      inbox, effects, history, stream, deliveries := map[], map[], map[], [], map[];
      acked, workers, audit, clock := map[], map[], [], start;
    }

    /** The handler's writes, in the transaction that settles the key. */
    method Effect(k: Key)
      modifies this`effects, this`history
      ensures Now() == Apply(old(Now()), k)
    {
      var n := 0;
      if k in effects {
        n := effects[k];
      }
      effects := effects[k := n + 1];
      history := history[k := Settlement(true, clock)];
    }

    /** Applies an event once; a key already there is a duplicate, which is no error. */
    method ProcessEvent(k: Key, attempt: Attempt) returns (err: Option<bool>)
      modifies this`inbox, this`effects, this`history
      ensures (Now(), err) == Tried(old(Now()), k, attempt)
    {
      hide Apply;
      if attempt.NotStarted? {
        return Some(false);
      }
      if k in inbox {
        return None;
      }
      if attempt.Fails? {
        return Some(attempt.permanent);
      }
      inbox := inbox[k := Row(Processed, 1, Some(clock), None)];
      Effect(k);
      return if attempt.Commits? then None else Some(false);
    }

    /** Keeps a failed event for an operator, unless it is already settled. */
    method ParkEvent(k: Key, attempts: nat, write: Write) returns (ok: bool)
      modifies this`inbox
      ensures ok <==> write.Done?
      ensures Now() == if write.NotDone? then old(Now()) else ParkRow(old(Now()), k, attempts)
    {
      if write.NotDone? {
        return false;
      }
      if k !in inbox {
        inbox := inbox[k := Row(Parked, attempts, None, Some(clock))];
      } else if inbox[k].status.Parked? {
        inbox := inbox[k := inbox[k].(attempts := attempts, parkedAt := Some(clock))];
      }
      return write.Done?;
    }

    method Reply(w: nat, ack: bool, lost: bool)
      requires w in workers
      modifies this`acked, this`workers
      ensures Now() == LetGo(old(Now()), w, ack, lost)
    {
      if ack && !lost {
        acked := acked[workers[w].pull := workers[w].key];
      }
      workers := workers - {w};
    }

    /** One delivered message: applied, parked or sent back for another delivery. */
    method Handle(w: nat, attempt: Attempt, write: Write, lost: bool)
      requires Busy(Now(), w) && workers[w].phase.Got?
      modifies this
      ensures Now() == Handled(old(Now()), w, attempt, write, lost)
    {
      hide Handled, Tried, ParkRow, LetGo;
      HandledIs(Now(), w, attempt, write, lost);
      var it := workers[w];
      if stream[it.pull.seqNo].event.None? {
        var parked := ParkEvent(it.key, it.attempt, write);
        Reply(w, parked, lost);
        return;
      }
      var err := ProcessEvent(it.key, attempt);
      if err.None? {
        Reply(w, true, lost);
        return;
      }
      if err.value || it.attempt >= MAX_ATTEMPTS {
        var parked := ParkEvent(it.key, it.attempt, write);
        Reply(w, parked, lost);
        return;
      }
      Reply(w, false, lost);
    }

    method ReplayParked(k: Key, handlerSucceeds: bool) returns (ok: bool)
      modifies this`inbox, this`effects, this`history, this`audit
      ensures ok <==> IsParked(old(Now()), k) && handlerSucceeds
      ensures Now() == Do(old(Now()), Replay(k, handlerSucceeds))
    {
      hide Apply;
      if k !in inbox || !inbox[k].status.Parked? || !handlerSucceeds {
        return false;
      }
      inbox := inbox[k := inbox[k].(status := Processed, processedAt := Some(clock))];
      audit := audit + [Replayed(k)];
      Effect(k);
      return true;
    }

    method DiscardParked(k: Key) returns (ok: bool)
      modifies this`inbox, this`history, this`audit
      ensures ok <==> IsParked(old(Now()), k)
      ensures Now() == Do(old(Now()), Discard(k))
    {
      if k !in inbox || !inbox[k].status.Parked? {
        return false;
      }
      inbox := inbox[k := inbox[k].(status := Discarded, processedAt := Some(clock))];
      history := history[k := Settlement(false, clock)];
      audit := audit + [Dropped(k)];
      return true;
    }

    method PurgeProcessed() returns (deleted: nat)
      modifies this`inbox
      ensures Now() == Do(old(Now()), Purge)
      ensures deleted == |old(inbox)| - |inbox|
    {
      var kept, removed := Surviving(inbox, clock);
      inbox := kept;
      deleted := removed;
    }
  }

  method Surviving(rows: map<Key, Row>, now: int) returns (kept: map<Key, Row>, removed: nat)
    ensures kept == PurgeRows(rows, now) && removed == |rows| - |kept|
  {
    kept, removed := rows, 0;
    var left := rows.Keys;
    while left != {}
      invariant left <= rows.Keys
      invariant kept == map k | k in rows && (k in left || !Old(rows[k], now)) :: rows[k]
      invariant removed == |rows| - |kept|
      decreases |left|
    {
      var k :| k in left;
      left := left - {k};
      if Old(kept[k], now) {
        Shrinks(kept, k);
        kept := kept - {k};
        removed := removed + 1;
      }
    }
  }

  lemma Shrinks(m: map<Key, Row>, k: Key)
    requires k in m
    ensures |m - {k}| == |m| - 1
  {
    assert (m - {k}).Keys == m.Keys - {k};
    assert |m.Keys - {k}| == |m.Keys| - 1;
    assert |m| == |m.Keys| && |m - {k}| == |(m - {k}).Keys|;
  }
}
