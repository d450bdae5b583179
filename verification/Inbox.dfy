/**
  The event consumer: messages delivered at least once, applied through a
  transactional inbox, parked after repeated failures, replayed or discarded
  by operators, and purged when old. Each transaction, broker answer or
  failure is one step. Times are nanoseconds.
*/
module Inbox {
  import opened Options

  const MAX_ATTEMPTS: nat := 5
  const DAY: int := 24 * 3_600_000_000_000
  const RETENTION: int := 14 * DAY
  const KEEP: int := 30 * DAY

  /** Primary key (consumer, event_id). */
  datatype Key = Key(consumer: string, event: string)

  datatype Status = Processed | Parked | Discarded

  datatype Row = Row(status: Status, attempts: nat, processedAt: Option<int>, parkedAt: Option<int>)

  /** A stored message; one whose envelope cannot be read carries no event. */
  datatype Message = Message(event: Option<string>, publishedAt: int)

  /** One message as one durable consumer sees it. */
  datatype Pull = Pull(consumer: string, seqNo: nat)

  datatype Phase = Got | Failed(permanent: bool) | Answering(ack: bool)

  datatype Worker = Worker(pull: Pull, key: Key, attempt: nat, deliveredAt: int, phase: Phase)

  datatype AuditEntry = Replayed(key: Key) | Dropped(key: Key)

  /** How and when a key was settled; kept when the row is purged. */
  datatype Settlement = Settlement(applied: bool, at: int)

  /** Acked messages keep the key their acknowledgement stood on. */
  datatype State = State(
    inbox: map<Key, Row>, effects: map<Key, nat>, history: map<Key, Settlement>, stream: seq<Message>,
    deliveries: map<Pull, nat>, acked: map<Pull, Key>, workers: map<nat, Worker>, audit: seq<AuditEntry>, clock: int)

  function Start(clock: int): State { State(map[], map[], map[], [], map[], map[], map[], [], clock) }

  /** What becomes of one attempt to apply an event. */
  datatype Attempt = Commits | CommitsButErrs | Fails(permanent: bool) | NotStarted

  datatype Write = Done | DoneButErrs | NotDone

  datatype Step =
    | Publish(event: Option<string>)
    | Deliver(w: nat, pull: Pull, counted: bool)
    | Try(w: nat, attempt: Attempt)
    | Park(w: nat, write: Write)
    | Answer(w: nat, lost: bool)
    | Crash(w: nat)
    | Replay(key: Key, succeeds: bool)
    | Discard(key: Key)
    | Purge
    | Pass(time: nat)

  // ---- the inbox table -----------------------------------------------------------

  function Effects(s: State, k: Key): nat { if k in s.effects then s.effects[k] else 0 }

  function Apply(s: State, k: Key): State {
    s.(effects := s.effects[k := Effects(s, k) + 1], history := s.history[k := Settlement(true, s.clock)])
  }

  /** The insert and the handler's writes commit together; a key already there is left alone. */
  function Process(s: State, k: Key): State {
    if k in s.inbox then s else Apply(s.(inbox := s.inbox[k := Row(Processed, 1, Some(s.clock), None)]), k)
  }

  function ParkRow(s: State, k: Key, attempts: nat): State {
    if k in s.inbox && !s.inbox[k].status.Parked? then s
    else s.(inbox := s.inbox[k := if k in s.inbox then s.inbox[k].(attempts := attempts, parkedAt := Some(s.clock))
                                  else Row(Parked, attempts, None, Some(s.clock))])
  }

  predicate IsParked(s: State, k: Key) { k in s.inbox && s.inbox[k].status.Parked? }

  function ReplayRow(s: State, k: Key): State
    requires k in s.inbox
  {
    Apply(s.(inbox := s.inbox[k := s.inbox[k].(status := Processed, processedAt := Some(s.clock))], audit := s.audit + [Replayed(k)]), k)
  }

  function DiscardRow(s: State, k: Key): State
    requires k in s.inbox
  {
    s.(inbox := s.inbox[k := s.inbox[k].(status := Discarded, processedAt := Some(s.clock))],
       history := s.history[k := Settlement(false, s.clock)], audit := s.audit + [Dropped(k)])
  }

  predicate Old(r: Row, now: int) { !r.status.Parked? && r.processedAt.Some? && r.processedAt.value < now - KEEP }

  function PurgeRows(inbox: map<Key, Row>, now: int): map<Key, Row> {
    map k | k in inbox && !Old(inbox[k], now) :: inbox[k]
  }

  // ---- the consumer ----------------------------------------------------------------

  function Decimal(n: nat): string {
    if n < 10 then ["0123456789"[n]] else Decimal(n / 10) + ["0123456789"[n % 10]]
  }

  /** The event a message stands for; an unreadable one is named by its place in the stream. */
  function EventName(stream: seq<Message>, n: nat): string
    requires n < |stream|
  {
    if stream[n].event.Some? then stream[n].event.value else "stream-seq-" + Decimal(n + 1)
  }

  /** Without the broker's delivery data the place is unknown, and taken to be 0. */
  function KeyFor(stream: seq<Message>, p: Pull, counted: bool): Key
    requires p.seqNo < |stream|
  {
    Key(p.consumer, if counted || stream[p.seqNo].event.Some? then EventName(stream, p.seqNo) else "stream-seq-0")
  }

  predicate Busy(s: State, w: nat) { w in s.workers && s.workers[w].pull.seqNo < |s.stream| }

  function Move(s: State, w: nat, phase: Phase): State
    requires w in s.workers
  {
    s.(workers := s.workers[w := s.workers[w].(phase := phase)])
  }

  function Gone(s: State, w: nat): State { s.(workers := s.workers - {w}) }

  function DoDeliver(s: State, w: nat, p: Pull, counted: bool): State {
    if w in s.workers || p.seqNo >= |s.stream| || p in s.acked || s.clock > s.stream[p.seqNo].publishedAt + RETENTION then s
    else
      var n := (if p in s.deliveries then s.deliveries[p] else 0) + 1;
      s.(deliveries := s.deliveries[p := n], workers := s.workers[w := Worker(p, KeyFor(s.stream, p, counted), if counted then n else 1, s.clock, Got)])
  }

  function DoTry(s: State, w: nat, attempt: Attempt): State {
    if !Busy(s, w) || !s.workers[w].phase.Got? then s
    else
      var k := s.workers[w].key;
      if s.stream[s.workers[w].pull.seqNo].event.None? then Move(s, w, Failed(true))
      else if attempt.NotStarted? then Move(s, w, Failed(false))
      else if k in s.inbox then Move(s, w, Answering(true))
      else
        match attempt
        case Commits => Move(Process(s, k), w, Answering(true))
        case CommitsButErrs => Move(Process(s, k), w, Failed(false))
        case Fails(permanent) => Move(s, w, Failed(permanent))
  }

  function DoPark(s: State, w: nat, write: Write): State {
    if !Busy(s, w) || !s.workers[w].phase.Failed? then s
    else
      var it := s.workers[w];
      if !it.phase.permanent && it.attempt < MAX_ATTEMPTS then Move(s, w, Answering(false))
      else
        Move(if write.NotDone? then s else ParkRow(s, it.key, it.attempt), w, Answering(write.Done?))
  }

  function DoAnswer(s: State, w: nat, lost: bool): State {
    if !Busy(s, w) || !s.workers[w].phase.Answering? then s
    else
      Gone(if s.workers[w].phase.ack && !lost then s.(acked := s.acked[s.workers[w].pull := s.workers[w].key]) else s, w)
  }

  function Do(s: State, step: Step): State {
    match step
    case Publish(event) => s.(stream := s.stream + [Message(event, s.clock)])
    case Deliver(w, p, counted) => DoDeliver(s, w, p, counted)
    case Try(w, attempt) => DoTry(s, w, attempt)
    case Park(w, write) => DoPark(s, w, write)
    case Answer(w, lost) => DoAnswer(s, w, lost)
    case Crash(w) => Gone(s, w)
    case Replay(k, succeeds) => if succeeds && IsParked(s, k) then ReplayRow(s, k) else s
    case Discard(k) => if IsParked(s, k) then DiscardRow(s, k) else s
    case Purge => s.(inbox := PurgeRows(s.inbox, s.clock))
    case Pass(time) => s.(clock := s.clock + time)
  }

  function Exec(s: State, steps: seq<Step>): State
    decreases |steps|
  {
    if steps == [] then s else Do(Exec(s, steps[..|steps| - 1]), steps[|steps| - 1])
  }

  // ---- the two transactions, one key at a time ---------------------------------------

  lemma WritesLeave(s: State, k: Key, attempts: nat)
    ensures forall t :: t == Process(s, k) || t == ParkRow(s, k, attempts) ==>
              t.workers == s.workers && t.deliveries == s.deliveries && t.acked == s.acked && t.stream == s.stream
  {}

  /** An attempt leaves the inbox alone or processes the worker's key; it never asks for a retry by itself. */
  lemma TryIs(s: State, w: nat, attempt: Attempt)
    requires Busy(s, w) && s.workers[w].phase.Got?
    ensures Process(s, s.workers[w].key).workers == s.workers
    ensures exists phase :: phase != Answering(false)
                         && (DoTry(s, w, attempt) == Move(s, w, phase) || DoTry(s, w, attempt) == Move(Process(s, s.workers[w].key), w, phase))
  {
    hide Process, Move;
    WritesLeave(s, s.workers[w].key, 0);
    var u := DoTry(s, w, attempt);
    var t := Process(s, s.workers[w].key);
    assert u == Move(s, w, Failed(true)) || u == Move(s, w, Failed(false)) || u == Move(s, w, Answering(true))
        || u == Move(t, w, Failed(false)) || u == Move(t, w, Answering(true));
  }

  /** After a failure the message is retried early, or its key parked; it is retried late only when parking failed. */
  lemma ParkIs(s: State, w: nat, write: Write)
    requires Busy(s, w) && s.workers[w].phase.Failed?
    ensures ParkRow(s, s.workers[w].key, s.workers[w].attempt).workers == s.workers
    ensures exists ack :: (ack || s.workers[w].attempt < MAX_ATTEMPTS || !write.Done?)
                       && (DoPark(s, w, write) == Move(s, w, Answering(ack))
                           || DoPark(s, w, write) == Move(ParkRow(s, s.workers[w].key, s.workers[w].attempt), w, Answering(ack)))
  {
    hide ParkRow, Move;
    WritesLeave(s, s.workers[w].key, s.workers[w].attempt);
    var u := DoPark(s, w, write);
    var t := ParkRow(s, s.workers[w].key, s.workers[w].attempt);
    if !s.workers[w].phase.permanent && s.workers[w].attempt < MAX_ATTEMPTS {
      assert u == Move(s, w, Answering(false));
    } else if write.NotDone? {
      assert u == Move(s, w, Answering(false));
    } else {
      assert u == Move(t, w, Answering(write.Done?));
    }
  }
}
