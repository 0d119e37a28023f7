/** Reservation of one (actor, operation, key) by concurrent requests. */
module Idempotency {
  import opened Common

  type RecordId = nat
  type RequestId = nat

  const UNKNOWN_AFTER: nat := 300

  datatype Record = Record(id: RecordId, digest: string, completed: Option<nat>, updatedAt: int)

  datatype Refusal = KeyReused | OutcomeUnknown | InProgress | AlreadyCompleted

  /** `_replay_or_conflict`: an existing record always refuses, it never lets the handler run. */
  function Refuse(record: Record, digest: string, now: int): Refusal {
    if record.digest != digest then KeyReused
    else if record.completed == None then
      if record.updatedAt <= now - UNKNOWN_AFTER then OutcomeUnknown else InProgress
    else AlreadyCompleted
  }

  function Reserve(row: Option<Record>, id: RecordId, digest: string, now: int): Option<Record> {
    if row == None then Some(Record(id, digest, None, now)) else row
  }

  function Complete(row: Option<Record>, id: RecordId, status: nat, now: int): Option<Record> {
    if row.Some? && row.value.id == id then Some(row.value.(completed := Some(status), updatedAt := now)) else row
  }

  function Delete(row: Option<Record>, id: RecordId): Option<Record> {
    if row.Some? && row.value.id == id then None else row
  }

  /** The unique row of the key; each method is one transaction of the middleware. */
  class Reservation {
    var row: Option<Record>

    constructor ()
      ensures row == None
    {
      row := None;
    }

    method TryReserve(id: RecordId, digest: string, now: int) returns (inserted: bool)
      modifies this
      ensures inserted <==> old(row) == None
      ensures row == Reserve(old(row), id, digest, now)
      ensures row == if old(row) == None then Some(Record(id, digest, None, now)) else old(row)
    {
      inserted := row == None;
      if inserted {
        row := Some(Record(id, digest, None, now));
      }
    }

    method SaveOutcome(id: RecordId, status: nat, now: int)
      modifies this
      ensures row == Complete(old(row), id, status, now)
      ensures old(row).Some? && old(row).value.id == id ==>
                row == Some(Record(id, old(row).value.digest, Some(status), now))
      ensures !(old(row).Some? && old(row).value.id == id) ==> row == old(row)
    {
      if row.Some? && row.value.id == id {
        row := Some(row.value.(completed := Some(status), updatedAt := now));
      }
    }

    method DeleteReservation(id: RecordId)
      modifies this
      ensures row == Delete(old(row), id)
      ensures row == if old(row).Some? && old(row).value.id == id then None else old(row)
    {
      if row.Some? && row.value.id == id {
        row := None;
      }
    }
  }

  // ---------------------------------------------------------------- any interleaving of requests

  /** Where one request stands. A crashed request never moves again. */
  datatype Phase =
    | Arrived(digest: string)
    | SawNothing(digest: string)
    | LostRace(digest: string)
    | Handling(record: RecordId)
    | Saving(record: RecordId, status: nat)
    | Deleting(record: RecordId)
    | Refused(why: Refusal)
    | Ended
    | Crashed

  /** `used` are the record ids given out, `started` the requests whose handler ran, in order. */
  datatype State = State(now: int, row: Option<Record>, requests: map<RequestId, Phase>, used: set<RecordId>,
                         started: seq<RequestId>)

  datatype Outcome = Cacheable(status: nat) | Uncacheable | HandlerError

  datatype Event =
    | Tick(seconds: nat)
    | Arrive(request: RequestId, digest: string)
    | Look(request: RequestId)
    | Insert(request: RequestId, record: RecordId)
    | LookAgain(request: RequestId)
    | Return(request: RequestId, outcome: Outcome)
    | Commit(request: RequestId)
    | Crash(request: RequestId)

  function Apply(s: State, e: Event): State {
    match e
    case Tick(seconds) => s.(now := s.now + seconds)
    case Arrive(q, digest) => if q in s.requests then s else s.(requests := s.requests[q := Arrived(digest)])
    case Look(q) =>
      if q !in s.requests || !s.requests[q].Arrived? then s
      else if s.row.Some? then
        s.(requests := s.requests[q := Refused(Refuse(s.row.value, s.requests[q].digest, s.now))])
      else s.(requests := s.requests[q := SawNothing(s.requests[q].digest)])
    case Insert(q, id) =>
      if q !in s.requests || !s.requests[q].SawNothing? || id in s.used then s
      else if s.row == None then
        State(s.now, Reserve(s.row, id, s.requests[q].digest, s.now), s.requests[q := Handling(id)],
              s.used + {id}, s.started + [q])
      else s.(requests := s.requests[q := LostRace(s.requests[q].digest)])
    case LookAgain(q) =>
      if q !in s.requests || !s.requests[q].LostRace? then s
      else if s.row.Some? then
        s.(requests := s.requests[q := Refused(Refuse(s.row.value, s.requests[q].digest, s.now))])
      else s.(requests := s.requests[q := Ended])                  // the assertion fails before any handler
    case Return(q, outcome) =>
      if q !in s.requests || !s.requests[q].Handling? then s
      else
        var id := s.requests[q].record;
        s.(requests := s.requests[q := if outcome.Cacheable? then Saving(id, outcome.status) else Deleting(id)])
    case Commit(q) =>
      if q !in s.requests then s
      else
        (match s.requests[q]
         case Saving(id, status) => s.(row := Complete(s.row, id, status, s.now), requests := s.requests[q := Ended])
         case Deleting(id) => s.(row := Delete(s.row, id), requests := s.requests[q := Ended])
         case _ => s)
    case Crash(q) => if q in s.requests then s.(requests := s.requests[q := Crashed]) else s
  }

  function Run(s: State, events: seq<Event>): State
    decreases |events|
  {
    if events == [] then s else Run(Apply(s, events[0]), events[1..])
  }

  function Init(now: int): State {
    State(now, None, map[], {}, [])
  }

  /** Between reserving and completing or deleting. */
  predicate Owns(p: Phase) {
    p.Handling? || p.Saving? || p.Deleting?
  }

  ghost predicate Inv(s: State) {
    && (s.row.Some? ==> s.row.value.id in s.used)
    && (forall q :: q in s.requests && Owns(s.requests[q]) ==>
          s.row.Some? && s.row.value.id == s.requests[q].record && s.row.value.completed == None)
    && (forall p, q :: p in s.requests && q in s.requests && Owns(s.requests[p]) && Owns(s.requests[q]) ==> p == q)
  }

  lemma {:induction false} ReservationInv(s: State, events: seq<Event>)
    requires Inv(s)
    ensures Inv(Run(s, events))
    decreases |events|
  {
    if events != [] {
      assert Inv(Apply(s, events[0]));
      ReservationInv(Apply(s, events[0]), events[1..]);
    }
  }

  /** At most one request is ever between reserving and completing or deleting. */
  lemma {:induction false} SingleOwner(now: int, events: seq<Event>, p: RequestId, q: RequestId)
    requires var s := Run(Init(now), events);
             p in s.requests && q in s.requests && Owns(s.requests[p]) && Owns(s.requests[q])
    ensures p == q
  {
    ReservationInv(Init(now), events);
  }

  /** The key is settled: it has a record, and no live request owns it. */
  ghost predicate Settled(s: State) {
    s.row.Some? && forall q :: q in s.requests ==> !Owns(s.requests[q])
  }

  /** Once a completion is recorded, or the owner crashed before deleting its reservation, the record
      stays as it is and no handler ever starts again for the key. */
  lemma {:induction false} SettledForever(s: State, events: seq<Event>)
    requires Inv(s) && Settled(s)
    ensures Run(s, events).row == s.row && Run(s, events).started == s.started && Settled(Run(s, events))
    decreases |events|
  {
    if events != [] {
      SettledForever(Apply(s, events[0]), events[1..]);
    }
  }

  lemma CompletionSettles(s: State, request: RequestId)
    requires Inv(s) && request in s.requests && s.requests[request].Saving?
    ensures Settled(Apply(s, Commit(request))) && Apply(s, Commit(request)).row.value.completed.Some?
  {
  }

  lemma OwnerCrashSettles(s: State, request: RequestId)
    requires Inv(s) && request in s.requests && Owns(s.requests[request])
    ensures Settled(Apply(s, Crash(request))) && Apply(s, Crash(request)).row == s.row
  {
  }

  /** What a request is told that finds a record, at once or after losing the race for the key: that the
      key was used for another request, that an outcome is unknown after five minutes, that the first
      request is still at work, or that it completed. Nothing else changes. */
  lemma RefusalExact(s: State, q: RequestId, digest: string, e: Event)
    requires q in s.requests && s.row.Some?
    requires || (s.requests[q] == Arrived(digest) && e == Look(q))
             || (s.requests[q] == LostRace(digest) && e == LookAgain(q))
    ensures var record := s.row.value;
            var why := if record.digest != digest then KeyReused
                       else if record.completed.Some? then AlreadyCompleted
                       else if s.now - record.updatedAt >= 300 then OutcomeUnknown else InProgress;
            Apply(s, e) == s.(requests := s.requests[q := Refused(why)])
  {
  }

  /** A request without a record goes on to reserve the key, under a fresh id. */
  lemma ReservationExact(s: State, q: RequestId, digest: string, id: RecordId)
    requires q in s.requests && s.requests[q] == Arrived(digest) && s.row == None && id !in s.used
    ensures var t := Apply(Apply(s, Look(q)), Insert(q, id));
            && t.requests[q] == Handling(id) && t.row == Some(Record(id, digest, None, s.now))
            && t.started == s.started + [q]
  {
  }

  /** An answer that can be kept completes the record; any other, and an error, frees the key. */
  lemma OutcomeExact(s: State, q: RequestId, outcome: Outcome)
    requires Inv(s) && q in s.requests && s.requests[q].Handling?
    ensures var t := Apply(Apply(s, Return(q, outcome)), Commit(q));
            && t.requests[q] == Ended
            && t.row == match outcome
                        case Cacheable(status) =>
                          Some(Record(s.row.value.id, s.row.value.digest, Some(status), s.now))
                        case _ => None
  {
  }

  /** A handler starts only on a free key, and a free key lets exactly the inserting request start. */
  lemma HandlerStartsExactly(s: State, e: Event)
    requires Inv(s)
    ensures Apply(s, e).started != s.started <==>
              && e.Insert? && e.request in s.requests && s.requests[e.request].SawNothing?
              && e.record !in s.used && s.row == None
    ensures Apply(s, e).started != s.started ==> forall q :: q in s.requests ==> !Owns(s.requests[q])
  {
  }
}
