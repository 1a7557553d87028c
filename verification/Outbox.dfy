/**
 The transactional audit outbox: its table, the SQL statements that touch it and
 the relay built on them. Every statement is one atomic step. PostgreSQL's
 `clock_timestamp()` may advance inside a statement, so a statement is given two
 readings: `seen` for its WHERE clause and `stamp` for the values it writes.
 */
module Outbox {
  import opened Prelude

  type Uuid = nat

  // Database time is counted in microseconds.
  const SECOND := 1_000_000
  const LEASE := 60 * SECOND
  const DB_TIMEOUT := 5 * SECOND
  const SEND_TIMEOUT := 30 * SECOND
  const MAX_PAYLOAD := 262144

  datatype Lease = Lease(token: Uuid, until: int)

  // lease_token and lease_until are null together, by a CHECK of the table.
  datatype Row = Row(service: string, payload: Bytes, enqueuedAt: int, nextAttempt: int, attempts: nat,
                     lease: Option<Lease>)

  type Table = map<Uuid, Row>

  datatype Claim = Claim(id: Uuid, token: Uuid, payload: Bytes, attempts: nat)

  /** What PrepareEvent, ValidateEvent and json.Marshal make of the caller's event. */
  datatype Submission =
    | Malformed
    | Prepared(id: Uuid, service: string, valid: bool, payload: Bytes)

  datatype Error =
    | BadEvent | ServiceMismatch | InvalidEvent | TooLarge | IdentityConflict
    | LeaseLost | TransportRequired | DeliveryFailed | DatabaseError

  // ---------- EnqueueTx ----------

  /** The checks that EnqueueTx makes before it talks to the database. */
  function Admit(service: string, sub: Submission): Option<Error> {
    if sub.Malformed? then Some(BadEvent)
    else if sub.service != "" && sub.service != service then Some(ServiceMismatch)
    else if !sub.valid then Some(InvalidEvent)
    else if |sub.payload| > MAX_PAYLOAD then Some(TooLarge)
    else None
  }

  function FreshRow(service: string, payload: Bytes, seen: int, stamp: int): Row {
    Row(service, payload, seen, stamp, 0, None)
  }

  predicate SameContent(r: Row, service: string, payload: Bytes) {
    r.service == service && r.payload == payload
  }

  /** The table and the error after EnqueueTx and the commit of the caller's transaction. */
  function Enqueued(t: Table, service: string, sub: Submission, seen: int, stamp: int): (Table, Option<Error>) {
    var refused := Admit(service, sub);
    if refused.Some? then (t, refused)
    else if sub.id !in t then (t[sub.id := FreshRow(service, sub.payload, seen, stamp)], None)
    else if SameContent(t[sub.id], service, sub.payload) then (t, None)
    else (t, Some(IdentityConflict))
  }

  // ---------- claim ----------

  predicate Due(r: Row, service: string, now: int) {
    && r.service == service
    && r.nextAttempt <= now
    && (r.lease.None? || r.lease.value.until <= now)
  }

  predicate Eligible(t: Table, service: string, now: int, locked: set<Uuid>, id: Uuid) {
    id in t && id !in locked && Due(t[id], service, now)
  }

  /** ORDER BY next_attempt, enqueued_at, id */
  predicate Before(t: Table, a: Uuid, b: Uuid)
    requires a in t && b in t
  {
    || t[a].nextAttempt < t[b].nextAttempt
    || (t[a].nextAttempt == t[b].nextAttempt && t[a].enqueuedAt < t[b].enqueuedAt)
    || (t[a].nextAttempt == t[b].nextAttempt && t[a].enqueuedAt == t[b].enqueuedAt && a < b)
  }

  /** The row that the candidate query locks; rows in `locked` are skipped. */
  ghost predicate IsCandidate(t: Table, service: string, now: int, locked: set<Uuid>, id: Uuid) {
    && Eligible(t, service, now, locked, id)
    && forall other :: Eligible(t, service, now, locked, other) && other != id ==> Before(t, id, other)
  }

  function Leased(r: Row, token: Uuid, stamp: int): Row {
    r.(lease := Some(Lease(token, stamp + LEASE)), attempts := r.attempts + 1)
  }

  lemma CandidateIsUnique(t: Table, service: string, now: int, locked: set<Uuid>, a: Uuid, b: Uuid)
    requires IsCandidate(t, service, now, locked, a)
    requires IsCandidate(t, service, now, locked, b)
    ensures a == b
  {
  }

  // ---------- finish ----------

  /** The guard shared by both finish statements: the token is the current one and its lease is live. */
  predicate Holds(t: Table, id: Uuid, token: Uuid, now: int) {
    id in t && t[id].lease.Some? && t[id].lease.value.token == token && t[id].lease.value.until > now
  }

  function RetrySeconds(attempts: int): int {
    if attempts > 5 then 30
    else if attempts < 1 then 1
    else Pow2(attempts - 1)
  }

  function Released(r: Row, attempts: int, stamp: int): Row {
    r.(nextAttempt := stamp + RetrySeconds(attempts) * SECOND, lease := None)
  }

  function Finished(t: Table, c: Claim, delivered: bool, seen: int, stamp: int): (Table, Option<Error>) {
    if !Holds(t, c.id, c.token, seen) then (t, Some(LeaseLost))
    else if delivered then (t - {c.id}, None)
    else (t[c.id := Released(t[c.id], c.attempts, stamp)], None)
  }

  /** Retry delays double from one second and are capped at thirty, for every attempt count. */
  lemma RetrySecondsBounds(a: int, b: int)
    requires a <= b
    ensures 1 <= RetrySeconds(a) <= RetrySeconds(b) <= 30
    ensures 1 <= a ==> RetrySeconds(a) == Min(Pow2(a - 1), 30)
  {
    assert Pow2(0) == 1 && Pow2(1) == 2 && Pow2(2) == 4 && Pow2(3) == 8 && Pow2(4) == 16;
    if a > 5 { Pow2Exceeds(a - 1); }
  }

  lemma {:induction false} Pow2Exceeds(n: nat)
    requires n >= 5
    ensures Pow2(n) >= 32
  {
    if n == 5 {
      assert Pow2(1) == 2 && Pow2(3) == 8;
    } else {
      Pow2Exceeds(n - 1);
    }
  }

  /** finish changes the table exactly when it reports success, and only the claimed row. */
  lemma FinishChangesOnlyALiveClaim(t: Table, c: Claim, delivered: bool, seen: int, stamp: int)
    ensures var (t', err) := Finished(t, c, delivered, seen, stamp);
      && (t' == t <==> !Holds(t, c.id, c.token, seen))
      && (err == Some(LeaseLost) <==> !Holds(t, c.id, c.token, seen))
      && (err.None? <==> Holds(t, c.id, c.token, seen))
      && (c.id in t' <==> c.id in t && !(delivered && err.None?))
      && (forall id :: id != c.id ==> (id in t' <==> id in t) && (id in t ==> t'[id] == t[id]))
  {
    var t' := Finished(t, c, delivered, seen, stamp).0;
    if Holds(t, c.id, c.token, seen) {
      if !delivered {
        assert t'[c.id].lease.None? && t[c.id].lease.Some?;
      } else {
        assert c.id in t && c.id !in t';
      }
    }
  }

  /**
   Re-enqueueing never touches a pending row: identical content succeeds and leaves
   every lease, attempt and schedule field alone, different content is refused, and
   an unknown id gains one immediately due row.
   */
  lemma EnqueueNeverTouchesAPendingRow(t: Table, service: string, sub: Submission, seen: int, stamp: int)
    ensures var (t', err) := Enqueued(t, service, sub, seen, stamp);
      && (forall id :: id in t ==> id in t' && t'[id] == t[id])
      && (err.Some? ==> t' == t)
      && (err.None? ==>
            && sub.Prepared?
            && t'.Keys == t.Keys + {sub.id}
            && SameContent(t'[sub.id], service, sub.payload)
            && (sub.id !in t ==> Due(t'[sub.id], service, stamp)))
      && (err == Some(IdentityConflict) <==>
          Admit(service, sub).None? && sub.id in t && !SameContent(t[sub.id], service, sub.payload))
  {
  }

  /** An enqueue succeeds for exactly these submissions, and the row of a new id starts due, unclaimed and unleased. */
  lemma EnqueueSucceedsIff(t: Table, service: string, sub: Submission, seen: int, stamp: int)
    ensures var (t', err) := Enqueued(t, service, sub, seen, stamp);
      && (err.None? <==>
            && sub.Prepared? && sub.service in {"", service} && sub.valid && |sub.payload| <= 262144
            && (sub.id in t ==> t[sub.id].service == service && t[sub.id].payload == sub.payload))
      && (err.None? && sub.id !in t ==> t' == t[sub.id := Row(service, sub.payload, seen, stamp, 0, None)])
      && (err == Some(BadEvent) <==> sub.Malformed?)
      && (err == Some(ServiceMismatch) <==> sub.Prepared? && sub.service !in {"", service})
      && (err == Some(InvalidEvent) <==> sub.Prepared? && sub.service in {"", service} && !sub.valid)
      && (err == Some(TooLarge) <==>
            sub.Prepared? && sub.service in {"", service} && sub.valid && |sub.payload| > 262144)
  {
  }

  /** What a round that claimed `id` leaves behind, told by the lease alone. */
  function DeliveryOf(t: Table, id: Uuid, token: Uuid, ok: bool, claimStamp: int, finishSeen: int, finishStamp: int)
    : (Table, Option<Error>)
    requires id in t
  {
    var row := Leased(t[id], token, claimStamp);
    if finishSeen >= claimStamp + LEASE then (t[id := row], Some(LeaseLost))
    else if ok then (t - {id}, None)
    else (t[id := Released(row, row.attempts, finishStamp)], Some(DeliveryFailed))
  }

  /** A finish right after its own claim is decided by the lease alone. */
  lemma FinishedAfterClaim(t: Table, id: Uuid, token: Uuid, ok: bool, claimStamp: int, finishSeen: int, finishStamp: int)
    requires id in t
    ensures var row := Leased(t[id], token, claimStamp);
      var finished := Finished(t[id := row], Claim(id, token, row.payload, row.attempts), ok, finishSeen, finishStamp);
      DeliveryOf(t, id, token, ok, claimStamp, finishSeen, finishStamp) ==
        (finished.0, if finished.1.Some? then finished.1 else if ok then None else Some(DeliveryFailed))
  {
    var row := Leased(t[id], token, claimStamp);
    assert t[id := row] - {id} == t - {id};
    var released := Released(row, row.attempts, finishStamp);
    assert t[id := row][id := released] == t[id := released];
  }

  /** How a database call fares: it works, it never reaches the database, or only its answer is lost. */
  datatype Link = Works | Unreached | AnswerLost

  /** The same under a finish call that may fail. A finish that never arrives leaves the lease to expire. */
  function RoundOf(t: Table, id: Uuid, token: Uuid, ok: bool, link: Link, claimStamp: int, finishSeen: int, finishStamp: int)
    : (Table, Option<Error>)
    requires id in t
  {
    var (after, err) := DeliveryOf(t, id, token, ok, claimStamp, finishSeen, finishStamp);
    match link
    case Works => (after, err)
    case AnswerLost => (after, Some(DatabaseError))
    case Unreached => (t[id := Leased(t[id], token, claimStamp)], Some(DatabaseError))
  }

  /**
   A round loses its row exactly after a send that succeeded and a finish that arrived inside
   the lease. Otherwise the row keeps its content with one more attempt: still leased if the
   finish never arrived or came late, else released. All other rows stay.
   */
  lemma RoundLosesOnlyDeliveredRows(t: Table, id: Uuid, token: Uuid, ok: bool, link: Link,
                                    claimStamp: int, finishSeen: int, finishStamp: int)
    requires id in t
    ensures var (after, err) := RoundOf(t, id, token, ok, link, claimStamp, finishSeen, finishStamp);
      var finished := !link.Unreached? && finishSeen < claimStamp + 60 * SECOND;
      && after.Keys == (if finished && ok then t.Keys - {id} else t.Keys)
      && (forall x :: x in after && x != id ==> after[x] == t[x])
      && (id in after ==>
            && after[id].service == t[id].service && after[id].payload == t[id].payload
            && after[id].enqueuedAt == t[id].enqueuedAt && after[id].attempts == t[id].attempts + 1
            && after[id].lease == (if finished then None else Some(Lease(token, claimStamp + 60 * SECOND))))
      && (err.None? <==> link.Works? && finished && ok)
      && (err == Some(DatabaseError) <==> !link.Works?)
      && (err == Some(LeaseLost) <==> link.Works? && !finished)
  {
  }

  class Database {
    var rows: Table

    constructor ()
      ensures rows == map[]
    {
      rows := map[];
    }
  }

  /** One service's handle on the shared table. */
  class PGOutbox {
    const db: Database
    const service: string

    constructor (db: Database, service: string)
      ensures this.db == db && this.service == service
    {
      this.db := db;
      this.service := service;
    }

    method EnqueueTx(sub: Submission, seen: int, stamp: int) returns (err: Option<Error>)
      modifies db
      ensures (db.rows, err) == Enqueued(old(db.rows), service, sub, seen, stamp)
    {
      if sub.Malformed? { return Some(BadEvent); }
      if sub.service != "" && sub.service != service { return Some(ServiceMismatch); }
      if !sub.valid { return Some(InvalidEvent); }
      if |sub.payload| > MAX_PAYLOAD { return Some(TooLarge); }
      var affected := 0;
      if sub.id !in db.rows {
        db.rows := db.rows[sub.id := FreshRow(service, sub.payload, seen, stamp)];
        affected := 1;
      } else if SameContent(db.rows[sub.id], service, sub.payload) {
        affected := 1;
      }
      if affected != 1 { return Some(IdentityConflict); }
      return None;
    }

    /** The row the ORDER BY ... LIMIT 1 query returns, found by one scan. */
    method Candidate(now: int, locked: set<Uuid>) returns (best: Option<Uuid>)
      ensures best.None? ==> forall id :: !Eligible(db.rows, service, now, locked, id)
      ensures best.Some? ==> IsCandidate(db.rows, service, now, locked, best.value)
    {
      best := None;
      var todo := db.rows.Keys;
      while todo != {}
        invariant todo <= db.rows.Keys
        invariant best.None? ==>
          forall id :: id in db.rows.Keys - todo ==> !Eligible(db.rows, service, now, locked, id)
        invariant best.Some? ==> best.value !in todo && Eligible(db.rows, service, now, locked, best.value)
        invariant best.Some? ==>
          forall id | id in db.rows.Keys - todo && id != best.value ::
            Eligible(db.rows, service, now, locked, id) ==> Before(db.rows, best.value, id)
        decreases todo
      {
        var id :| id in todo;
        todo := todo - {id};
        if Eligible(db.rows, service, now, locked, id)
          && (best.None? || Before(db.rows, id, best.value)) {
          best := Some(id);
        }
      }
    }

    method ClaimRow(token: Uuid, locked: set<Uuid>, seen: int, stamp: int) returns (claim: Option<Claim>)
      modifies db
      ensures claim.None? ==>
        db.rows == old(db.rows) && forall id :: !Eligible(old(db.rows), service, seen, locked, id)
      ensures claim.Some? ==>
        var c := claim.value;
        && IsCandidate(old(db.rows), service, seen, locked, c.id)
        && db.rows == old(db.rows)[c.id := Leased(old(db.rows)[c.id], token, stamp)]
        && c == Claim(c.id, token, db.rows[c.id].payload, db.rows[c.id].attempts)
    {
      var best := Candidate(seen, locked);
      if best.None? { return None; }
      var row := Leased(db.rows[best.value], token, stamp);
      db.rows := db.rows[best.value := row];
      return Some(Claim(best.value, token, row.payload, row.attempts));
    }

    method Finish(c: Claim, delivered: bool, seen: int, stamp: int) returns (err: Option<Error>)
      modifies db
      ensures (db.rows, err) == Finished(old(db.rows), c, delivered, seen, stamp)
    {
      var affected := 0;
      if Holds(db.rows, c.id, c.token, seen) {
        affected := 1;
        if delivered {
          db.rows := db.rows - {c.id};
        } else {
          db.rows := db.rows[c.id := Released(db.rows[c.id], c.attempts, stamp)];
        }
      }
      if affected != 1 { return Some(LeaseLost); }
      return None;
    }

    /**
     One relay round without interference. `decodes` says whether the payload unmarshals and
     `sends` whether the transport then reports success; either database call may fail. The
     claimed row leaves the table only after a reported success inside its lease; in every
     other case it stays with its payload intact.
     */
    method DeliverOne(hasTransport: bool, token: Uuid, locked: set<Uuid>, decodes: bool, sends: bool,
                      claimLink: Link, finishLink: Link,
                      claimSeen: int, claimStamp: int, finishSeen: int, finishStamp: int)
      returns (worked: bool, err: Option<Error>)
      requires claimSeen <= claimStamp <= finishSeen <= finishStamp
      modifies db
      ensures !hasTransport ==> db.rows == old(db.rows) && !worked && err == Some(TransportRequired)
      ensures hasTransport && !claimLink.Works? ==> !worked && err == Some(DatabaseError)
      ensures hasTransport && claimLink.Unreached? ==> db.rows == old(db.rows)
      ensures hasTransport && claimLink.AnswerLost? ==>
        || (db.rows == old(db.rows) && forall id :: !Eligible(old(db.rows), service, claimSeen, locked, id))
        || exists id ::
             && IsCandidate(old(db.rows), service, claimSeen, locked, id)
             && db.rows == old(db.rows)[id := Leased(old(db.rows)[id], token, claimStamp)]
      ensures hasTransport && claimLink.Works? && !worked ==>
        && db.rows == old(db.rows) && err.None?
        && forall id :: !Eligible(old(db.rows), service, claimSeen, locked, id)
      ensures worked ==>
        exists id ::
          && IsCandidate(old(db.rows), service, claimSeen, locked, id)
          && (db.rows, err)
             == RoundOf(old(db.rows), id, token, decodes && sends, finishLink, claimStamp, finishSeen, finishStamp)
    {
      if !hasTransport { return false, Some(TransportRequired); }
      if claimLink.Unreached? { return false, Some(DatabaseError); }
      var claim := ClaimRow(token, locked, claimSeen, claimStamp);
      if claimLink.AnswerLost? { return false, Some(DatabaseError); }
      if claim.None? { return false, None; }
      var sendOk := decodes;
      if sendOk { sendOk := sends; }
      if finishLink.Unreached? { return true, Some(DatabaseError); }
      ghost var before := old(db.rows);
      ghost var id := claim.value.id;
      var finishErr := Finish(claim.value, sendOk, finishSeen, finishStamp);
      FinishedAfterClaim(before, id, token, sendOk, claimStamp, finishSeen, finishStamp);
      if finishLink.AnswerLost? { return true, Some(DatabaseError); }
      if finishErr.Some? { return true, finishErr; }
      if !sendOk { return true, Some(DeliveryFailed); }
      return true, None;
    }
  }

  /** A handle needs a pool and a service name. */
  method NewPGOutbox(db: Database?, service: string) returns (o: PGOutbox?)
    ensures o == null <==> db == null || service == ""
    ensures o != null ==> o.db == db && o.service == service
  {
    if db == null || service == "" { return null; }
    o := new PGOutbox(db, service);
  }
}
