/**
 All runs of the outbox: any number of workers of any services, crashes, lost claim
 answers, lost receipts, expired leases and an advancing clock, in every interleaving
 of the statements of module Outbox.
 */
module OutboxRuns {
  import opened Prelude
  import opened Outbox

  /** An audit event as the business transaction committed it. */
  datatype Item = Item(id: Uuid, service: string, payload: Bytes)

  datatype Phase = Idle | Claimed(claim: Claim) | Sent(claim: Claim, ok: bool)

  datatype Worker = Worker(service: string, phase: Phase)

  /** A claim as issued by the database, with its owner and the end of its lease. */
  datatype Issue = Issue(claim: Claim, service: string, until: int)

  /**
   `history` lists the ids of all claims ever taken and `births` its length when a
   pending row was inserted. `received` holds what the ingest accepted and `confirmed`
   what a Send reported as accepted.
   */
  datatype State = State(
    now: int, table: Table, workers: map<nat, Worker>,
    issued: map<Uuid, Issue>, history: seq<Uuid>, births: map<Uuid, nat>,
    committed: set<Item>, received: set<Item>, confirmed: set<Item>)

  datatype Event =
    | Tick(now: int)
    | Enqueue(service: string, sub: Submission, seen: int, stamp: int)
    | TakeClaim(w: nat, id: Uuid, token: Uuid, locked: set<Uuid>, seen: int, stamp: int, answered: bool)
    | Send(w: nat, accepted: bool, ok: bool)
    | Finish(w: nat, seen: int, stamp: int)
    | Crash(w: nat)

  ghost predicate Init(s: State) {
    && s.table == map[] && s.issued == map[] && s.history == [] && s.births == map[]
    && s.committed == {} && s.received == {} && s.confirmed == {}
    && forall w :: w in s.workers ==> s.workers[w].phase.Idle?
  }

  predicate Working(s: State, w: nat) {
    w in s.workers && !s.workers[w].phase.Idle?
  }

  ghost predicate Enabled(s: State, e: Event) {
    match e
    case Tick(now) => s.now <= now
    case Enqueue(_, _, seen, stamp) => seen <= stamp <= s.now
    case TakeClaim(w, id, token, locked, seen, stamp, _) =>
      && w in s.workers && s.workers[w].phase.Idle?
      && s.now <= seen <= stamp
      && token !in s.issued
      && IsCandidate(s.table, s.workers[w].service, seen, locked, id)
    case Send(w, accepted, ok) => w in s.workers && s.workers[w].phase.Claimed? && (ok ==> accepted)
    case Finish(w, seen, stamp) => w in s.workers && s.workers[w].phase.Sent? && s.now <= seen <= stamp
    case Crash(w) => w in s.workers
  }

  function WithPhase(s: State, w: nat, p: Phase): State
    requires w in s.workers
  {
    s.(workers := s.workers[w := s.workers[w].(phase := p)])
  }

  function AfterEnqueue(s: State, service: string, sub: Submission, seen: int, stamp: int): State {
    var (t, err) := Enqueued(s.table, service, sub, seen, stamp);
    if err.Some? then s
    else
      s.(table := t,
         committed := s.committed + {Item(sub.id, service, sub.payload)},
         births := if sub.id in s.table then s.births else s.births[sub.id := |s.history|])
  }

  function AfterClaim(s: State, w: nat, id: Uuid, token: Uuid, stamp: int, answered: bool): State
    requires w in s.workers && id in s.table
  {
    var row := Leased(s.table[id], token, stamp);
    var claim := Claim(id, token, row.payload, row.attempts);
    var s1 := s.(now := stamp,
                 table := s.table[id := row],
                 issued := s.issued[token := Issue(claim, s.workers[w].service, stamp + LEASE)],
                 history := s.history + [id]);
    if answered then WithPhase(s1, w, Claimed(claim)) else s1
  }

  function AfterSend(s: State, w: nat, accepted: bool, ok: bool): State
    requires w in s.workers && s.workers[w].phase.Claimed?
  {
    var c := s.workers[w].phase.claim;
    var item := Item(c.id, s.workers[w].service, c.payload);
    WithPhase(s, w, Sent(c, ok)).(
      received := if accepted then s.received + {item} else s.received,
      confirmed := if ok then s.confirmed + {item} else s.confirmed)
  }

  function AfterFinish(s: State, w: nat, seen: int, stamp: int): State
    requires w in s.workers && s.workers[w].phase.Sent?
  {
    var p := s.workers[w].phase;
    WithPhase(s, w, Idle).(now := stamp, table := Finished(s.table, p.claim, p.ok, seen, stamp).0)
  }

  ghost function Apply(s: State, e: Event): State
    requires Enabled(s, e)
  {
    match e
    case Tick(now) => s.(now := now)
    case Enqueue(service, sub, seen, stamp) => AfterEnqueue(s, service, sub, seen, stamp)
    case TakeClaim(w, id, token, _, _, stamp, answered) => AfterClaim(s, w, id, token, stamp, answered)
    case Send(w, accepted, ok) => AfterSend(s, w, accepted, ok)
    case Finish(w, seen, stamp) => AfterFinish(s, w, seen, stamp)
    case Crash(w) => WithPhase(s, w, Idle)
  }

  ghost predicate Run(tr: seq<State>, es: seq<Event>) {
    && |tr| == |es| + 1
    && Init(tr[0])
    && forall i {:trigger es[i]} :: 0 <= i < |es| ==> Enabled(tr[i], es[i]) && tr[i + 1] == Apply(tr[i], es[i])
  }

  // ---------- The invariant ----------

  /** A lease in the table was issued for exactly this row. */
  ghost predicate LeaseRecorded(s: State, id: Uuid)
    requires id in s.table
  {
    var row := s.table[id];
    row.lease.Some? ==>
      && row.attempts >= 1
      && row.lease.value.token in s.issued
      && s.issued[row.lease.value.token]
         == Issue(Claim(id, row.lease.value.token, row.payload, row.attempts), row.service, row.lease.value.until)
  }

  ghost predicate RowScheduled(s: State, id: Uuid)
    requires id in s.table
  {
    var row := s.table[id];
    && |row.payload| <= MAX_PAYLOAD
    && row.nextAttempt <= s.now + 30 * SECOND
    && (row.lease.Some? ==> row.lease.value.until <= s.now + LEASE)
    && Item(id, row.service, row.payload) in s.committed
  }

  ghost predicate RowCounted(s: State, id: Uuid)
    requires id in s.table
  {
    && id in s.births && s.births[id] <= |s.history|
    && s.table[id].attempts == Occurrences(s.history[s.births[id]..], id)
  }

  ghost predicate WorkerSound(s: State, w: nat)
    requires w in s.workers
  {
    var p := s.workers[w].phase;
    p.Idle? ||
    (&& p.claim.token in s.issued
     && s.issued[p.claim.token].claim == p.claim
     && s.issued[p.claim.token].service == s.workers[w].service
     && (p.Sent? && p.ok ==> Item(p.claim.id, s.workers[w].service, p.claim.payload) in s.confirmed))
  }

  ghost predicate IssueSound(s: State, token: Uuid)
    requires token in s.issued
  {
    var i := s.issued[token];
    i.claim.token == token && Item(i.claim.id, i.service, i.claim.payload) in s.committed
  }

  predicate Held(s: State, x: Item) {
    x.id in s.table && SameContent(s.table[x.id], x.service, x.payload)
  }

  ghost predicate Custody(s: State) {
    && (forall x :: x in s.committed ==> Held(s, x) || x in s.confirmed)
    && s.confirmed <= s.received <= s.committed
  }

  /** No two workers hold the same claim. */
  ghost predicate Exclusive(s: State) {
    forall v, w | Working(s, v) && Working(s, w) && v != w ::
      s.workers[v].phase.claim.token != s.workers[w].phase.claim.token
  }

  ghost predicate Inv(s: State) {
    && (forall id {:trigger LeaseRecorded(s, id)} :: id in s.table ==> LeaseRecorded(s, id))
    && (forall id {:trigger RowScheduled(s, id)} :: id in s.table ==> RowScheduled(s, id))
    && (forall id {:trigger RowCounted(s, id)} :: id in s.table ==> RowCounted(s, id))
    && (forall w {:trigger WorkerSound(s, w)} :: w in s.workers ==> WorkerSound(s, w))
    && (forall token {:trigger IssueSound(s, token)} :: token in s.issued ==> IssueSound(s, token))
    && Custody(s)
    && Exclusive(s)
  }

  function Occurrences(ids: seq<Uuid>, id: Uuid): nat {
    if ids == [] then 0 else Occurrences(ids[..|ids| - 1], id) + if ids[|ids| - 1] == id then 1 else 0
  }

  lemma OccurrencesAppend(h: seq<Uuid>, from: nat, x: Uuid, id: Uuid)
    requires from <= |h|
    ensures Occurrences((h + [x])[from..], id) == Occurrences(h[from..], id) + if x == id then 1 else 0
  {
    assert (h + [x])[from..] == h[from..] + [x];
    assert (h[from..] + [x])[..|h[from..]|] == h[from..];
  }

  lemma EnqueueKeepsInv(s: State, service: string, sub: Submission, seen: int, stamp: int)
    requires Inv(s) && seen <= stamp <= s.now
    ensures Inv(AfterEnqueue(s, service, sub, seen, stamp))
  {
    var s' := AfterEnqueue(s, service, sub, seen, stamp);
    if Enqueued(s.table, service, sub, seen, stamp).1.None? {
      forall id | id in s'.table
        ensures LeaseRecorded(s', id) && RowScheduled(s', id) && RowCounted(s', id)
      {
        if id in s.table {
          assert LeaseRecorded(s, id) && RowScheduled(s, id) && RowCounted(s, id);
        } else {
          assert s'.history[s'.births[id]..] == [];
        }
      }
      forall w | w in s'.workers ensures WorkerSound(s', w) { assert WorkerSound(s, w); }
      forall token | token in s'.issued ensures IssueSound(s', token) { assert IssueSound(s, token); }
    }
  }

  lemma ClaimKeepsInv(s: State, w: nat, id: Uuid, token: Uuid, stamp: int, answered: bool)
    requires Inv(s) && w in s.workers && s.workers[w].phase.Idle? && s.now <= stamp
    requires token !in s.issued && id in s.table && s.table[id].service == s.workers[w].service
    ensures Inv(AfterClaim(s, w, id, token, stamp, answered))
  {
    var s' := AfterClaim(s, w, id, token, stamp, answered);
    forall x | x in s'.table
      ensures LeaseRecorded(s', x) && RowScheduled(s', x) && RowCounted(s', x)
    {
      assert LeaseRecorded(s, x) && RowScheduled(s, x) && RowCounted(s, x);
      OccurrencesAppend(s.history, s.births[x], id, x);
    }
    forall v | v in s'.workers ensures WorkerSound(s', v) { assert WorkerSound(s, v); }
    forall t | t in s'.issued ensures IssueSound(s', t) {
      if t != token { assert IssueSound(s, t); } else { assert RowScheduled(s, id); }
    }
    forall x | x in s'.committed ensures Held(s', x) || x in s'.confirmed {
      assert Held(s, x) || x in s.confirmed;
    }
    forall v, u | Working(s', v) && Working(s', u) && v != u
      ensures s'.workers[v].phase.claim.token != s'.workers[u].phase.claim.token
    {
      assert WorkerSound(s, v) && WorkerSound(s, u);
      if v != w && u != w { assert Working(s, v) && Working(s, u); }
    }
  }

  lemma SendKeepsInv(s: State, w: nat, accepted: bool, ok: bool)
    requires Inv(s) && w in s.workers && s.workers[w].phase.Claimed? && (ok ==> accepted)
    ensures Inv(AfterSend(s, w, accepted, ok))
  {
    var s' := AfterSend(s, w, accepted, ok);
    assert WorkerSound(s, w) && IssueSound(s, s.workers[w].phase.claim.token);
    forall id | id in s'.table
      ensures LeaseRecorded(s', id) && RowScheduled(s', id) && RowCounted(s', id)
    {
      assert LeaseRecorded(s, id) && RowScheduled(s, id) && RowCounted(s, id);
    }
    forall v | v in s'.workers ensures WorkerSound(s', v) { assert WorkerSound(s, v); }
    forall t | t in s'.issued ensures IssueSound(s', t) { assert IssueSound(s, t); }
    forall x | x in s'.committed ensures Held(s', x) || x in s'.confirmed {
      assert Held(s, x) || x in s.confirmed;
    }
    forall v, u | Working(s', v) && Working(s', u) && v != u
      ensures s'.workers[v].phase.claim.token != s'.workers[u].phase.claim.token
    {
      assert Working(s, v) && Working(s, u);
    }
  }

  lemma FinishKeepsInv(s: State, w: nat, seen: int, stamp: int)
    requires Inv(s) && w in s.workers && s.workers[w].phase.Sent? && s.now <= seen <= stamp
    ensures Inv(AfterFinish(s, w, seen, stamp))
  {
    var s' := AfterFinish(s, w, seen, stamp);
    var p := s.workers[w].phase;
    assert WorkerSound(s, w);
    forall id | id in s'.table
      ensures LeaseRecorded(s', id) && RowScheduled(s', id) && RowCounted(s', id)
    {
      assert LeaseRecorded(s, id) && RowScheduled(s, id) && RowCounted(s, id);
      RetrySecondsBounds(p.claim.attempts, p.claim.attempts);
    }
    forall v | v in s'.workers ensures WorkerSound(s', v) { assert WorkerSound(s, v); }
    forall t | t in s'.issued ensures IssueSound(s', t) { assert IssueSound(s, t); }
    forall x | x in s'.committed ensures Held(s', x) || x in s'.confirmed {
      assert Held(s, x) || x in s.confirmed;
      if Held(s, x) { assert LeaseRecorded(s, x.id); }
    }
    forall v, u | Working(s', v) && Working(s', u) && v != u
      ensures s'.workers[v].phase.claim.token != s'.workers[u].phase.claim.token
    {
      assert Working(s, v) && Working(s, u);
    }
  }

  lemma QuietStepKeepsInv(s: State, e: Event)
    requires Inv(s) && Enabled(s, e) && (e.Tick? || e.Crash?)
    ensures Inv(Apply(s, e))
  {
    var s' := Apply(s, e);
    forall id | id in s'.table
      ensures LeaseRecorded(s', id) && RowScheduled(s', id) && RowCounted(s', id)
    {
      assert LeaseRecorded(s, id) && RowScheduled(s, id) && RowCounted(s, id);
    }
    forall v | v in s'.workers ensures WorkerSound(s', v) { assert WorkerSound(s, v); }
    forall t | t in s'.issued ensures IssueSound(s', t) { assert IssueSound(s, t); }
    forall x | x in s'.committed ensures Held(s', x) || x in s'.confirmed {
      assert Held(s, x) || x in s.confirmed;
    }
    forall v, u | Working(s', v) && Working(s', u) && v != u
      ensures s'.workers[v].phase.claim.token != s'.workers[u].phase.claim.token
    {
      assert Working(s, v) && Working(s, u);
    }
  }

  lemma StepKeepsInv(s: State, e: Event)
    requires Inv(s) && Enabled(s, e)
    ensures Inv(Apply(s, e))
  {
    match e
    case Tick(_) => QuietStepKeepsInv(s, e);
    case Crash(_) => QuietStepKeepsInv(s, e);
    case Enqueue(service, sub, seen, stamp) => EnqueueKeepsInv(s, service, sub, seen, stamp);
    case TakeClaim(w, id, token, _, _, stamp, answered) => ClaimKeepsInv(s, w, id, token, stamp, answered);
    case Send(w, accepted, ok) => SendKeepsInv(s, w, accepted, ok);
    case Finish(w, seen, stamp) => FinishKeepsInv(s, w, seen, stamp);
  }

  lemma {:induction false} RunKeepsInv(tr: seq<State>, es: seq<Event>, i: nat)
    requires Run(tr, es) && i < |tr|
    ensures Inv(tr[i])
  {
    if i > 0 {
      RunKeepsInv(tr, es, i - 1);
      StepKeepsInv(tr[i - 1], es[i - 1]);
    }
  }

  // ---------- Every run keeps or delivers what it accepted ----------

  /** At every moment: committed events are still rows with those bytes or were confirmed; nothing else is ever sent. */
  lemma CommittedIsHeldOrConfirmed(tr: seq<State>, es: seq<Event>, i: nat)
    requires Run(tr, es) && i < |tr|
    ensures forall x :: x in tr[i].committed ==> Held(tr[i], x) || x in tr[i].confirmed
    ensures tr[i].confirmed <= tr[i].received <= tr[i].committed
  {
    RunKeepsInv(tr, es, i);
  }

  /** Event e is a Send of x that reported success. */
  ghost predicate Delivers(s: State, e: Event, x: Item) {
    && e.Send? && e.ok && Enabled(s, e)
    && x == Item(s.workers[e.w].phase.claim.id, s.workers[e.w].service, s.workers[e.w].phase.claim.payload)
  }

  /** A token that was issued and is on no row any more. */
  ghost predicate Spent(s: State, token: Uuid) {
    token in s.issued && forall id :: id in s.table && s.table[id].lease.Some? ==> s.table[id].lease.value.token != token
  }

  lemma StepKeepsSpent(s: State, e: Event, token: Uuid)
    requires Inv(s) && Enabled(s, e) && Spent(s, token)
    ensures Spent(Apply(s, e), token)
  {
  }

  lemma {:induction false} SpentForever(tr: seq<State>, es: seq<Event>, i: nat, j: nat, token: Uuid)
    requires Run(tr, es) && i <= j < |tr| && Spent(tr[i], token)
    ensures Spent(tr[j], token)
  {
    if i < j {
      SpentForever(tr, es, i, j - 1, token);
      RunKeepsInv(tr, es, j - 1);
      StepKeepsSpent(tr[j - 1], es[j - 1], token);
    }
  }

  lemma SentByThisStepOrBefore(s: State, e: Event, w: nat)
    requires Inv(s) && Enabled(s, e)
    requires w in Apply(s, e).workers && Apply(s, e).workers[w].phase.Sent? && Apply(s, e).workers[w].phase.ok
    ensures w in s.workers && s.workers[w].service == Apply(s, e).workers[w].service
    ensures var c := Apply(s, e).workers[w].phase.claim;
      if e.Send? && e.w == w
      then c.token in s.issued && Delivers(s, e, Item(c.id, s.workers[w].service, c.payload))
      else s.workers[w] == Apply(s, e).workers[w]
  {
    assert WorkerSound(s, w);
  }

  /** A worker that has sent successfully did so at an earlier step, under the same claim. */
  lemma {:induction false} SentWasDelivered(tr: seq<State>, es: seq<Event>, i: nat, w: nat) returns (j: nat)
    requires Run(tr, es) && i < |tr|
    requires w in tr[i].workers && tr[i].workers[w].phase.Sent? && tr[i].workers[w].phase.ok
    ensures j < i && es[j].Send? && es[j].w == w
    ensures var c := tr[i].workers[w].phase.claim;
      c.token in tr[j].issued && Delivers(tr[j], es[j], Item(c.id, tr[i].workers[w].service, c.payload))
  {
    RunKeepsInv(tr, es, i - 1);
    SentByThisStepOrBefore(tr[i - 1], es[i - 1], w);
    if es[i - 1].Send? && es[i - 1].w == w {
      j := i - 1;
    } else {
      j := SentWasDelivered(tr, es, i - 1, w);
    }
  }

  /** The step's Enqueue inserted a row that was not pending before. */
  ghost predicate Inserts(s: State, e: Event, x: Item) {
    && e.Enqueue? && Enabled(s, e) && Enqueued(s.table, e.service, e.sub, e.seen, e.stamp).1.None?
    && x == Item(e.sub.id, e.service, e.sub.payload) && x.id !in s.table
  }

  lemma InsertedRowIsUnleased(tr: seq<State>, es: seq<Event>, k: nat, x: Item, token: Uuid)
    requires Run(tr, es) && k < |es| && Inserts(tr[k], es[k], x)
    requires token in tr[k + 1].issued && tr[k + 1].issued[token].claim.id == x.id
    ensures Spent(tr[k + 1], token)
  {
    RunKeepsInv(tr, es, k + 1);
    var s := tr[k + 1];
    forall id | id in s.table && s.table[id].lease.Some? ensures s.table[id].lease.value.token != token {
      assert LeaseRecorded(s, id);
    }
  }

  /** Only the finish of a successful send under the row's current claim takes a row out of the table. */
  lemma RemovedByItsClaim(s: State, e: Event, x: Item) returns (c: Claim)
    requires Inv(s) && Enabled(s, e) && Held(s, x) && !Held(Apply(s, e), x)
    ensures e.Finish? && s.workers[e.w].phase == Sent(c, true)
    ensures c.id == x.id && c.payload == x.payload && s.workers[e.w].service == x.service
    ensures c.token in s.issued && s.issued[c.token].claim == c && !Spent(s, c.token)
  {
    assert LeaseRecorded(s, x.id);
    assert e.Finish?;
    c := s.workers[e.w].phase.claim;
    assert WorkerSound(s, e.w);
    assert s.table[x.id].lease.Some?;
  }

  /** If a held row leaves the table at step i, its payload was delivered after it was inserted at step k. */
  lemma RemovalFollowsDelivery(tr: seq<State>, es: seq<Event>, k: nat, i: nat, x: Item) returns (j: nat)
    requires Run(tr, es) && k < i < |es| && Inserts(tr[k], es[k], x)
    requires Held(tr[i], x) && !Held(tr[i + 1], x)
    ensures k < j < i && Delivers(tr[j], es[j], x)
  {
    RunKeepsInv(tr, es, i);
    var c := RemovedByItsClaim(tr[i], es[i], x);
    j := SentWasDelivered(tr, es, i, es[i].w);
    if j <= k {
      IssuedGrows(tr, es, j, k + 1);
      IssuedGrows(tr, es, k + 1, i);
      InsertedRowIsUnleased(tr, es, k, x, c.token);
      SpentForever(tr, es, k + 1, i, c.token);
      assert false;
    }
  }

  lemma {:induction false} IssuedGrows(tr: seq<State>, es: seq<Event>, i: nat, j: nat)
    requires Run(tr, es) && i <= j < |tr|
    ensures forall t :: t in tr[i].issued ==> t in tr[j].issued && tr[j].issued[t] == tr[i].issued[t]
  {
    if i < j {
      IssuedGrows(tr, es, i, j - 1);
      assert tr[j] == Apply(tr[j - 1], es[j - 1]);
    }
  }

  /**
   At-least-once delivery. An event whose row was inserted at step k is, at every later
   step i, still a row with exactly those bytes, or some Send of it strictly between the
   two steps reported success.
   */
  lemma {:induction false} PendingUntilDelivered(tr: seq<State>, es: seq<Event>, k: nat, i: nat, x: Item)
    requires Run(tr, es) && k < i < |tr| && Inserts(tr[k], es[k], x)
    ensures Held(tr[i], x) || exists j :: k < j < i && Delivers(tr[j], es[j], x)
  {
    if i > k + 1 {
      PendingUntilDelivered(tr, es, k, i - 1, x);
      if Held(tr[i - 1], x) && !Held(tr[i], x) {
        var j := RemovalFollowsDelivery(tr, es, k, i - 1, x);
      }
    }
  }

  // ---------- Fencing ----------

  /** In every reachable state at most one claim ever issued can change a given row, whatever it reports. */
  lemma AtMostOneClaimCanChangeARow(tr: seq<State>, es: seq<Event>, i: nat, a: Uuid, b: Uuid,
                                    deliveredA: bool, deliveredB: bool, seen: int, stamp: int)
    requires Run(tr, es) && i < |tr| && a in tr[i].issued && b in tr[i].issued
    requires tr[i].issued[a].claim.id == tr[i].issued[b].claim.id
    requires Finished(tr[i].table, tr[i].issued[a].claim, deliveredA, seen, stamp).0 != tr[i].table
    requires Finished(tr[i].table, tr[i].issued[b].claim, deliveredB, seen, stamp).0 != tr[i].table
    ensures a == b
  {
    RunKeepsInv(tr, es, i);
    assert IssueSound(tr[i], a) && IssueSound(tr[i], b);
  }

  /** A superseded or expired claim is dead for good: no later finish of it changes anything. */
  lemma DeadClaimStaysDead(tr: seq<State>, es: seq<Event>, i: nat, j: nat, token: Uuid,
                           delivered: bool, seen: int, stamp: int)
    requires Run(tr, es) && i <= j < |tr| && token in tr[i].issued
    requires !Holds(tr[i].table, tr[i].issued[token].claim.id, token, tr[i].now)
    requires tr[j].now <= seen
    ensures token in tr[j].issued
    ensures Finished(tr[j].table, tr[j].issued[token].claim, delivered, seen, stamp)
         == (tr[j].table, Some(LeaseLost))
  {
    var c := tr[i].issued[token].claim;
    IssuedGrows(tr, es, i, j);
    RunKeepsInv(tr, es, i);
    RunKeepsInv(tr, es, j);
    ClockAdvances(tr, es, i, j);
    assert IssueSound(tr[i], token);
    if Spent(tr[i], token) {
      SpentForever(tr, es, i, j, token);
    } else {
      var id :| id in tr[i].table && tr[i].table[id].lease.Some? && tr[i].table[id].lease.value.token == token;
      assert LeaseRecorded(tr[i], id);
    }
    if c.id in tr[j].table { assert LeaseRecorded(tr[j], c.id); }
  }

  lemma {:induction false} ClockAdvances(tr: seq<State>, es: seq<Event>, i: nat, j: nat)
    requires Run(tr, es) && i <= j < |tr|
    ensures tr[i].now <= tr[j].now
  {
    if i < j {
      ClockAdvances(tr, es, i, j - 1);
      assert Enabled(tr[j - 1], es[j - 1]);
    }
  }

  // ---------- Timed exclusion ----------

  /** Worker w claims at step i with an answer, and next leaves that claim with the finish at step j. */
  ghost predicate Round(tr: seq<State>, es: seq<Event>, i: nat, j: nat) {
    && Run(tr, es) && i < j < |es|
    && es[i].TakeClaim? && es[i].answered
    && es[j].Finish? && es[j].w == es[i].w
    && forall k :: i < k < j ==> !((es[k].Crash? || es[k].Finish? || es[k].TakeClaim?) && es[k].w == es[i].w)
  }

  ghost predicate StillMine(s: State, e: Event, claim: Claim)
    requires e.TakeClaim?
  {
    && Working(s, e.w) && s.workers[e.w].phase.claim == claim
    && e.id in s.table && s.table[e.id].lease == Some(Lease(e.token, e.stamp + LEASE))
  }

  /** While the lease is live, no other worker's step can take the row away. */
  lemma StepKeepsMine(s: State, e: Event, mine: Event, claim: Claim)
    requires Inv(s) && Enabled(s, e) && mine.TakeClaim? && StillMine(s, mine, claim) && claim.token == mine.token
    requires claim.id == mine.id
    requires Apply(s, e).now < mine.stamp + LEASE
    requires !((e.Crash? || e.Finish? || e.TakeClaim?) && e.w == mine.w)
    ensures StillMine(Apply(s, e), mine, claim)
    ensures e.TakeClaim? ==> e.id != mine.id
  {
    if e.Finish? {
      assert Working(s, e.w) && Working(s, mine.w);
      assert WorkerSound(s, e.w) && LeaseRecorded(s, mine.id);
    }
  }

  lemma {:induction false} RowStaysMine(tr: seq<State>, es: seq<Event>, i: nat, j: nat, k: nat)
    requires Round(tr, es, i, j) && i < k <= j
    requires tr[k].now < es[i].stamp + LEASE
    ensures Working(tr[i + 1], es[i].w)
    ensures tr[i + 1].workers[es[i].w].phase.claim.id == es[i].id
    ensures tr[i + 1].workers[es[i].w].phase.claim.token == es[i].token
    ensures StillMine(tr[k], es[i], tr[i + 1].workers[es[i].w].phase.claim)
    ensures i + 1 < k && es[k - 1].TakeClaim? ==> es[k - 1].id != es[i].id
  {
    assert tr[i + 1] == Apply(tr[i], es[i]);
    if k > i + 1 {
      ClockAdvances(tr, es, k - 1, k);
      RowStaysMine(tr, es, i, j, k - 1);
      RunKeepsInv(tr, es, k - 1);
      StepKeepsMine(tr[k - 1], es[k - 1], es[i], tr[i + 1].workers[es[i].w].phase.claim);
    }
  }

  /** The worker of a round keeps its own claim up to its finish, even when the lease is long gone. */
  lemma {:induction false} ClaimStaysInHand(tr: seq<State>, es: seq<Event>, i: nat, j: nat, k: nat)
    requires Round(tr, es, i, j) && i < k <= j
    ensures Working(tr[k], es[i].w)
    ensures tr[k].workers[es[i].w].phase.claim.id == es[i].id
    ensures tr[k].workers[es[i].w].phase.claim.token == es[i].token
    ensures es[i].token in tr[k].issued && tr[k].issued[es[i].token].until == es[i].stamp + LEASE
  {
    assert tr[k] == Apply(tr[k - 1], es[k - 1]);
    if k > i + 1 { ClaimStaysInHand(tr, es, i, j, k - 1); }
  }

  /**
   A worker that does not crash succeeds in finishing exactly when its finish statement
   runs inside the lease it was given, whatever all other workers did meanwhile.
   */
  lemma FinishSucceedsExactlyInsideTheLease(tr: seq<State>, es: seq<Event>, i: nat, j: nat)
    requires Round(tr, es, i, j)
    ensures Enabled(tr[j], es[j])
    ensures var p := tr[j].workers[es[j].w].phase;
      Finished(tr[j].table, p.claim, p.ok, es[j].seen, es[j].stamp).1.None?
      <==> es[j].seen < es[i].stamp + LEASE
  {
    ClaimStaysInHand(tr, es, i, j, j);
    RunKeepsInv(tr, es, j);
    if es[j].seen < es[i].stamp + LEASE {
      RowStaysMine(tr, es, i, j, j);
    } else if es[i].id in tr[j].table {
      assert LeaseRecorded(tr[j], es[i].id);
    }
  }

  /**
   With the claim call started at `begin`, answered within the database timeout, sent
   within the send timeout and finished within the database timeout, the finish takes
   effect and no worker at all claims the row between the claim and the finish.
   */
  lemma TimedRoundsExclude(tr: seq<State>, es: seq<Event>, i: nat, j: nat, begin: int, answeredAt: int, sentAt: int)
    requires Round(tr, es, i, j)
    requires begin <= es[i].seen && answeredAt <= begin + DB_TIMEOUT
    requires sentAt <= answeredAt + SEND_TIMEOUT && es[j].seen <= sentAt + DB_TIMEOUT
    ensures Enabled(tr[j], es[j])
    ensures var p := tr[j].workers[es[j].w].phase;
      Finished(tr[j].table, p.claim, p.ok, es[j].seen, es[j].stamp).1.None?
    ensures forall k :: i < k < j && es[k].TakeClaim? ==> es[k].id != es[i].id
    ensures forall k :: i < k <= j ==> Holds(tr[k].table, es[i].id, es[i].token, tr[k].now)
  {
    FinishSucceedsExactlyInsideTheLease(tr, es, i, j);
    forall k | i < k <= j
      ensures Holds(tr[k].table, es[i].id, es[i].token, tr[k].now)
      ensures k < j && es[k].TakeClaim? ==> es[k].id != es[i].id
    {
      ClockAdvances(tr, es, k, j);
      RowStaysMine(tr, es, i, j, k);
      if k < j {
        ClockAdvances(tr, es, k + 1, j);
        RowStaysMine(tr, es, i, j, k + 1);
      }
    }
  }

  // ---------- No stranded rows ----------

  /** The backlog query: how many rows of a service are pending, delayed and leased ones included. */
  function Backlog(s: State, service: string): nat {
    |set id | id in s.table && s.table[id].service == service|
  }

  /** Every pending row is scheduled within thirty seconds and leased for at most sixty, and counts its claims. */
  lemma PendingRowsAreScheduled(tr: seq<State>, es: seq<Event>, i: nat, id: Uuid)
    requires Run(tr, es) && i < |tr| && id in tr[i].table
    ensures var r := tr[i].table[id];
      && r.nextAttempt <= tr[i].now + 30 * SECOND
      && (r.lease.Some? ==> r.lease.value.until <= tr[i].now + LEASE)
      && |r.payload| <= MAX_PAYLOAD
      && id in tr[i].births && tr[i].births[id] <= |tr[i].history|
      && r.attempts == Occurrences(tr[i].history[tr[i].births[id]..], id)
  {
    RunKeepsInv(tr, es, i);
    assert RowScheduled(tr[i], id) && RowCounted(tr[i], id);
  }

  /** A row left alone for one lease time is claimable, so a claim that skips no row finds work. */
  lemma UntouchedRowBecomesDue(tr: seq<State>, es: seq<Event>, i: nat, j: nat, id: Uuid, now: int)
    requires Run(tr, es) && i <= j < |tr| && id in tr[i].table
    requires id in tr[j].table && tr[j].table[id] == tr[i].table[id] && tr[i].now + LEASE <= now
    ensures Eligible(tr[j].table, tr[j].table[id].service, now, {}, id)
  {
    PendingRowsAreScheduled(tr, es, i, id);
  }

  /** Backlog zero proves that the service's events are all delivered, and only then. */
  lemma BacklogZeroIsDrained(tr: seq<State>, es: seq<Event>, i: nat, service: string)
    requires Run(tr, es) && i < |tr|
    ensures Backlog(tr[i], service) == 0 <==> forall x :: x in tr[i].committed && x.service == service ==> !Held(tr[i], x)
    ensures Backlog(tr[i], service) == 0 ==>
      forall x :: x in tr[i].committed && x.service == service ==> x in tr[i].confirmed
  {
    RunKeepsInv(tr, es, i);
    var s := tr[i];
    var pending := set id | id in s.table && s.table[id].service == service;
    if pending != {} {
      var id :| id in pending;
      assert RowScheduled(s, id);
      assert Held(s, Item(id, service, s.table[id].payload));
    } else {
      forall x | x in s.committed && x.service == service ensures !Held(s, x) {
        assert x.id !in pending;
      }
    }
  }

  // ---------- What each statement does, in the run's own terms ----------

  /** The row comes before the other in the order of next attempt, enqueue time and id. */
  predicate Earlier(t: Table, a: Uuid, b: Uuid)
    requires a in t && b in t
  {
    var x, y := t[a], t[b];
    if x.nextAttempt != y.nextAttempt then x.nextAttempt < y.nextAttempt
    else if x.enqueuedAt != y.enqueuedAt then x.enqueuedAt < y.enqueuedAt
    else a < b
  }

  /** A row of the service that is due and not under a live lease. */
  predicate Claimable(r: Row, service: string, now: int) {
    r.service == service && r.nextAttempt <= now && (r.lease.Some? ==> r.lease.value.until <= now)
  }

  /**
   A claim takes, of the worker's own service, the earliest row that is due, free and not
   locked. It leases it for sixty seconds, counts one attempt and touches nothing else.
   */
  lemma ClaimTakesTheEarliest(tr: seq<State>, es: seq<Event>, i: nat)
    requires Run(tr, es) && i < |es| && es[i].TakeClaim?
    ensures var s, e := tr[i], es[i];
      var service := s.workers[e.w].service;
      && e.id in s.table && e.id !in e.locked && Claimable(s.table[e.id], service, e.seen)
      && (forall x :: x in s.table && x != e.id && x !in e.locked && Claimable(s.table[x], service, e.seen) ==>
            Earlier(s.table, e.id, x))
      && tr[i + 1].table == s.table[e.id := s.table[e.id].(
           lease := Some(Lease(e.token, e.stamp + 60 * SECOND)), attempts := s.table[e.id].attempts + 1)]
  {
    var s, e := tr[i], es[i];
    assert Enabled(s, e) && tr[i + 1] == Apply(s, e);
    var service := s.workers[e.w].service;
    forall x | x in s.table && x != e.id && x !in e.locked && Claimable(s.table[x], service, e.seen)
      ensures Earlier(s.table, e.id, x)
    {
      assert Eligible(s.table, service, e.seen, e.locked, x);
    }
  }

  /** The delay before attempt n + 1: it doubles from one second up to thirty. */
  function Delay(n: int): int
    requires n >= 1
  {
    Min(Pow2(n - 1), 30) * SECOND
  }

  /** The worker's finish at step i is that of a failed send, and it runs while its lease is still on the row. */
  ghost predicate FailsInTime(tr: seq<State>, es: seq<Event>, i: nat) {
    && Run(tr, es) && i < |es| && es[i].Finish?
    && es[i].w in tr[i].workers && tr[i].workers[es[i].w].phase.Sent? && !tr[i].workers[es[i].w].phase.ok
    && var c := tr[i].workers[es[i].w].phase.claim;
       && c.id in tr[i].table && tr[i].table[c.id].lease.Some?
       && tr[i].table[c.id].lease.value.token == c.token && es[i].seen < tr[i].table[c.id].lease.value.until
  }

  /** How often the row was claimed since it was inserted. */
  function ClaimsTaken(s: State, id: Uuid): nat
    requires id in s.births && s.births[id] <= |s.history|
  {
    Occurrences(s.history[s.births[id]..], id)
  }

  /**
   A failed delivery is rescheduled exactly: the row keeps everything but its lease, and is due
   again after a delay that doubles with every claim taken since its insertion.
   */
  lemma FailedDeliveryIsRescheduled(tr: seq<State>, es: seq<Event>, i: nat)
    requires FailsInTime(tr, es, i)
    ensures var s, id := tr[i], tr[i].workers[es[i].w].phase.claim.id;
      && id in s.births && s.births[id] <= |s.history| && ClaimsTaken(s, id) >= 1
      && tr[i + 1].table == s.table[id := s.table[id].(
           lease := None, nextAttempt := es[i].stamp + Delay(ClaimsTaken(s, id)))]
  {
    RunKeepsInv(tr, es, i);
    var s, c := tr[i], tr[i].workers[es[i].w].phase.claim;
    assert WorkerSound(s, es[i].w) && LeaseRecorded(s, c.id) && RowCounted(s, c.id);
    RetrySecondsBounds(c.attempts, c.attempts);
  }

  /** A row without a lease changes only when it is claimed. */
  lemma {:induction false} UnleasedRowStays(tr: seq<State>, es: seq<Event>, i: nat, j: nat, id: Uuid)
    requires Run(tr, es) && i <= j < |tr| && id in tr[i].table && tr[i].table[id].lease.None?
    requires forall k :: i <= k < j && es[k].TakeClaim? ==> es[k].id != id
    ensures id in tr[j].table && tr[j].table[id] == tr[i].table[id]
  {
    if i < j {
      UnleasedRowStays(tr, es, i, j - 1, id);
      assert Enabled(tr[j - 1], es[j - 1]) && tr[j] == Apply(tr[j - 1], es[j - 1]);
    }
  }

  /** The next claim of a row whose delivery failed waits for the full delay, whoever makes it. */
  lemma NextClaimWaits(tr: seq<State>, es: seq<Event>, i: nat, j: nat)
    requires FailsInTime(tr, es, i) && i < j < |es|
    requires es[j].TakeClaim? && es[j].id == tr[i].workers[es[i].w].phase.claim.id
    requires forall k :: i < k < j && es[k].TakeClaim? ==> es[k].id != es[j].id
    ensures var id := es[j].id;
      && id in tr[i].births && tr[i].births[id] <= |tr[i].history| && ClaimsTaken(tr[i], id) >= 1
      && es[j].seen >= es[i].stamp + Delay(ClaimsTaken(tr[i], id))
  {
    FailedDeliveryIsRescheduled(tr, es, i);
    UnleasedRowStays(tr, es, i + 1, j, es[j].id);
    ClaimTakesTheEarliest(tr, es, j);
  }

  /** A crash-free round whose send failed ends in time exactly inside its lease, and then reschedules its row. */
  lemma RoundReschedules(tr: seq<State>, es: seq<Event>, i: nat, j: nat)
    requires Round(tr, es, i, j) && es[j].w in tr[j].workers
    requires tr[j].workers[es[j].w].phase.Sent? && !tr[j].workers[es[j].w].phase.ok
    ensures FailsInTime(tr, es, j) <==> es[j].seen < es[i].stamp + LEASE
  {
    ClaimStaysInHand(tr, es, i, j, j);
    RunKeepsInv(tr, es, j);
    if es[j].seen < es[i].stamp + LEASE {
      RowStaysMine(tr, es, i, j, j);
    } else if es[i].id in tr[j].table {
      assert LeaseRecorded(tr[j], es[i].id);
    }
  }
}
