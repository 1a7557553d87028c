/**
 All interleavings of one client: any number of goroutines calling Record and Close, the
 dispatcher and the workers. The mutex, the two channels and the wait group are modelled
 step by step, and a send on a closed channel or a second close of one would panic.
 */
module AuditClientRuns {
  import opened Prelude
  import opened AuditClient

  datatype Caller =
    | Free
    | RecordLocked(e: Event)
    | Offering(e: Event)
    | CloseLocked
    | ClosingQueue
    | Awaiting
    | ClosingTransport(first: bool)
    | Returned(first: bool)

  /** Looping, then the deferred close of the batch channel, then the deferred wg.Done. */
  datatype Dispatcher = Looping | Exiting | Stopping | Stopped

  datatype Worker = Ready | Sending(i: nat) | Leaving | Gone

  /** The mutex, the closed flag, whether close(events) was called, and the calling goroutines. */
  datatype Gate = Gate(lock: Option<nat>, closed: bool, queueClosed: bool, callers: map<nat, Caller>)

  /**
   The background goroutines and their wait group. `holder` and `outcomes` are history: which
   worker took batch i, and whether its Send succeeded.
   */
  datatype Crew = Crew(dispatcher: Dispatcher, outClosed: bool, workers: map<nat, Worker>, wg: int,
                       holder: map<nat, nat>, outcomes: map<nat, bool>)

  /** What Record was given, what it accepted and what was logged as not delivered. */
  datatype Books = Books(fallback: bool, submitted: set<Event>, accepted: seq<Event>, logged: set<Event>)

  datatype State = State(pipe: Pipe, gate: Gate, crew: Crew, books: Books, panicked: bool, transportClosed: bool)

  datatype Step =
    | LockRecord(c: nat, e: Event)
    | CheckRecord(c: nat)
    | Offer(c: nat)
    | LockClose(c: nat)
    | CheckClose(c: nat)
    | CloseQueue(c: nat)
    | WaitOver(c: nat)
    | CloseTransport(c: nat)
    | Receive
    | Timer
    | Drained
    | CloseOut
    | DispatcherDone
    | Take(w: nat)
    | SendReturns(w: nat, ok: bool)
    | Leave(w: nat)
    | WorkerDone(w: nat)

  ghost predicate Init(s: State) {
    && (exists bufferSize, workers ::
          s.pipe == NewPipe(bufferSize, workers) && |s.crew.workers| == WorkerCount(workers))
    && s.gate == Gate(None, false, false, s.gate.callers)
    && (forall c :: c in s.gate.callers ==> s.gate.callers[c].Free?)
    && s.crew == Crew(Looping, false, s.crew.workers, 1 + |s.crew.workers|, map[], map[])
    && (forall w :: w in s.crew.workers ==> s.crew.workers[w].Ready?)
    && s.books == Books(s.books.fallback, {}, [], {})
    && !s.panicked && !s.transportClosed
  }

  predicate CallerAt(g: Gate, c: nat, p: Caller) {
    c in g.callers && g.callers[c] == p
  }

  predicate WorkerAt(k: Crew, w: nat, p: Worker) {
    w in k.workers && k.workers[w] == p
  }

  predicate IsCallerStep(e: Step) {
    || e.LockRecord? || e.CheckRecord? || e.Offer? || e.LockClose? || e.CheckClose? || e.CloseQueue?
    || e.WaitOver? || e.CloseTransport?
  }

  predicate CallerCan(g: Gate, wg: int, e: Step)
    requires IsCallerStep(e)
  {
    match e
    case LockRecord(c, _) => CallerAt(g, c, Free) && g.lock.None?
    case CheckRecord(c) => c in g.callers && g.callers[c].RecordLocked?
    case Offer(c) => c in g.callers && g.callers[c].Offering?
    case LockClose(c) => CallerAt(g, c, Free) && g.lock.None?
    case CheckClose(c) => CallerAt(g, c, CloseLocked)
    case CloseQueue(c) => CallerAt(g, c, ClosingQueue)
    case WaitOver(c) => CallerAt(g, c, Awaiting) && wg == 0
    case CloseTransport(c) => c in g.callers && g.callers[c].ClosingTransport?
  }

  predicate CrewCan(k: Crew, p: Pipe, queueClosed: bool, e: Step)
    requires !IsCallerStep(e)
  {
    match e
    case Receive => k.dispatcher.Looping? && p.queue != []
    case Timer => k.dispatcher.Looping? && p.batch != [] && p.armed
    case Drained => k.dispatcher.Looping? && p.queue == [] && queueClosed
    case CloseOut => k.dispatcher.Exiting?
    case DispatcherDone => k.dispatcher.Stopping?
    case Take(w) => WorkerAt(k, w, Ready) && p.out != []
    case SendReturns(w, _) => w in k.workers && k.workers[w].Sending? && k.workers[w].i < |p.taken|
    case Leave(w) => WorkerAt(k, w, Ready) && p.out == [] && k.outClosed
    case WorkerDone(w) => WorkerAt(k, w, Leaving)
  }

  predicate Enabled(s: State, e: Step) {
    if IsCallerStep(e) then CallerCan(s.gate, s.crew.wg, e) else CrewCan(s.crew, s.pipe, s.gate.queueClosed, e)
  }

  function Goto(g: Gate, c: nat, p: Caller): Gate {
    g.(callers := g.callers[c := p])
  }

  function GateAfter(g: Gate, wg: int, e: Step): Gate
    requires IsCallerStep(e) && CallerCan(g, wg, e)
  {
    match e
    case LockRecord(c, ev) => Goto(g, c, RecordLocked(ev)).(lock := Some(c))
    case CheckRecord(c) => if g.closed then Goto(g, c, Free).(lock := None) else Goto(g, c, Offering(g.callers[c].e))
    case Offer(c) => Goto(g, c, Free).(lock := None)
    case LockClose(c) => Goto(g, c, CloseLocked).(lock := Some(c))
    case CheckClose(c) =>
      if g.closed then Goto(g, c, ClosingTransport(false)).(lock := None)
      else Goto(g, c, ClosingQueue).(closed := true)
    case CloseQueue(c) => Goto(g, c, Awaiting).(lock := None, queueClosed := true)
    case WaitOver(c) => Goto(g, c, ClosingTransport(true))
    case CloseTransport(c) => Goto(g, c, Returned(g.callers[c].first))
  }

  function CrewAfter(k: Crew, p: Pipe, queueClosed: bool, e: Step): Crew
    requires !IsCallerStep(e) && CrewCan(k, p, queueClosed, e)
  {
    match e
    case Receive => k
    case Timer => k
    case Drained => k.(dispatcher := Exiting)
    case CloseOut => k.(dispatcher := Stopping, outClosed := true)
    case DispatcherDone => k.(dispatcher := Stopped, wg := k.wg - 1)
    case Take(w) => k.(workers := k.workers[w := Sending(|p.taken|)], holder := k.holder[|p.taken| := w])
    case SendReturns(w, ok) => k.(workers := k.workers[w := Ready], outcomes := k.outcomes[k.workers[w].i := ok])
    case Leave(w) => k.(workers := k.workers[w := Leaving])
    case WorkerDone(w) => k.(workers := k.workers[w := Gone], wg := k.wg - 1)
  }

  function PipeAfter(s: State, e: Step): Pipe
    requires Enabled(s, e)
  {
    match e
    case Offer(c) => Offered(s.pipe, s.gate.callers[c].e).0
    case Receive => Received(s.pipe)
    case Timer => TimerFired(s.pipe)
    case Drained => TimerFired(s.pipe)
    case Take(w) => Taken(s.pipe)
    case _ => s.pipe
  }

  function EventSet(es: seq<Event>): set<Event> {
    set e | e in es
  }

  /** What the dispatcher logs when a step from p to q dropped a batch on a full channel. */
  function Lost(p: Pipe, q: Pipe): set<Event> {
    if |q.flushed| > |p.flushed| && !q.flushed[|q.flushed| - 1].kept
    then EventSet(q.flushed[|q.flushed| - 1].events) else {}
  }

  function Logged(b: Books, es: set<Event>): Books {
    if b.fallback then b.(logged := b.logged + es) else b
  }

  /** The books after Record was given e and put it into the queue or not. */
  function Booked(b: Books, e: Event, accepted: bool): Books {
    var b1 := b.(submitted := b.submitted + {e});
    if accepted then b1.(accepted := b.accepted + [e]) else Logged(b1, {e})
  }

  function BooksAfter(s: State, e: Step): Books
    requires Enabled(s, e)
  {
    match e
    case CheckRecord(c) => if s.gate.closed then Booked(s.books, s.gate.callers[c].e, false) else s.books
    case Offer(c) => Booked(s.books, s.gate.callers[c].e, Offered(s.pipe, s.gate.callers[c].e).1)
    case SendReturns(w, ok) => if ok then s.books else Logged(s.books, EventSet(s.pipe.taken[s.crew.workers[w].i]))
    case _ => Logged(s.books, Lost(s.pipe, PipeAfter(s, e)))
  }

  /** Sending on a closed channel, or closing one twice. */
  predicate Panics(s: State, e: Step)
    requires Enabled(s, e)
  {
    || (e.Offer? && s.gate.queueClosed)
    || (e.CloseQueue? && s.gate.queueClosed)
    || ((e.Receive? || e.Timer? || e.Drained?) && s.crew.outClosed)
    || (e.CloseOut? && s.crew.outClosed)
  }

  function Apply(s: State, e: Step): State
    requires Enabled(s, e)
  {
    State(PipeAfter(s, e),
          if IsCallerStep(e) then GateAfter(s.gate, s.crew.wg, e) else s.gate,
          if IsCallerStep(e) then s.crew else CrewAfter(s.crew, s.pipe, s.gate.queueClosed, e),
          BooksAfter(s, e), s.panicked || Panics(s, e), s.transportClosed || e.CloseTransport?)
  }

  ghost predicate Run(tr: seq<State>, es: seq<Step>) {
    && |tr| == |es| + 1
    && Init(tr[0])
    && forall i {:trigger es[i]} :: 0 <= i < |es| ==> Enabled(tr[i], es[i]) && tr[i + 1] == Apply(tr[i], es[i])
  }

  // ---------- The invariant ----------

  predicate HoldsLock(p: Caller) {
    p.RecordLocked? || p.Offering? || p.CloseLocked? || p.ClosingQueue?
  }

  predicate PastWait(p: Caller) {
    (p.ClosingTransport? || p.Returned?) && p.first
  }

  /** The mutex serialises checks of `closed` with sends to and closes of the queue. */
  predicate CallerSound(g: Gate, wg: int, c: nat)
    requires c in g.callers
  {
    var p := g.callers[c];
    && (HoldsLock(p) <==> g.lock == Some(c))
    && (p.Offering? ==> !g.closed)
    && (p.ClosingQueue? ==> g.closed && !g.queueClosed)
    && (p.Awaiting? ==> g.queueClosed)
    && (PastWait(p) ==> g.queueClosed && wg == 0)
  }

  ghost predicate GateSound(g: Gate, wg: int) {
    && (forall c {:trigger CallerSound(g, wg, c)} :: c in g.callers ==> CallerSound(g, wg, c))
    && (g.lock.Some? ==> g.lock.value in g.callers)
    && (g.queueClosed ==> g.closed)
    && (g.closed && !g.queueClosed ==> g.lock.Some? && g.lock.value in g.callers && g.callers[g.lock.value].ClosingQueue?)
  }

  function Running(ws: map<nat, Worker>): set<nat> {
    set w | w in ws && !ws[w].Gone?
  }

  predicate WorkerSound(k: Crew, p: Pipe, w: nat)
    requires w in k.workers
  {
    match k.workers[w]
    case Sending(i) => i < |p.taken| && i !in k.outcomes && i in k.holder && k.holder[i] == w
    case Ready => true
    case _ => k.outClosed && p.out == []
  }

  /** Batch i is with the worker that took it, or has an outcome. */
  predicate BatchSound(k: Crew, i: nat) {
    i in k.outcomes || (i in k.holder && k.holder[i] in k.workers && k.workers[k.holder[i]] == Sending(i))
  }

  ghost predicate CrewSound(k: Crew, p: Pipe) {
    && (forall w {:trigger WorkerSound(k, p, w)} :: w in k.workers ==> WorkerSound(k, p, w))
    && (forall i {:trigger BatchSound(k, i)} :: 0 <= i < |p.taken| ==> BatchSound(k, i))
    && (forall i :: i in k.outcomes ==> i < |p.taken|)
    && k.wg == |Running(k.workers)| + (if k.dispatcher.Stopped? then 0 else 1)
    && (k.outClosed <==> k.dispatcher.Stopping? || k.dispatcher.Stopped?)
  }

  /** The dispatcher leaves its loop only when the closed queue and the batch are empty. */
  predicate DrainSound(k: Crew, p: Pipe, queueClosed: bool) {
    !k.dispatcher.Looping? ==> queueClosed && p.queue == [] && p.batch == []
  }

  /** The event is still inside the pipe. */
  predicate Inside(p: Pipe, e: Event) {
    e in p.queue || e in p.batch || exists i :: 0 <= i < |p.out| && e in p.out[i]
  }

  /** The event's batch is with a worker, or was delivered. */
  predicate WithWorker(p: Pipe, outcomes: map<nat, bool>, e: Event) {
    exists i :: 0 <= i < |p.taken| && e in p.taken[i] && (i in outcomes ==> outcomes[i])
  }

  predicate Traced(b: Books, p: Pipe, outcomes: map<nat, bool>, e: Event) {
    e in b.logged || Inside(p, e) || WithWorker(p, outcomes, e)
  }

  ghost predicate BooksSound(b: Books, p: Pipe, outcomes: map<nat, bool>) {
    && Accepted(p) == b.accepted
    && (b.fallback ==> forall e {:trigger Traced(b, p, outcomes, e)} :: e in b.submitted ==> Traced(b, p, outcomes, e))
  }

  ghost predicate Inv(s: State) {
    && Sound(s.pipe) && !s.panicked
    && GateSound(s.gate, s.crew.wg)
    && CrewSound(s.crew, s.pipe) && DrainSound(s.crew, s.pipe, s.gate.queueClosed)
    && BooksSound(s.books, s.pipe, s.crew.outcomes)
  }

  // ---------- Steps ----------

  lemma CallerStepKeepsGate(g: Gate, wg: int, e: Step)
    requires GateSound(g, wg) && IsCallerStep(e) && CallerCan(g, wg, e)
    ensures GateSound(GateAfter(g, wg, e), wg)
    ensures g.queueClosed ==> GateAfter(g, wg, e).queueClosed && !e.Offer? && !e.CloseQueue?
  {
    var g' := GateAfter(g, wg, e);
    assert CallerSound(g, wg, e.c);
    forall c | c in g'.callers ensures CallerSound(g', wg, c) { assert CallerSound(g, wg, c); }
  }

  /** A change that touches neither the batch channel nor the batches taken leaves the crew sound. */
  lemma PipeStepKeepsCrew(k: Crew, p: Pipe, q: Pipe)
    requires CrewSound(k, p) && q.taken == p.taken && (k.outClosed ==> q.out == p.out)
    ensures CrewSound(k, q)
  {
    forall w | w in k.workers ensures WorkerSound(k, q, w) { assert WorkerSound(k, p, w); }
    forall i | 0 <= i < |q.taken| ensures BatchSound(k, i) { assert BatchSound(k, i); }
  }

  lemma DispatcherStepKeepsCrew(k: Crew, p: Pipe, queueClosed: bool, e: Step)
    requires CrewSound(k, p) && !IsCallerStep(e) && CrewCan(k, p, queueClosed, e)
    requires e.Drained? || e.CloseOut? || e.DispatcherDone?
    ensures CrewSound(CrewAfter(k, p, queueClosed, e), p)
  {
    var k' := CrewAfter(k, p, queueClosed, e);
    forall w | w in k'.workers ensures WorkerSound(k', p, w) { assert WorkerSound(k, p, w); }
    forall i | 0 <= i < |p.taken| ensures BatchSound(k', i) { assert BatchSound(k, i); }
  }

  lemma TakeKeepsCrew(k: Crew, p: Pipe, w: nat)
    requires CrewSound(k, p) && WorkerAt(k, w, Ready) && p.out != []
    ensures CrewSound(CrewAfter(k, p, true, Take(w)), Taken(p))
  {
    var k', q := CrewAfter(k, p, true, Take(w)), Taken(p);
    assert Running(k'.workers) == Running(k.workers);
    forall v | v in k'.workers ensures WorkerSound(k', q, v) { assert WorkerSound(k, p, v); }
    forall i | 0 <= i < |q.taken| ensures BatchSound(k', i) { assert i < |p.taken| ==> BatchSound(k, i); }
  }

  lemma WorkerStepKeepsCrew(k: Crew, p: Pipe, e: Step)
    requires CrewSound(k, p) && !IsCallerStep(e) && CrewCan(k, p, true, e)
    requires e.SendReturns? || e.Leave? || e.WorkerDone?
    ensures CrewSound(CrewAfter(k, p, true, e), p)
  {
    var k' := CrewAfter(k, p, true, e);
    assert WorkerSound(k, p, e.w);
    assert Running(k'.workers) == if e.WorkerDone? then Running(k.workers) - {e.w} else Running(k.workers);
    forall v | v in k'.workers ensures WorkerSound(k', p, v) { assert WorkerSound(k, p, v); }
    forall i | 0 <= i < |p.taken| ensures BatchSound(k', i) { assert BatchSound(k, i); }
  }

  /** The wait group only moves while somebody is running, and then nobody is past its wait. */
  lemma CountdownKeepsGate(g: Gate, wg: int, wg': int)
    requires GateSound(g, wg) && wg > 0
    ensures GateSound(g, wg')
  {
    forall c | c in g.callers ensures CallerSound(g, wg', c) { assert CallerSound(g, wg, c); }
  }

  /** A dispatcher step keeps each event inside, or drops it with its batch. */
  lemma FlushKeepsInside(p: Pipe, e: Event)
    requires Inside(p, e)
    ensures Inside(Flushed(p), e) || e in Lost(p, Flushed(p))
  {
    var q := Flushed(p);
    if e in p.batch && p.batch != [] && |p.out| < p.outCap {
      assert q.out[|p.out|] == p.batch;
    } else if e !in p.queue && e !in p.batch {
      var i :| 0 <= i < |p.out| && e in p.out[i];
      assert q.out[i] == p.out[i];
    }
  }

  lemma ReceiveKeepsInside(p: Pipe, e: Event)
    requires p.queue != [] && Inside(p, e)
    ensures Inside(Received(p), e) || e in Lost(p, Received(p))
  {
    var q := p.(queue := p.queue[1..], batch := p.batch + [p.queue[0]]);
    assert p.queue == [p.queue[0]] + p.queue[1..];
    assert Inside(q, e);
    FlushKeepsInside(q, e);
  }

  lemma DispatchKeepsBooks(b: Books, p: Pipe, q: Pipe, outcomes: map<nat, bool>)
    requires BooksSound(b, p, outcomes) && q.taken == p.taken && Accepted(q) == Accepted(p)
    requires forall e :: Inside(p, e) ==> Inside(q, e) || e in Lost(p, q)
    ensures BooksSound(Logged(b, Lost(p, q)), q, outcomes)
  {
    var b' := Logged(b, Lost(p, q));
    forall e | b'.fallback && e in b'.submitted ensures Traced(b', q, outcomes, e) { assert Traced(b, p, outcomes, e); }
  }

  lemma OfferKeepsBooks(b: Books, p: Pipe, outcomes: map<nat, bool>, e: Event)
    requires Sound(p) && BooksSound(b, p, outcomes)
    ensures BooksSound(Booked(b, e, Offered(p, e).1), Offered(p, e).0, outcomes)
  {
    OfferIsOrderly(p, e);
    var b', q := Booked(b, e, Offered(p, e).1), Offered(p, e).0;
    forall x | b'.fallback && x in b'.submitted ensures Traced(b', q, outcomes, x) {
      if x in b.submitted { assert Traced(b, p, outcomes, x); }
    }
  }

  lemma RefusalKeepsBooks(b: Books, p: Pipe, outcomes: map<nat, bool>, e: Event)
    requires BooksSound(b, p, outcomes)
    ensures BooksSound(Booked(b, e, false), p, outcomes)
  {
    var b' := Booked(b, e, false);
    forall x | b'.fallback && x in b'.submitted ensures Traced(b', p, outcomes, x) {
      if x in b.submitted { assert Traced(b, p, outcomes, x); }
    }
  }

  lemma TakeKeepsBooks(b: Books, p: Pipe, outcomes: map<nat, bool>)
    requires Sound(p) && BooksSound(b, p, outcomes) && p.out != [] && |p.taken| !in outcomes
    ensures BooksSound(b, Taken(p), outcomes)
  {
    TakeIsOrderly(p);
    var q := Taken(p);
    forall x | b.fallback && x in b.submitted ensures Traced(b, q, outcomes, x) {
      assert Traced(b, p, outcomes, x);
      if WithWorker(p, outcomes, x) {
        var i :| 0 <= i < |p.taken| && x in p.taken[i] && (i in outcomes ==> outcomes[i]);
        assert q.taken[i] == p.taken[i];
      } else if x !in b.logged && x !in p.queue && x !in p.batch {
        var i :| 0 <= i < |p.out| && x in p.out[i];
        assert if i == 0 then q.taken[|p.taken|] == p.out[0] else q.out[i - 1] == p.out[i];
      }
    }
  }

  lemma OutcomeKeepsBooks(b: Books, p: Pipe, outcomes: map<nat, bool>, i: nat, ok: bool)
    requires BooksSound(b, p, outcomes) && i < |p.taken|
    ensures BooksSound(if ok then b else Logged(b, EventSet(p.taken[i])), p, outcomes[i := ok])
  {
    var b' := if ok then b else Logged(b, EventSet(p.taken[i]));
    forall x | b'.fallback && x in b'.submitted ensures Traced(b', p, outcomes[i := ok], x) {
      assert Traced(b, p, outcomes, x);
      if WithWorker(p, outcomes, x) {
        var j :| 0 <= j < |p.taken| && x in p.taken[j] && (j in outcomes ==> outcomes[j]);
        assert j == i || (j in outcomes[i := ok] ==> outcomes[i := ok][j]);
      }
    }
  }

  /** Locking, checking and closing leave events, goroutines and books alone. */
  lemma CallerStepIsQuiet(s: State, e: Step)
    requires Enabled(s, e) && IsCallerStep(e) && !e.Offer? && !(e.CheckRecord? && s.gate.closed)
    ensures var s' := Apply(s, e);
      && s'.pipe == s.pipe && s'.crew == s.crew && s'.books == s.books
      && s'.gate == GateAfter(s.gate, s.crew.wg, e) && s'.transportClosed == (s.transportClosed || e.CloseTransport?)
      && (s'.panicked ==> s.panicked || (e.CloseQueue? && s.gate.queueClosed))
  {
  }

  lemma CallerStepKeepsInv(s: State, e: Step)
    requires Inv(s) && Enabled(s, e) && IsCallerStep(e)
    ensures Inv(Apply(s, e))
  {
    CallerStepKeepsGate(s.gate, s.crew.wg, e);
    if e.Offer? {
      OfferIsOrderly(s.pipe, s.gate.callers[e.c].e);
      OfferKeepsBooks(s.books, s.pipe, s.crew.outcomes, s.gate.callers[e.c].e);
      PipeStepKeepsCrew(s.crew, s.pipe, PipeAfter(s, e));
    } else if e.CheckRecord? && s.gate.closed {
      RefusalKeepsBooks(s.books, s.pipe, s.crew.outcomes, s.gate.callers[e.c].e);
    } else {
      CallerStepIsQuiet(s, e);
    }
  }

  lemma DispatchStepKeepsInv(s: State, e: Step)
    requires Inv(s) && Enabled(s, e) && (e.Receive? || e.Timer? || e.Drained?)
    ensures Inv(Apply(s, e))
  {
    var p, q := s.pipe, PipeAfter(s, e);
    if e.Receive? {
      ReceiveIsOrderly(p);
      forall x | Inside(p, x) ensures Inside(q, x) || x in Lost(p, q) { ReceiveKeepsInside(p, x); }
    } else {
      TimerIsOrderly(p);
      forall x | Inside(p, x) ensures Inside(q, x) || x in Lost(p, q) { FlushKeepsInside(p, x); }
    }
    DispatchKeepsBooks(s.books, p, q, s.crew.outcomes);
    PipeStepKeepsCrew(s.crew, p, q);
    if e.Drained? { DispatcherStepKeepsCrew(s.crew, q, s.gate.queueClosed, e); }
  }

  lemma CrewStepKeepsInv(s: State, e: Step)
    requires Inv(s) && Enabled(s, e) && !IsCallerStep(e) && !(e.Receive? || e.Timer? || e.Drained?)
    ensures Inv(Apply(s, e))
  {
    var k' := Apply(s, e).crew;
    assert !e.SendReturns? ==> BooksAfter(s, e) == s.books;
    match e
    case CloseOut => DispatcherStepKeepsCrew(s.crew, s.pipe, s.gate.queueClosed, e);
    case DispatcherDone =>
      DispatcherStepKeepsCrew(s.crew, s.pipe, s.gate.queueClosed, e);
      CountdownKeepsGate(s.gate, s.crew.wg, k'.wg);
    case Take(w) =>
      TakeIsOrderly(s.pipe);
      TakeKeepsCrew(s.crew, s.pipe, w);
      TakeKeepsBooks(s.books, s.pipe, s.crew.outcomes);
    case SendReturns(w, ok) =>
      WorkerStepKeepsCrew(s.crew, s.pipe, e);
      OutcomeKeepsBooks(s.books, s.pipe, s.crew.outcomes, s.crew.workers[w].i, ok);
    case Leave(w) => WorkerStepKeepsCrew(s.crew, s.pipe, e);
    case WorkerDone(w) =>
      WorkerStepKeepsCrew(s.crew, s.pipe, e);
      assert w in Running(s.crew.workers);
      CountdownKeepsGate(s.gate, s.crew.wg, k'.wg);
  }

  lemma StepKeepsInv(s: State, e: Step)
    requires Inv(s) && Enabled(s, e)
    ensures Inv(Apply(s, e))
  {
    if IsCallerStep(e) {
      CallerStepKeepsInv(s, e);
    } else if e.Receive? || e.Timer? || e.Drained? {
      DispatchStepKeepsInv(s, e);
    } else {
      CrewStepKeepsInv(s, e);
    }
  }

  lemma InitIsSound(s: State)
    requires Init(s)
    ensures Inv(s)
  {
    assert Running(s.crew.workers) == s.crew.workers.Keys;
  }

  lemma {:induction false} RunKeepsInv(tr: seq<State>, es: seq<Step>, i: nat)
    requires Run(tr, es) && i < |tr|
    ensures Inv(tr[i])
  {
    if i == 0 {
      InitIsSound(tr[0]);
    } else {
      RunKeepsInv(tr, es, i - 1);
      StepKeepsInv(tr[i - 1], es[i - 1]);
    }
  }

  // ---------- What every run guarantees ----------

  /**
   Conservation and order at every moment: batches flushed so far, the current batch and the
   queue spell out the accepted events; batches hold 1 to 100 events; those the channel took
   are, in order, the ones workers received and the ones still waiting. No channel is ever
   misused, and a waiting batch always has its flush timer armed.
   */
  lemma EventsAreConserved(tr: seq<State>, es: seq<Step>, i: nat)
    requires Run(tr, es) && i < |tr|
    ensures var p := tr[i].pipe;
      && tr[i].books.accepted == Concat(p.flushed) + p.batch + p.queue
      && (forall k :: 0 <= k < |p.flushed| ==> 1 <= |p.flushed[k].events| <= MAX_BATCH)
      && Kept(p.flushed) == p.taken + p.out
      && |p.queue| <= p.queueCap && |p.out| <= p.outCap
      && (p.batch != [] ==> p.armed)
      && !tr[i].panicked
  {
    RunKeepsInv(tr, es, i);
  }

  /** Every batch a worker received is being sent by exactly that worker or has been sent, once. */
  lemma EachBatchIsSentOnce(tr: seq<State>, es: seq<Step>, i: nat, b: nat)
    requires Run(tr, es) && i < |tr| && b < |tr[i].pipe.taken|
    ensures b in tr[i].crew.outcomes <==> forall w :: !WorkerAt(tr[i].crew, w, Sending(b))
    ensures forall v, w :: WorkerAt(tr[i].crew, v, Sending(b)) && WorkerAt(tr[i].crew, w, Sending(b)) ==> v == w
  {
    var k, p := tr[i].crew, tr[i].pipe;
    RunKeepsInv(tr, es, i);
    assert BatchSound(k, b);
    if b !in k.outcomes { assert WorkerAt(k, k.holder[b], Sending(b)); }
    forall w | WorkerAt(k, w, Sending(b)) ensures b !in k.outcomes && b in k.holder && k.holder[b] == w {
      assert WorkerSound(k, p, w);
    }
  }

  /** A finished Send is never repeated or revised. */
  lemma {:induction false} OutcomesAreFinal(tr: seq<State>, es: seq<Step>, i: nat, j: nat, b: nat)
    requires Run(tr, es) && i <= j < |tr| && b in tr[i].crew.outcomes
    ensures b in tr[j].crew.outcomes && tr[j].crew.outcomes[b] == tr[i].crew.outcomes[b]
  {
    if i < j {
      OutcomesAreFinal(tr, es, i, j - 1, b);
      RunKeepsInv(tr, es, j - 1);
      OutcomeStays(tr[j - 1], es[j - 1], b);
    }
  }

  lemma OutcomeStays(s: State, e: Step, b: nat)
    requires CrewSound(s.crew, s.pipe) && Enabled(s, e) && b in s.crew.outcomes
    ensures b in Apply(s, e).crew.outcomes && Apply(s, e).crew.outcomes[b] == s.crew.outcomes[b]
  {
    if e.SendReturns? { assert WorkerSound(s.crew, s.pipe, e.w); }
  }

  /** A Close that found the client open has come past its wait for the background goroutines. */
  predicate FirstCloseIsPastWait(s: State) {
    exists c :: c in s.gate.callers && PastWait(s.gate.callers[c])
  }

  predicate Delivered(s: State, e: Event) {
    exists b :: 0 <= b < |s.pipe.taken| && e in s.pipe.taken[b] && b in s.crew.outcomes && s.crew.outcomes[b]
  }

  /**
   When the first Close has waited, and so when it closes the transport and returns, nothing
   is left in the queue, the batch or the channel: every accepted event was flushed, and
   every batch the channel took has been sent. With fallback logging no event given to
   Record is lost silently: it was logged or its batch was delivered.
   */
  lemma FirstCloseDrains(tr: seq<State>, es: seq<Step>, i: nat)
    requires Run(tr, es) && i < |tr| && FirstCloseIsPastWait(tr[i])
    ensures var s := tr[i];
      && s.pipe.queue == [] && s.pipe.batch == [] && s.pipe.out == []
      && Concat(s.pipe.flushed) == s.books.accepted && Kept(s.pipe.flushed) == s.pipe.taken
      && (forall b :: 0 <= b < |s.pipe.taken| ==> b in s.crew.outcomes)
      && (s.books.fallback ==> forall e :: e in s.books.submitted ==> e in s.books.logged || Delivered(s, e))
  {
    var s := tr[i];
    RunKeepsInv(tr, es, i);
    var c :| c in s.gate.callers && PastWait(s.gate.callers[c]);
    assert CallerSound(s.gate, s.crew.wg, c);
    assert Running(s.crew.workers) == {};
    NobodyIsSending(s.crew, s.pipe);
    SomebodyLeft(tr, es, i);
    forall e | s.books.fallback && e in s.books.submitted ensures e in s.books.logged || Delivered(s, e) {
      assert Traced(s.books, s.pipe, s.crew.outcomes, e);
    }
  }

  lemma NobodyIsSending(k: Crew, p: Pipe)
    requires CrewSound(k, p) && Running(k.workers) == {}
    ensures forall b :: 0 <= b < |p.taken| ==> b in k.outcomes
  {
    forall b | 0 <= b < |p.taken| ensures b in k.outcomes {
      assert BatchSound(k, b);
      assert b in k.holder ==> k.holder[b] !in Running(k.workers);
    }
  }

  /** NewClient starts at least one worker, and a worker only leaves a closed, empty channel. */
  lemma SomebodyLeft(tr: seq<State>, es: seq<Step>, i: nat)
    requires Run(tr, es) && i < |tr| && Running(tr[i].crew.workers) == {}
    ensures tr[i].pipe.out == []
  {
    RunKeepsInv(tr, es, i);
    SameWorkers(tr, es, i);
    assert tr[0].crew.workers.Keys != {};
    var w :| w in tr[i].crew.workers;
    assert w !in Running(tr[i].crew.workers) && WorkerSound(tr[i].crew, tr[i].pipe, w);
  }

  lemma StepKeepsWorkers(s: State, e: Step)
    requires Enabled(s, e)
    ensures Apply(s, e).crew.workers.Keys == s.crew.workers.Keys
  {
  }

  lemma {:induction false} SameWorkers(tr: seq<State>, es: seq<Step>, i: nat)
    requires Run(tr, es) && i < |tr|
    ensures tr[i].crew.workers.Keys == tr[0].crew.workers.Keys
  {
    if i > 0 {
      SameWorkers(tr, es, i - 1);
      StepKeepsWorkers(tr[i - 1], es[i - 1]);
    }
  }

  /** Once the queue is closed nothing enters it, in any later step. */
  lemma {:induction false} NothingEntersAClosedQueue(tr: seq<State>, es: seq<Step>, i: nat, j: nat)
    requires Run(tr, es) && i <= j < |tr| && tr[i].gate.queueClosed
    ensures tr[j].gate.queueClosed && tr[j].books.accepted == tr[i].books.accepted
  {
    if i < j {
      NothingEntersAClosedQueue(tr, es, i, j - 1);
      RunKeepsInv(tr, es, j - 1);
      var s, e := tr[j - 1], es[j - 1];
      if IsCallerStep(e) { CallerStepKeepsGate(s.gate, s.crew.wg, e); }
    }
  }

  // ---------- Repeated Close ----------

  /** Nothing is queued, batched, waiting for a worker or being sent. */
  predicate AllSent(s: State) {
    && s.pipe.queue == [] && s.pipe.batch == [] && s.pipe.out == []
    && forall b :: 0 <= b < |s.pipe.taken| ==> b in s.crew.outcomes
  }

  lemma StepKeepsAllSent(s: State, e: Step)
    requires Inv(s) && Enabled(s, e) && s.gate.closed && AllSent(s)
    ensures AllSent(Apply(s, e)) && Apply(s, e).gate.closed
  {
    if IsCallerStep(e) { assert CallerSound(s.gate, s.crew.wg, e.c); }
    if e.SendReturns? { assert WorkerSound(s.crew, s.pipe, e.w); }
  }

  /** Once a Close has marked the client closed, what has all been sent stays so. */
  lemma {:induction false} AllSentStays(tr: seq<State>, es: seq<Step>, i: nat, j: nat)
    requires Run(tr, es) && i <= j < |tr| && tr[i].gate.closed && AllSent(tr[i])
    ensures AllSent(tr[j]) && tr[j].gate.closed
  {
    if i < j {
      AllSentStays(tr, es, i, j - 1);
      RunKeepsInv(tr, es, j - 1);
      StepKeepsAllSent(tr[j - 1], es[j - 1]);
    }
  }

  /** A Close that found the client already closed has returned. */
  ghost predicate RepeatedCloseReturned(s: State) {
    exists c :: CallerAt(s.gate, c, Returned(false))
  }

  lemma {:induction false} SomebodyClosedTheTransport(tr: seq<State>, es: seq<Step>, i: nat)
    requires Run(tr, es) && i < |tr| && tr[i].transportClosed
    ensures exists c :: c in tr[i].gate.callers && tr[i].gate.callers[c].Returned?
  {
    var s, e := tr[i - 1], es[i - 1];
    if s.transportClosed {
      SomebodyClosedTheTransport(tr, es, i - 1);
      var c :| c in s.gate.callers && s.gate.callers[c].Returned?;
      assert c in tr[i].gate.callers && tr[i].gate.callers[c].Returned?;
    } else {
      assert tr[i].gate.callers[e.c].Returned?;
    }
  }

  /** Unless a repeated Close has returned, the transport is closed only after everything was sent. */
  lemma TransportClosesLast(tr: seq<State>, es: seq<Step>, i: nat)
    requires Run(tr, es) && i < |tr| && tr[i].transportClosed && !RepeatedCloseReturned(tr[i])
    ensures var s := tr[i];
      && Concat(s.pipe.flushed) == s.books.accepted && Kept(s.pipe.flushed) == s.pipe.taken
      && forall b :: 0 <= b < |s.pipe.taken| ==> b in s.crew.outcomes
  {
    SomebodyClosedTheTransport(tr, es, i);
    var c :| c in tr[i].gate.callers && tr[i].gate.callers[c].Returned?;
    assert !CallerAt(tr[i].gate, c, Returned(false));
    FirstCloseDrains(tr, es, i);
  }

  lemma ExtendRun(tr: seq<State>, es: seq<Step>, e: Step) returns (tr': seq<State>, es': seq<Step>)
    requires Run(tr, es) && Enabled(tr[|tr| - 1], e)
    ensures Run(tr', es') && tr'[|tr'| - 1] == Apply(tr[|tr| - 1], e) && tr <= tr' && es < es' && es'[|es'| - 1] == e
  {
    tr', es' := tr + [Apply(tr[|tr| - 1], e)], es + [e];
  }

  lemma RecordSucceeds(tr: seq<State>, es: seq<Step>, c: nat, e: Event) returns (tr': seq<State>, es': seq<Step>)
    requires Run(tr, es)
    requires var s := tr[|tr| - 1];
      CallerAt(s.gate, c, Free) && s.gate.lock.None? && !s.gate.closed && |s.pipe.queue| < s.pipe.queueCap
    ensures Run(tr', es')
    ensures var s, s' := tr[|tr| - 1], tr'[|tr'| - 1]; s'.pipe.queue == s.pipe.queue + [e] && s'.gate == s.gate
  {
    var g := tr[|tr| - 1].gate;
    tr', es' := ExtendRun(tr, es, LockRecord(c, e));
    tr', es' := ExtendRun(tr', es', CheckRecord(c));
    tr', es' := ExtendRun(tr', es', Offer(c));
    assert tr'[|tr'| - 1].gate.callers == g.callers;
  }

  lemma QuietStep(tr: seq<State>, es: seq<Step>, e: Step) returns (tr': seq<State>, es': seq<Step>)
    requires Run(tr, es) && Enabled(tr[|tr| - 1], e)
    requires e.LockClose? || e.CheckClose? || e.CloseQueue? || e.CloseTransport?
    ensures Run(tr', es') && tr <= tr' && es < es' && es'[|es'| - 1] == e
    ensures var s, s' := tr[|tr| - 1], tr'[|tr'| - 1];
      && s'.pipe == s.pipe && s'.crew == s.crew
      && s'.gate == GateAfter(s.gate, s.crew.wg, e) && s'.transportClosed == (s.transportClosed || e.CloseTransport?)
  {
    CallerStepIsQuiet(tr[|tr| - 1], e);
    tr', es' := ExtendRun(tr, es, e);
  }

  lemma CloseStarts(tr: seq<State>, es: seq<Step>, c: nat) returns (tr': seq<State>, es': seq<Step>)
    requires Run(tr, es)
    requires var g := tr[|tr| - 1].gate; CallerAt(g, c, Free) && g.lock.None? && !g.closed
    ensures Run(tr', es') && tr'[|tr'| - 1].pipe == tr[|tr| - 1].pipe
    ensures var g, g' := tr[|tr| - 1].gate, tr'[|tr'| - 1].gate; g' == Gate(None, true, true, g.callers[c := Awaiting])
  {
    var g := tr[|tr| - 1].gate;
    tr', es' := QuietStep(tr, es, LockClose(c));
    tr', es' := QuietStep(tr', es', CheckClose(c));
    tr', es' := QuietStep(tr', es', CloseQueue(c));
    assert tr'[|tr'| - 1].gate.callers == g.callers[c := Awaiting];
  }

  lemma CloseAgain(tr: seq<State>, es: seq<Step>, c: nat) returns (tr': seq<State>, es': seq<Step>)
    requires Run(tr, es)
    requires var g := tr[|tr| - 1].gate; CallerAt(g, c, Free) && g.lock.None? && g.closed
    ensures Run(tr', es') && tr'[|tr'| - 1].pipe == tr[|tr| - 1].pipe && tr'[|tr'| - 1].crew == tr[|tr| - 1].crew
    ensures tr'[|tr'| - 1].transportClosed && CallerAt(tr'[|tr'| - 1].gate, c, Returned(false))
    ensures tr <= tr' && es < es' && es'[|es'| - 1] == CloseTransport(c)
  {
    tr', es' := QuietStep(tr, es, LockClose(c));
    tr', es' := QuietStep(tr', es', CheckClose(c));
    tr', es' := QuietStep(tr', es', CloseTransport(c));
  }

  /** A second Close does not wait: it may close the transport under an event that is still queued. */
  lemma RepeatedCloseMayCutOff() returns (tr: seq<State>, es: seq<Step>)
    ensures Run(tr, es)
    ensures var s := tr[|tr| - 1]; s.transportClosed && RepeatedCloseReturned(s) && s.pipe.queue == [7]
  {
    var ws := map[0 := Ready, 1 := Ready];
    assert ws.Keys == {0, 1};
    var s0 := State(NewPipe(0, 0), Gate(None, false, false, map[0 := Free, 1 := Free, 2 := Free]),
                    Crew(Looping, false, ws, 3, map[], map[]), Books(true, {}, [], {}), false, false);
    tr, es := RecordSucceeds([s0], [], 0, 7);
    tr, es := CloseStarts(tr, es, 1);
    tr, es := CloseAgain(tr, es, 2);
  }

  /** Whoever holds the lock of a closed client can give it back without touching any event. */
  lemma LockIsGivenBack(tr: seq<State>, es: seq<Step>, c: nat) returns (tr': seq<State>, es': seq<Step>)
    requires Run(tr, es)
    requires var g := tr[|tr| - 1].gate; CallerAt(g, c, Free) && g.closed
    ensures Run(tr', es') && tr <= tr' && es <= es'
    ensures var s, s' := tr[|tr| - 1], tr'[|tr'| - 1];
      && s'.pipe == s.pipe && s'.crew == s.crew
      && CallerAt(s'.gate, c, Free) && s'.gate.closed && s'.gate.lock.None?
  {
    var g, wg := tr[|tr| - 1].gate, tr[|tr| - 1].crew.wg;
    tr', es' := tr, es;
    if g.lock.Some? {
      RunKeepsInv(tr, es, |tr| - 1);
      var d := g.lock.value;
      assert CallerSound(g, wg, d) && CallerSound(g, wg, c);
      tr', es' := ExtendRun(tr, es, Unlocking(g.callers[d], d));
    }
  }

  /** The step with which a lock holder of a closed client leaves its critical section. */
  function Unlocking(p: Caller, c: nat): Step {
    match p
    case RecordLocked(_) => CheckRecord(c)
    case ClosingQueue => CloseQueue(c)
    case _ => CheckClose(c)
  }

  /** The run goes on until caller c closes the transport. */
  ghost predicate ClosesTransport(tr: seq<State>, es: seq<Step>, c: nat, tr': seq<State>, es': seq<Step>) {
    Run(tr', es') && tr <= tr' && es < es' && es'[|es'| - 1] == CloseTransport(c)
  }

  /** However the run goes on, a Close that caller c makes now closes the transport with everything sent. */
  ghost predicate SafeToClose(tr: seq<State>, es: seq<Step>, c: nat) {
    forall tr', es' :: ClosesTransport(tr, es, c, tr', es') ==> AllSent(tr'[|tr'| - 1])
  }

  /**
   When a repeated Close is harmless. A caller of an already closed client cuts no event off, in
   any continuation, exactly when everything has already been sent at the call.
   */
  lemma RepeatedCloseIsSafeIff(tr: seq<State>, es: seq<Step>, c: nat)
    requires Run(tr, es)
    requires var g := tr[|tr| - 1].gate; CallerAt(g, c, Free) && g.closed
    ensures SafeToClose(tr, es, c) <==> AllSent(tr[|tr| - 1])
  {
    var n := |tr| - 1;
    if AllSent(tr[n]) {
      forall tr', es' | ClosesTransport(tr, es, c, tr', es') ensures AllSent(tr'[|tr'| - 1]) {
        assert tr'[n] == tr[n];
        AllSentStays(tr', es', n, |tr'| - 1);
      }
    } else {
      var tr1, es1 := LockIsGivenBack(tr, es, c);
      var tr2, es2 := CloseAgain(tr1, es1, c);
      assert ClosesTransport(tr, es, c, tr2, es2);
      assert !AllSent(tr2[|tr2| - 1]);
    }
  }

  /** In particular it is harmless once the first Close is past its wait, and so after that Close has returned. */
  lemma CloseAfterTheFirstIsSafe(tr: seq<State>, es: seq<Step>, k: nat, c: nat)
    requires Run(tr, es) && k < |tr| && FirstCloseIsPastWait(tr[k])
    requires CallerAt(tr[|tr| - 1].gate, c, Free)
    ensures AllSent(tr[|tr| - 1]) && SafeToClose(tr, es, c)
  {
    FirstCloseDrains(tr, es, k);
    RunKeepsInv(tr, es, k);
    var d :| d in tr[k].gate.callers && PastWait(tr[k].gate.callers[d]);
    assert CallerSound(tr[k].gate, tr[k].crew.wg, d);
    AllSentStays(tr, es, k, |tr| - 1);
    RepeatedCloseIsSafeIff(tr, es, c);
  }
}
