/**
 The asynchronous batching client: one bounded queue of events, a dispatcher that gathers
 them into batches, and a bounded channel of batches. The functions here are the atomic
 pieces that producers, the dispatcher and the workers are made of.
 */
module AuditClient {
  import opened Prelude

  // Events are told apart by number; their content plays no part.
  type Event = nat

  const MAX_BATCH := 100

  /** NewClient's sizing. */
  function QueueCapacity(bufferSize: int): int {
    if bufferSize <= 0 then 1000 else bufferSize
  }

  function WorkerCount(workers: int): int {
    if workers <= 0 then 2 else workers
  }

  function BatchCapacity(workers: int): int {
    var cap := WorkerCount(workers) * 4;
    if cap < 4 then 4 else cap
  }

  /** A batch that left the dispatcher, and whether the channel had room for it. */
  datatype Parcel = Parcel(events: seq<Event>, kept: bool)

  /** `flushed` is the history of all batches and `taken` of those received by workers; the code keeps neither. */
  datatype Pipe = Pipe(queueCap: int, outCap: int, queue: seq<Event>, batch: seq<Event>, armed: bool,
                       out: seq<seq<Event>>, flushed: seq<Parcel>, taken: seq<seq<Event>>)

  function NewPipe(bufferSize: int, workers: int): Pipe {
    Pipe(QueueCapacity(bufferSize), BatchCapacity(workers), [], [], false, [], [], [])
  }

  /** The sizes of a new client: a thousand events unless configured, four batches for each of at least one worker. */
  lemma NewPipeSizes(bufferSize: int, workers: int)
    ensures var p := NewPipe(bufferSize, workers);
      && p.queueCap == (if bufferSize >= 1 then bufferSize else 1000)
      && p.outCap == 4 * (if workers >= 1 then workers else 2)
      && p.queue == p.batch == [] && p.out == [] && p.flushed == [] && !p.armed
  {
  }

  /** The non-blocking send of Record. */
  function Offered(p: Pipe, e: Event): (Pipe, bool) {
    if |p.queue| < p.queueCap then (p.(queue := p.queue + [e]), true) else (p, false)
  }

  /** The flush closure: hand the batch over if the channel has room, drop it otherwise. */
  function Flushed(p: Pipe): Pipe {
    if p.batch == [] then p
    else
      var kept := |p.out| < p.outCap;
      p.(batch := [], out := if kept then p.out + [p.batch] else p.out,
         flushed := p.flushed + [Parcel(p.batch, kept)])
  }

  /** The dispatcher receives one event: the first one arms the timer, the hundredth one flushes. */
  function Received(p: Pipe): Pipe
    requires p.queue != []
  {
    var q := p.(queue := p.queue[1..], batch := p.batch + [p.queue[0]]);
    if |p.batch| > 0 && |q.batch| >= MAX_BATCH then Flushed(q).(armed := false)
    else q.(armed := true)
  }

  function TimerFired(p: Pipe): Pipe {
    Flushed(p).(armed := false)
  }

  /** A worker receives the oldest batch. */
  function Taken(p: Pipe): Pipe
    requires p.out != []
  {
    p.(out := p.out[1..], taken := p.taken + [p.out[0]])
  }

  function Concat(fs: seq<Parcel>): seq<Event> {
    if fs == [] then [] else Concat(fs[..|fs| - 1]) + fs[|fs| - 1].events
  }

  /** Batches that went into the channel, in order. */
  function Kept(fs: seq<Parcel>): seq<seq<Event>> {
    if fs == [] then []
    else Kept(fs[..|fs| - 1]) + if fs[|fs| - 1].kept then [fs[|fs| - 1].events] else []
  }

  /** Everything accepted, in acceptance order. */
  function Accepted(p: Pipe): seq<Event> {
    Concat(p.flushed) + p.batch + p.queue
  }

  predicate Sound(p: Pipe) {
    && |p.queue| <= p.queueCap && |p.out| <= p.outCap
    && |p.batch| < MAX_BATCH
    && (p.batch != [] <==> p.armed)
    && (forall i :: 0 <= i < |p.flushed| ==> 1 <= |p.flushed[i].events| <= MAX_BATCH)
    && Kept(p.flushed) == p.taken + p.out
  }

  lemma FlushIsOrderly(p: Pipe)
    ensures Concat(Flushed(p).flushed) + Flushed(p).batch == Concat(p.flushed) + p.batch
    ensures Flushed(p).batch == [] && Flushed(p).queue == p.queue
    ensures Kept(p.flushed) == p.taken + p.out ==> Kept(Flushed(p).flushed) == p.taken + Flushed(p).out
  {
    if p.batch != [] {
      var fs := Flushed(p).flushed;
      assert fs[..|fs| - 1] == p.flushed;
    }
  }

  /** Receiving moves one event along, in order, and keeps the pipe sound. */
  lemma ReceiveIsOrderly(p: Pipe)
    requires Sound(p) && p.queue != []
    ensures Sound(Received(p)) && Accepted(Received(p)) == Accepted(p)
    ensures Received(p).queue == p.queue[1..]
  {
    var q := p.(queue := p.queue[1..], batch := p.batch + [p.queue[0]]);
    FlushIsOrderly(q);
    assert p.queue == [p.queue[0]] + p.queue[1..];
    assert Accepted(q) == Accepted(p);
  }

  lemma TimerIsOrderly(p: Pipe)
    requires Sound(p)
    ensures Sound(TimerFired(p)) && Accepted(TimerFired(p)) == Accepted(p)
    ensures TimerFired(p).batch == [] && TimerFired(p).queue == p.queue
  {
    FlushIsOrderly(p);
  }

  lemma TakeIsOrderly(p: Pipe)
    requires Sound(p) && p.out != []
    ensures Sound(Taken(p)) && Accepted(Taken(p)) == Accepted(p)
  {
    assert p.taken + p.out == p.taken + [p.out[0]] + p.out[1..];
  }

  lemma OfferIsOrderly(p: Pipe, e: Event)
    requires Sound(p)
    ensures var (q, ok) := Offered(p, e);
      && Sound(q) && q.flushed == p.flushed && q.out == p.out
      && Accepted(q) == Accepted(p) + (if ok then [e] else [])
      && (ok <==> |p.queue| < p.queueCap)
  {
    if Offered(p, e).1 {
      assert Concat(p.flushed) + p.batch + (p.queue + [e]) == Accepted(p) + [e];
    }
  }

  /** The client's mutable fields, and the dispatcher's loop as the goroutine runs it. */
  class Client {
    const queueCap: int
    const outCap: int
    var queue: seq<Event>
    var closed: bool
    var batch: seq<Event>
    var armed: bool
    var out: seq<seq<Event>>
    ghost var flushed: seq<Parcel>
    ghost var taken: seq<seq<Event>>

    constructor (bufferSize: int, workers: int)
      ensures View() == NewPipe(bufferSize, workers) && Sound(View()) && !closed
    {
      queueCap, outCap := QueueCapacity(bufferSize), BatchCapacity(workers);
      queue, closed, batch, armed, out, flushed, taken := [], false, [], false, [], [], [];
    }

    ghost function View(): Pipe
      reads this
    {
      Pipe(queueCap, outCap, queue, batch, armed, out, flushed, taken)
    }

    /** Record: a closed client or a full queue drops the event, otherwise it is accepted last. */
    method Record(e: Event) returns (accepted: bool)
      modifies this`queue
      ensures accepted == (!closed && Offered(old(View()), e).1)
      ensures View() == if closed then old(View()) else Offered(old(View()), e).0
    {
      if closed { return false; }
      if |queue| < queueCap {
        queue := queue + [e];
        return true;
      }
      return false;
    }

    method Flush()
      modifies this`batch, this`out, this`flushed
      ensures View() == Flushed(old(View()))
    {
      if |batch| == 0 { return; }
      var events := batch;
      batch := [];
      var kept := |out| < outCap;
      if kept { out := out + [events]; }
      flushed := flushed + [Parcel(events, kept)];
    }

    method Receive()
      requires queue != []
      modifies this`queue, this`batch, this`armed, this`out, this`flushed
      ensures View() == Received(old(View()))
    {
      var first := |batch| == 0;
      batch, queue := batch + [queue[0]], queue[1..];
      if !first && |batch| >= MAX_BATCH {
        armed := false;
        Flush();
      } else {
        armed := true;
      }
    }

    /**
     dispatchLoop on a closed queue, with the timer firing whenever `fires` says so: every
     queued event leaves in a batch, in order, and nothing stays behind.
     */
    method Dispatch(fires: nat -> bool)
      requires closed && Sound(View())
      modifies this`queue, this`batch, this`armed, this`out, this`flushed
      ensures Sound(View())
      ensures queue == [] && batch == []
      ensures Concat(flushed) == old(Accepted(View()))
    {
      ghost var all := Accepted(View());
      var round := 0;
      while |queue| != 0 || |batch| != 0
        invariant Sound(View()) && Accepted(View()) == all
        decreases |queue|, |batch|
      {
        ghost var p := View();
        if |batch| != 0 && (|queue| == 0 || fires(round)) {
          TimerIsOrderly(p);
          Flush();
          armed := false;
        } else {
          ReceiveIsOrderly(p);
          Receive();
        }
        round := round + 1;
      }
    }
  }
}
