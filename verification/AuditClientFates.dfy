/**
 What becomes of each event in every interleaving of the audit client: when a batch is flushed,
 when it is dropped, which send it is handed to, and exactly when an event is logged.
 */
module AuditClientFates {
  import opened Prelude
  import opened AuditClient
  import opened AuditClientRuns

  // ---------- Sizes ----------

  lemma StepKeepsSizes(s: State, e: Step)
    requires Enabled(s, e)
    ensures var p, q := s.pipe, Apply(s, e).pipe; q.queueCap == p.queueCap && q.outCap == p.outCap
  {
  }

  /** The channels keep their sizes: the queue's is positive, and there are four batches per worker. */
  lemma {:induction false} SizesAre(tr: seq<State>, es: seq<Step>, i: nat)
    requires Run(tr, es) && i < |tr|
    ensures tr[i].pipe.queueCap == tr[0].pipe.queueCap >= 1
    ensures tr[i].pipe.outCap == 4 * |tr[0].crew.workers| >= 4
  {
    if i > 0 {
      SizesAre(tr, es, i - 1);
      StepKeepsSizes(tr[i - 1], es[i - 1]);
    }
  }

  // ---------- Flushes ----------

  /** The step empties the batch: the hundredth event arrives, the timer fires, or the closed queue is drained. */
  predicate Flushes(p: Pipe, e: Step) {
    (e.Receive? && |p.batch| == 99) || ((e.Timer? || e.Drained?) && p.batch != [])
  }

  function Gathered(p: Pipe, e: Step): seq<Event> {
    p.batch + if e.Receive? && p.queue != [] then [p.queue[0]] else []
  }

  /**
   A flush puts its batch at the end of the channel exactly if the channel has room, and drops
   it otherwise. No other step flushes, drops or sends anything into the channel.
   */
  lemma FlushKeepsIffRoom(tr: seq<State>, es: seq<Step>, i: nat)
    requires Run(tr, es) && i < |es|
    ensures var p, q, e := tr[i].pipe, tr[i + 1].pipe, es[i];
      var room := |p.out| < p.outCap;
      if Flushes(p, e) then
        && q.batch == [] && q.flushed == p.flushed + [Parcel(Gathered(p, e), room)]
        && q.out == if room then p.out + [Gathered(p, e)] else p.out
      else
        && q.batch == Gathered(p, e) && q.flushed == p.flushed
        && q.out == if e.Take? && p.out != [] then p.out[1..] else p.out
  {
    RunKeepsInv(tr, es, i);
    assert Enabled(tr[i], es[i]) && tr[i + 1] == Apply(tr[i], es[i]);
    PipeStepIsExact(tr[i], es[i]);
  }

  lemma PipeStepIsExact(s: State, e: Step)
    requires Enabled(s, e) && Sound(s.pipe)
    ensures var p, q := s.pipe, PipeAfter(s, e);
      var room := |p.out| < p.outCap;
      if Flushes(p, e) then
        && q.batch == [] && q.flushed == p.flushed + [Parcel(Gathered(p, e), room)]
        && q.out == if room then p.out + [Gathered(p, e)] else p.out
      else
        && q.batch == Gathered(p, e) && q.flushed == p.flushed
        && q.out == if e.Take? && p.out != [] then p.out[1..] else p.out
  {
    assert s.pipe.batch + [] == s.pipe.batch;
  }

  /** Every batch in the history was flushed by one step, and was dropped exactly if that step found the channel full. */
  lemma {:induction false} ParcelWasFlushed(tr: seq<State>, es: seq<Step>, i: nat, n: nat) returns (j: nat)
    requires Run(tr, es) && i < |tr| && n < |tr[i].pipe.flushed|
    ensures j < i && Flushes(tr[j].pipe, es[j]) && |tr[j].pipe.flushed| == n
    ensures tr[i].pipe.flushed[n] == Parcel(Gathered(tr[j].pipe, es[j]), |tr[j].pipe.out| < tr[j].pipe.outCap)
    decreases i
  {
    FlushKeepsIffRoom(tr, es, i - 1);
    if n < |tr[i - 1].pipe.flushed| {
      j := ParcelWasFlushed(tr, es, i - 1, n);
    } else {
      j := i - 1;
    }
  }

  /** An event offered by Record is accepted, as the last of the queue, exactly if the queue has room. */
  lemma OfferAcceptsIffRoom(tr: seq<State>, es: seq<Step>, i: nat)
    requires Run(tr, es) && i < |es| && es[i].Offer?
    ensures Enabled(tr[i], es[i])
    ensures var s, s', x := tr[i], tr[i + 1], tr[i].gate.callers[es[i].c].e;
      var news := if |s.pipe.queue| < s.pipe.queueCap then [x] else [];
      !s.gate.closed && s'.pipe.queue == s.pipe.queue + news && s'.books.accepted == s.books.accepted + news
  {
    RunKeepsInv(tr, es, i);
    assert CallerSound(tr[i].gate, tr[i].crew.wg, es[i].c);
    assert tr[i + 1] == Apply(tr[i], es[i]);
  }

  // ---------- Sends ----------

  /** How many of the first n batches the channel took. */
  function KeptBefore(fs: seq<Parcel>, n: nat): nat
    requires n <= |fs|
  {
    if n == 0 then 0 else KeptBefore(fs, n - 1) + if fs[n - 1].kept then 1 else 0
  }

  lemma {:induction false} KeptLength(fs: seq<Parcel>, n: nat)
    requires n <= |fs|
    ensures |Kept(fs[..n])| == KeptBefore(fs, n)
  {
    if n > 0 {
      assert fs[..n][..n - 1] == fs[..n - 1];
      KeptLength(fs, n - 1);
    }
  }

  /** The n-th batch, if kept, has its own place among the kept ones. */
  lemma {:induction false} KeptPlace(fs: seq<Parcel>, n: nat)
    requires n < |fs| && fs[n].kept
    ensures KeptBefore(fs, n) < |Kept(fs)| && Kept(fs)[KeptBefore(fs, n)] == fs[n].events
    decreases |fs|
  {
    var m := |fs| - 1;
    KeptLength(fs, n);
    if n == m {
      assert fs[..n] == fs[..m];
    } else {
      KeptPlace(fs[..m], n);
      KeptBeforePrefix(fs, m, n);
    }
  }

  lemma {:induction false} KeptBeforePrefix(fs: seq<Parcel>, m: nat, n: nat)
    requires n <= m <= |fs|
    ensures KeptBefore(fs[..m], n) == KeptBefore(fs, n)
  {
    if n > 0 { KeptBeforePrefix(fs, m, n - 1); }
  }

  lemma {:induction false} KeptBeforeGrows(fs: seq<Parcel>, n: nat, m: nat)
    requires n < m <= |fs| && fs[n].kept
    ensures KeptBefore(fs, n) < KeptBefore(fs, m)
    decreases m
  {
    if n < m - 1 { KeptBeforeGrows(fs, n, m - 1); }
  }

  /**
   Once the first Close is past its wait, every batch that found room was handed to exactly one
   Send, its own: the b-th, where b counts the kept batches before it, different batches having
   different ones. So an accepted event misses its Send only if its flush found the channel full.
   */
  lemma KeptBatchesWereSent(tr: seq<State>, es: seq<Step>, i: nat, n: nat)
    requires Run(tr, es) && i < |tr| && FirstCloseIsPastWait(tr[i]) && n < |tr[i].pipe.flushed|
    ensures var s, b := tr[i], KeptBefore(tr[i].pipe.flushed, n);
      && (s.pipe.flushed[n].kept ==>
            && b < |s.pipe.taken| && s.pipe.taken[b] == s.pipe.flushed[n].events && b in s.crew.outcomes
            && forall m :: n < m < |s.pipe.flushed| ==> KeptBefore(s.pipe.flushed, m) != b)
      && (!s.pipe.flushed[n].kept ==>
            exists j :: 0 <= j < i && Flushes(tr[j].pipe, es[j]) && |tr[j].pipe.flushed| == n
                        && |tr[j].pipe.out| == tr[j].pipe.outCap)
  {
    var s := tr[i];
    FirstCloseDrains(tr, es, i);
    if s.pipe.flushed[n].kept {
      KeptPlace(s.pipe.flushed, n);
      forall m | n < m < |s.pipe.flushed| ensures KeptBefore(s.pipe.flushed, m) != KeptBefore(s.pipe.flushed, n) {
        KeptBeforeGrows(s.pipe.flushed, n, m);
      }
    } else {
      var j := ParcelWasFlushed(tr, es, i, n);
      RunKeepsInv(tr, es, j);
    }
  }

  // ---------- Logging ----------

  /** The step leaves the event undelivered: refused as closed or full, dropped with its batch, or a failed Send. */
  predicate Undelivered(s: State, e: Step, x: Event)
    requires Enabled(s, e)
  {
    match e
    case CheckRecord(c) => s.gate.closed && s.gate.callers[c].e == x
    case Offer(c) => |s.pipe.queue| >= s.pipe.queueCap && s.gate.callers[c].e == x
    case SendReturns(w, ok) => !ok && x in s.pipe.taken[s.crew.workers[w].i]
    case _ => Flushes(s.pipe, e) && |s.pipe.out| >= s.pipe.outCap && x in Gathered(s.pipe, e)
  }

  lemma LoggingStep(s: State, e: Step, x: Event)
    requires Inv(s) && Enabled(s, e)
    ensures Apply(s, e).books.fallback == s.books.fallback
    ensures x in Apply(s, e).books.logged <==> x in s.books.logged || (s.books.fallback && Undelivered(s, e, x))
  {
    PipeStepIsExact(s, e);
  }

  ghost predicate UndeliveredAt(tr: seq<State>, es: seq<Step>, j: nat, x: Event)
    requires Run(tr, es) && j < |es|
  {
    Enabled(tr[j], es[j]) && Undelivered(tr[j], es[j], x)
  }

  /** With fallback logging an event is logged if and only if some step left it undelivered; without, never. */
  lemma {:induction false} LoggedIff(tr: seq<State>, es: seq<Step>, i: nat, x: Event)
    requires Run(tr, es) && i < |tr|
    ensures tr[i].books.fallback == tr[0].books.fallback
    ensures x in tr[i].books.logged <==> tr[0].books.fallback && exists j :: 0 <= j < i && UndeliveredAt(tr, es, j, x)
  {
    if i > 0 {
      LoggedIff(tr, es, i - 1, x);
      RunKeepsInv(tr, es, i - 1);
      assert Enabled(tr[i - 1], es[i - 1]) && tr[i] == Apply(tr[i - 1], es[i - 1]);
      LoggingStep(tr[i - 1], es[i - 1], x);
      assert UndeliveredAt(tr, es, i - 1, x) == Undelivered(tr[i - 1], es[i - 1], x);
    }
  }
}
