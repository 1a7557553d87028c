/**
 The bounded in-flight registry: who leads a load, who follows it, and how a flight
 ends. The registry is first given on values, with every flight and every follower
 slot ever admitted kept by number, and then as the mutable objects of the source.
 */
module Group {
  import opened Prelude

  datatype Limits = Limits(maxKeys: int, maxFollowers: int, maxKeyBytes: int)

  predicate ValidLimits(l: Limits) {
    l.maxKeys > 0 && l.maxFollowers > 0 && l.maxKeyBytes > 0
  }

  datatype Error = Capacity | BadKey | Aborted | Cancelled | LoadFailed(code: int)

  /** What a leader publishes: Go's value and error together. */
  datatype Reply<T> = Reply(value: T, err: Option<Error>)

  /** One Call object; it is done when it has a reply. */
  datatype Flight<T> = Flight(key: string, followers: int, reply: Option<Reply<T>>)

  /** One follower's release function and whether it has fired. */
  datatype Slot = Slot(call: nat, released: bool)

  datatype Registry<T> = Registry(limits: Limits, calls: map<string, nat>, flights: seq<Flight<T>>, slots: seq<Slot>)

  datatype Admission = Refused(err: Error) | Leads(call: nat) | Follows(call: nat, slot: nat)

  function NewRegistry<T>(limits: Limits): Registry<T> {
    Registry(limits, map[], [], [])
  }

  /** Tickets in the key table are real flights. */
  predicate Linked<T>(r: Registry<T>) {
    && (forall k :: k in r.calls ==> r.calls[k] < |r.flights|)
    && (forall i :: 0 <= i < |r.slots| ==> r.slots[i].call < |r.flights|)
  }

  function Begun<T>(r: Registry<T>, key: string): (Registry<T>, Admission)
    requires Linked(r)
  {
    if |key| == 0 || |key| > r.limits.maxKeyBytes then (r, Refused(BadKey))
    else if key in r.calls then
      var c := r.calls[key];
      var f := r.flights[c];
      if f.followers >= r.limits.maxFollowers then (r, Refused(Capacity))
      else
        (r.(flights := r.flights[c := f.(followers := f.followers + 1)], slots := r.slots + [Slot(c, false)]),
         Follows(c, |r.slots|))
    else if |r.calls| >= r.limits.maxKeys then (r, Refused(Capacity))
    else
      (r.(calls := r.calls[key := |r.flights|], flights := r.flights + [Flight(key, 0, None)]),
       Leads(|r.flights|))
  }

  /** Finish with any ticket whatsoever; None is Go's nil ticket or a foreign one. */
  function Completed<T>(r: Registry<T>, key: string, call: Option<nat>, reply: Reply<T>): (Registry<T>, bool)
    requires Linked(r)
  {
    if call.None? || key !in r.calls || r.calls[key] != call.value then (r, false)
    else
      var c := call.value;
      (r.(calls := r.calls - {key}, flights := r.flights[c := r.flights[c].(reply := Some(reply))]), true)
  }

  function SlotReleased<T>(r: Registry<T>, slot: nat): Registry<T>
    requires Linked(r) && slot < |r.slots|
  {
    var s := r.slots[slot];
    if s.released then r
    else
      var f := r.flights[s.call];
      r.(flights := r.flights[s.call := f.(followers := f.followers - 1)],
         slots := r.slots[slot := s.(released := true)])
  }

  // ---------- What every registry keeps ----------

  /** Followers of flight c that were admitted and have not been released. */
  function Attached(slots: seq<Slot>, c: nat): nat {
    if slots == [] then 0
    else
      var last := slots[|slots| - 1];
      Attached(slots[..|slots| - 1], c) + if last.call == c && !last.released then 1 else 0
  }

  lemma AttachedAppend(slots: seq<Slot>, x: Slot, c: nat)
    ensures Attached(slots + [x], c) == Attached(slots, c) + if x.call == c && !x.released then 1 else 0
  {
    assert (slots + [x])[..|slots|] == slots;
  }

  lemma {:induction false} AttachedRelease(slots: seq<Slot>, i: nat, c: nat)
    requires i < |slots| && !slots[i].released
    ensures Attached(slots[i := slots[i].(released := true)], c)
         == Attached(slots, c) - if slots[i].call == c then 1 else 0
  {
    var n := |slots| - 1;
    var after := slots[i := slots[i].(released := true)];
    if i == n {
      assert after[..n] == slots[..n];
    } else {
      assert after[..n] == slots[..n][i := slots[i].(released := true)];
      AttachedRelease(slots[..n], i, c);
    }
  }

  lemma {:induction false} NobodyAttached(slots: seq<Slot>, c: nat)
    requires forall i :: 0 <= i < |slots| ==> slots[i].call != c
    ensures Attached(slots, c) == 0
  {
    if slots != [] { NobodyAttached(slots[..|slots| - 1], c); }
  }

  ghost predicate FlightSound<T>(r: Registry<T>, c: nat)
    requires c < |r.flights|
  {
    var f := r.flights[c];
    && f.followers == Attached(r.slots, c) <= r.limits.maxFollowers
    && (f.reply.None? <==> f.key in r.calls && r.calls[f.key] == c)
    && 0 < |f.key| <= r.limits.maxKeyBytes
  }

  ghost predicate Valid<T>(r: Registry<T>) {
    && ValidLimits(r.limits) && Linked(r)
    && |r.calls| <= r.limits.maxKeys
    && (forall k :: k in r.calls ==> r.flights[r.calls[k]].key == k)
    && (forall c {:trigger FlightSound(r, c)} :: 0 <= c < |r.flights| ==> FlightSound(r, c))
  }

  lemma LeadingIsSound<T>(r: Registry<T>, key: string)
    requires Valid(r) && Begun(r, key).1.Leads?
    ensures Valid(Begun(r, key).0)
  {
    var r' := Begun(r, key).0;
    assert r'.calls.Keys == r.calls.Keys + {key};
    forall c | 0 <= c < |r'.flights| ensures FlightSound(r', c) {
      if c < |r.flights| { assert FlightSound(r, c); } else { NobodyAttached(r.slots, c); }
    }
  }

  lemma FollowingIsSound<T>(r: Registry<T>, key: string)
    requires Valid(r) && Begun(r, key).1.Follows?
    ensures Valid(Begun(r, key).0)
  {
    var (r', a) := Begun(r, key);
    forall c | 0 <= c < |r'.flights| ensures FlightSound(r', c) {
      assert FlightSound(r, c);
      AttachedAppend(r.slots, Slot(a.call, false), c);
    }
  }

  /** Begin keeps the registry valid, and leads exactly when the key is free and there is room. */
  lemma BeginSound<T>(r: Registry<T>, key: string)
    requires Valid(r)
    ensures var (r', a) := Begun(r, key);
      && Valid(r')
      && (a.Leads? <==> 0 < |key| <= r.limits.maxKeyBytes && key !in r.calls && |r.calls| < r.limits.maxKeys)
      && (a.Leads? ==> a.call == |r.flights| && key in r'.calls && r'.calls[key] == a.call)
      && (a.Follows? ==> key in r.calls && a.call == r.calls[key] && a.slot == |r.slots|)
      && (a.Refused? ==> r' == r)
  {
    var a := Begun(r, key).1;
    if a.Leads? { LeadingIsSound(r, key); }
    if a.Follows? { FollowingIsSound(r, key); }
  }

  /** Why a caller is refused, and what exactly the registry gains when it is not. */
  lemma BeginIsExact<T>(r: Registry<T>, key: string)
    requires Valid(r)
    ensures var (r', a) := Begun(r, key);
      var fits := 1 <= |key| <= r.limits.maxKeyBytes;
      && (a == Refused(BadKey) <==> !fits)
      && (a == Refused(Capacity) <==>
            && fits
            && if key in r.calls then Attached(r.slots, r.calls[key]) == r.limits.maxFollowers
               else |r.calls| == r.limits.maxKeys)
      && (a.Refused? ==> a.err in {BadKey, Capacity} && r' == r)
      && (a.Leads? ==>
            && r'.calls == r.calls[key := |r.flights|] && r'.slots == r.slots
            && r'.flights == r.flights + [Flight(key, 0, None)])
      && (a.Follows? ==>
            && r'.calls == r.calls && r'.slots == r.slots + [Slot(r.calls[key], false)]
            && |r'.flights| == |r.flights|
            && forall c :: 0 <= c < |r.flights| ==>
                 && r'.flights[c].key == r.flights[c].key && r'.flights[c].reply == r.flights[c].reply
                 && r'.flights[c].followers == r.flights[c].followers + if c == r.calls[key] then 1 else 0)
  {
    if key in r.calls { assert FlightSound(r, r.calls[key]); }
  }

  /** Finish keeps the registry valid; only the current ticket ends a flight, and only its own. */
  lemma FinishSound<T>(r: Registry<T>, key: string, call: Option<nat>, reply: Reply<T>)
    requires Valid(r)
    ensures var (r', done) := Completed(r, key, call, reply);
      && Valid(r')
      && (!done ==> r' == r)
      && (done <==> call.Some? && call.value < |r.flights| && r.flights[call.value].key == key
                    && r.flights[call.value].reply.None?)
      && Extends(r, r')
      && (forall c :: 0 <= c < |r.flights| && Some(c) != call ==> r'.flights[c] == r.flights[c])
      && (done ==> r'.flights[call.value].reply == Some(reply) && r'.calls == r.calls - {key})
      && r'.slots == r.slots && forall c :: 0 <= c < |r.flights| ==> r'.flights[c].followers == r.flights[c].followers
  {
    var (r', done) := Completed(r, key, call, reply);
    if call.Some? && call.value < |r.flights| { assert FlightSound(r, call.value); }
    forall c | 0 <= c < |r'.flights| ensures FlightSound(r', c) { assert FlightSound(r, c); }
  }

  /** Releasing is idempotent, frees exactly one follower's place and ends no flight. */
  lemma ReleaseSound<T>(r: Registry<T>, slot: nat)
    requires Valid(r) && slot < |r.slots|
    ensures var r' := SlotReleased(r, slot);
      && Valid(r')
      && SlotReleased(r', slot) == r'
      && r'.calls == r.calls && |r'.flights| == |r.flights|
      && (forall c :: 0 <= c < |r.flights| ==> r'.flights[c].reply == r.flights[c].reply)
      && (forall c :: 0 <= c < |r.flights| ==>
            r'.flights[c].followers
            == r.flights[c].followers - if c == r.slots[slot].call && !r.slots[slot].released then 1 else 0)
  {
    var r' := SlotReleased(r, slot);
    forall c | 0 <= c < |r'.flights| ensures FlightSound(r', c) {
      assert FlightSound(r, c);
      if !r.slots[slot].released { AttachedRelease(r.slots, slot, c); }
    }
  }

  /** Flights keep their number, their key and any reply they have. */
  ghost predicate Extends<T>(r: Registry<T>, r': Registry<T>) {
    && |r.flights| <= |r'.flights|
    && (forall c :: 0 <= c < |r.flights| ==>
          && r'.flights[c].key == r.flights[c].key
          && (r.flights[c].reply.Some? ==> r'.flights[c].reply == r.flights[c].reply))
  }

  ghost predicate NoNewReply<T>(r: Registry<T>, r': Registry<T>) {
    forall c :: 0 <= c < |r'.flights| && r'.flights[c].reply.Some? ==>
      c < |r.flights| && r.flights[c].key == r'.flights[c].key && r.flights[c].reply == r'.flights[c].reply
  }

  lemma BeginExtends<T>(r: Registry<T>, key: string)
    requires Linked(r)
    ensures Extends(r, Begun(r, key).0) && NoNewReply(r, Begun(r, key).0)
  {
  }

  lemma ReleaseExtends<T>(r: Registry<T>, slot: nat)
    requires Linked(r) && slot < |r.slots|
    ensures Extends(r, SlotReleased(r, slot)) && NoNewReply(r, SlotReleased(r, slot))
  {
  }

  // ---------- All interleavings of all callers ----------

  datatype Event<T> =
    | Begin(key: string)
    | Finish(key: string, call: Option<nat>, reply: Reply<T>)
    | Release(slot: nat)

  predicate Enabled<T>(r: Registry<T>, e: Event<T>) {
    Linked(r) && (e.Release? ==> e.slot < |r.slots|)
  }

  function Apply<T>(r: Registry<T>, e: Event<T>): Registry<T>
    requires Enabled(r, e)
  {
    match e
    case Begin(key) => Begun(r, key).0
    case Finish(key, call, reply) => Completed(r, key, call, reply).0
    case Release(slot) => SlotReleased(r, slot)
  }

  ghost predicate Run<T>(tr: seq<Registry<T>>, es: seq<Event<T>>) {
    && |tr| == |es| + 1
    && ValidLimits(tr[0].limits) && tr[0] == NewRegistry<T>(tr[0].limits)
    && forall i {:trigger es[i]} :: 0 <= i < |es| ==> Enabled(tr[i], es[i]) && tr[i + 1] == Apply(tr[i], es[i])
  }

  /**
   In every interleaving: at most MaxKeys live keys with one ticket each, follower
   counts equal to the admitted and unreleased followers and within MaxFollowers.
   */
  lemma {:induction false} RunIsValid<T>(tr: seq<Registry<T>>, es: seq<Event<T>>, i: nat)
    requires Run(tr, es) && i < |tr|
    ensures Valid(tr[i])
  {
    if i > 0 {
      RunIsValid(tr, es, i - 1);
      var r := tr[i - 1];
      match es[i - 1]
      case Begin(key) => BeginSound(r, key);
      case Finish(key, call, reply) => FinishSound(r, key, call, reply);
      case Release(slot) => ReleaseSound(r, slot);
    }
  }

  lemma StepExtends<T>(r: Registry<T>, e: Event<T>)
    requires Valid(r) && Enabled(r, e)
    ensures Extends(r, Apply(r, e))
  {
    match e
    case Begin(key) => BeginExtends(r, key);
    case Finish(key, call, reply) => FinishSound(r, key, call, reply);
    case Release(slot) => ReleaseExtends(r, slot);
  }

  /** A flight keeps its key and, once it has a reply, that one reply for ever. */
  lemma {:induction false} RepliesAreFinal<T>(tr: seq<Registry<T>>, es: seq<Event<T>>, i: nat, j: nat, c: nat)
    requires Run(tr, es) && i <= j < |tr| && c < |tr[i].flights|
    ensures c < |tr[j].flights| && tr[j].flights[c].key == tr[i].flights[c].key
    ensures tr[i].flights[c].reply.Some? ==> tr[j].flights[c].reply == tr[i].flights[c].reply
  {
    if i < j {
      RepliesAreFinal(tr, es, i, j - 1, c);
      RunIsValid(tr, es, j - 1);
      StepExtends(tr[j - 1], es[j - 1]);
    }
  }

  /** A ticket that was once completed never completes anything again, whatever flight the key has now. */
  lemma OldTicketIsPowerless<T>(tr: seq<Registry<T>>, es: seq<Event<T>>, i: nat, j: nat, c: nat,
                                key: string, reply: Reply<T>)
    requires Run(tr, es) && i <= j < |tr| && c < |tr[i].flights| && tr[i].flights[c].reply.Some?
    ensures Linked(tr[j])
    ensures Completed(tr[j], key, Some(c), reply) == (tr[j], false)
  {
    RepliesAreFinal(tr, es, i, j, c);
    RunIsValid(tr, es, j);
    FinishSound(tr[j], key, Some(c), reply);
  }
}
