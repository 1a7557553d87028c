/**
 The registry as the source has it: Call objects shared by pointer, a table from keys
 to the current Call, and release functions that fire once. Every method is proved
 against the registry on values (module Group), whose numbers are the order of creation.
 */
module GroupObjects {
  import opened Prelude
  import G = Group

  class Call<T> {
    ghost const id: nat
    ghost const key: string
    var done: bool
    var value: T
    var err: Option<G.Error>
    var followers: int

    constructor (ghost id: nat, ghost key: string, zero: T)
      ensures this.id == id && this.key == key && !done && followers == 0
    {
      this.id, this.key := id, key;
      done, value, err, followers := false, zero, None, 0;
    }

    ghost function View(): G.Flight<T>
      reads this
    {
      G.Flight(key, followers, if done then Some(G.Reply(value, err)) else None)
    }

    /** Wait: a cancelled caller leaves with its own error, otherwise a done call gives its reply. */
    method Wait(ctxErr: Option<G.Error>, zero: T) returns (answered: bool, reply: G.Reply<T>)
      ensures ctxErr.Some? ==> answered && reply == G.Reply(zero, ctxErr)
      ensures ctxErr.None? ==> answered == done && (answered ==> View().reply == Some(reply))
    {
      if ctxErr.Some? { return true, G.Reply(zero, ctxErr); }
      return done, G.Reply(value, err);
    }
  }

  /** The function a follower must call when it leaves; it acts on its first call only. */
  class Release<T> {
    ghost const slot: nat
    const call: Call<T>
    var fired: bool

    constructor (ghost slot: nat, call: Call<T>)
      ensures this.slot == slot && this.call == call && !fired
    {
      this.slot, this.call, fired := slot, call, false;
    }
  }

  ghost function Tickets<T>(calls: map<string, Call<T>>): map<string, nat> {
    map k | k in calls :: calls[k].id
  }

  ghost function Flights<T>(created: seq<Call<T>>): seq<G.Flight<T>>
    reads created
  {
    seq(|created|, i requires 0 <= i < |created| reads created => created[i].View())
  }

  ghost function Slots<T>(handles: seq<Release<T>>): seq<G.Slot>
    reads handles
  {
    seq(|handles|, i requires 0 <= i < |handles| reads handles => G.Slot(handles[i].call.id, handles[i].fired))
  }

  lemma TicketsWith<T>(calls: map<string, Call<T>>, key: string, c: Call<T>)
    ensures Tickets(calls[key := c]) == Tickets(calls)[key := c.id]
    ensures |Tickets(calls)| == |calls| && Tickets(calls).Keys == calls.Keys
  {
    assert Tickets(calls).Keys == calls.Keys;
  }

  lemma FlightsWith<T>(created: seq<Call<T>>, c: Call<T>)
    ensures Flights(created + [c]) == Flights(created) + [c.View()]
  {
  }

  class Registry<T> {
    const limits: G.Limits
    const zero: T
    var calls: map<string, Call<T>>
    ghost var created: seq<Call<T>>
    ghost var handles: seq<Release<T>>

    constructor (limits: G.Limits, zero: T)
      requires G.ValidLimits(limits)
      ensures Valid() && View() == G.NewRegistry<T>(limits)
    {
      this.limits, this.zero, calls, created, handles := limits, zero, map[], [], [];
    }

    /** Objects carry their number. That the registry is sound is a fact about View(), proved in Group. */
    ghost predicate Valid()
      reads this
      ensures Valid() ==> G.Linked(View())
    {
      && (forall i :: 0 <= i < |created| ==> created[i].id == i)
      && (forall i :: 0 <= i < |handles| ==> handles[i].slot == i && handles[i].call in created)
      && (forall k :: k in calls ==> calls[k] in created)
    }

    ghost function View(): G.Registry<T>
      reads this, created, handles
    {
      G.Registry(limits, Tickets(calls), Flights(created), Slots(handles))
    }

    /** Attach a follower to the current call of the key. */
    method Join(key: string) returns (h: Release<T>)
      requires Valid() && 0 < |key| <= limits.maxKeyBytes && key in calls
      requires calls[key].followers < limits.maxFollowers
      modifies this`handles, created
      ensures Valid()
      ensures View() == G.Begun(old(View()), key).0
      ensures handles == old(handles) + [h] && h.call == calls[key]
    {
      ghost var before := View();
      var c := calls[key];
      c.followers := c.followers + 1;
      h := new Release<T>(|handles|, c);
      handles := handles + [h];
      ghost var after := G.Begun(before, key).0;
      assert View().flights == after.flights;
      assert View().slots == after.slots;
    }

    /** Start a new flight for a key that has none. */
    method Launch(key: string) returns (c: Call<T>)
      requires Valid() && 0 < |key| <= limits.maxKeyBytes && key !in calls && |calls| < limits.maxKeys
      modifies this
      ensures Valid()
      ensures View() == G.Begun(old(View()), key).0
      ensures created == old(created) + [c]
    {
      c := new Call<T>(|created|, key, zero);
      TicketsWith(calls, key, c);
      FlightsWith(created, c);
      calls := calls[key := c];
      created := created + [c];
      assert Flights(old(created)) == old(Flights(created));
      assert Slots(handles) == old(Slots(handles));
    }

    method Begin(key: string)
      returns (leader: bool, call: Option<Call<T>>, release: Option<Release<T>>, err: Option<G.Error>)
      requires Valid()
      modifies this, created
      ensures Valid()
      ensures View() == G.Begun(old(View()), key).0
      ensures match G.Begun(old(View()), key).1
        case Refused(e) => !leader && call.None? && release.None? && err == Some(e)
        case Leads(c) => leader && err.None? && release.None? && c < |created| && call == Some(created[c])
        case Follows(c, s) =>
          && !leader && err.None? && c < |created| && call == Some(created[c])
          && s < |handles| && release == Some(handles[s])
    {
      if |key| == 0 || |key| > limits.maxKeyBytes { return false, None, None, Some(G.BadKey); }
      if key in calls {
        if calls[key].followers >= limits.maxFollowers { return false, None, None, Some(G.Capacity); }
        var h := Join(key);
        return false, Some(calls[key]), Some(h), None;
      }
      assert View().calls.Keys == calls.Keys;
      if |calls| >= limits.maxKeys { return false, None, None, Some(G.Capacity); }
      var c := Launch(key);
      return true, Some(c), None, None;
    }

    method Finish(key: string, call: Option<Call<T>>, value: T, err: Option<G.Error>) returns (finished: bool)
      requires Valid()
      modifies this, created
      ensures Valid()
      ensures created == old(created) && handles == old(handles)
      ensures (View(), finished)
           == G.Completed(old(View()), key, TicketOf(call), G.Reply(value, err))
    {
      ghost var before := View();
      if call.None? || key !in calls || calls[key] != call.value { return false; }
      var c := call.value;
      c.value, c.err, c.done := value, err, true;
      calls := calls - {key};
      assert View() == G.Completed(before, key, TicketOf(call), G.Reply(value, err)).0;
      return true;
    }

    /** The number of a ticket of this registry; a foreign ticket has none. */
    ghost function TicketOf(call: Option<Call<T>>): Option<nat>
      reads this
    {
      if call.Some? && call.value in created then Some(call.value.id) else None
    }

    method FireRelease(h: Release<T>)
      requires Valid() && h in handles
      modifies h, created
      ensures Valid()
      ensures View() == G.SlotReleased(old(View()), h.slot)
    {
      ghost var before := View();
      if !h.fired {
        h.fired := true;
        h.call.followers := h.call.followers - 1;
        assert View() == G.SlotReleased(before, h.slot);
      }
    }

    /**
     The leader's half of Do once it has its ticket: run the load, finish, then the
     deferred fallback finish. A load that panics still completes the ticket, with
     ErrAborted; after a normal return the fallback changes nothing.
     */
    method Lead(key: string, call: Call<T>, panics: bool, value: T, err: Option<G.Error>)
      requires Valid() && call in created && key in calls && calls[key] == call
      modifies this, created
      ensures Valid()
      ensures View() == G.Completed(old(View()), key, Some(call.id),
                                    if panics then G.Reply(zero, Some(G.Aborted)) else G.Reply(value, err)).0
    {
      if !panics {
        var _ := Finish(key, Some(call), value, err);
        assert key !in View().calls;
      }
      var _ := Finish(key, Some(call), zero, Some(G.Aborted));
    }
  }

  /** Limits must all be positive. */
  method NewGroup<T>(limits: G.Limits, zero: T) returns (g: Registry?<T>)
    ensures g == null <==> !G.ValidLimits(limits)
    ensures g != null ==> g.Valid() && g.View() == G.NewRegistry<T>(limits)
  {
    if !G.ValidLimits(limits) { return null; }
    g := new Registry<T>(limits, zero);
  }
}
