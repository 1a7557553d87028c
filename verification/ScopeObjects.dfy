/**
 The scope as a mutable object whose entries are real byte arrays, with Resolve as one
 goroutine runs it. The critical sections are proved against the functions of module
 Scope; `stored` is the write-once map that the object stands for.
 */
module ScopeObjects {
  import opened Prelude
  import G = Group
  import S = Scope

  /** What the caller's load function does. */
  datatype Load = Panics | Fails(err: G.Error) | Loads(data: array<Byte>)

  datatype Outcome = Value(bytes: array<Byte>) | Error(err: G.Error) | Panic

  method CopyBytes(data: array<Byte>) returns (copy: array<Byte>)
    ensures fresh(copy) && copy[..] == data[..]
  {
    copy := new Byte[data.Length];
    for i := 0 to data.Length
      invariant copy[..i] == data[..i]
    {
      copy[i] := data[i];
    }
  }

  /** Why a load with this much room does not end up stored; None if it does. */
  function WhyNotStored(load: Load, ctxDone: bool, cancelled: bool, maxValue: int, room: int): Option<Outcome> {
    match load
    case Panics => Some(Panic)
    case Fails(e) => Some(Error(e))
    case Loads(data) =>
      if ctxDone || (data.Length <= maxValue && cancelled) then Some(Error(G.Cancelled))
      else if data.Length > maxValue || data.Length > room then Some(Error(G.Capacity))
      else None
  }

  class Scope {
    const limits: S.ScopeLimits
    var entries: map<string, Option<array<Byte>>>
    var bytes: int
    var cancelled: bool
    ghost var stored: map<string, Bytes>

    constructor (limits: S.ScopeLimits)
      requires S.ValidLimits(limits)
      ensures Valid() && stored == map[] && Fields() == S.Memo(limits, map[], 0, false)
    {
      this.limits, entries, bytes, cancelled, stored := limits, map[], 0, false, map[];
    }

    function Fields(): S.Memo<array<Byte>>
      reads this
    {
      S.Memo(limits, entries, bytes, cancelled)
    }

    ghost predicate Owns(a: array<Byte>)
      reads this
    {
      exists k :: k in entries && entries[k] == Some(a)
    }

    /** Between calls there are no reservations, and each entry still holds the bytes once stored. */
    ghost predicate Valid()
      reads this, set k | k in entries && entries[k].Some? :: entries[k].value
    {
      && entries.Keys == stored.Keys
      && (forall k :: k in entries ==> entries[k].Some? && entries[k].value[..] == stored[k])
    }

    /** Close: cancel, then drop everything. */
    method Close()
      modifies this
      ensures Fields() == S.Clear(old(Fields())).(cancelled := true)
      ensures Valid() && stored == map[]
    {
      cancelled := true;
      entries, bytes := map[], 0;
      stored := map[];
    }

    method Reserve(key: string) returns (found: S.Lookup<array<Byte>>)
      modifies this`entries
      ensures (Fields(), found) == S.Reserve(old(Fields()), key)
    {
      if key in entries && entries[key].Some? { return S.Existing(entries[key].value); }
      if |entries| >= limits.maxEntries { return S.Full; }
      entries := entries[key := None];
      return S.Reserved;
    }

    method Commit(key: string, data: array<Byte>) returns (owned: array<Byte>, err: Option<G.Error>)
      modifies this`entries, this`bytes
      ensures fresh(owned) && owned[..] == data[..]
      ensures (Fields(), err) == S.Commit(old(Fields()), key, owned, data.Length)
    {
      owned := CopyBytes(data);
      if cancelled { return owned, Some(G.Cancelled); }
      if data.Length > limits.maxBytes - bytes { return owned, Some(G.Capacity); }
      entries := entries[key := Some(owned)];
      bytes := bytes + owned.Length;
      return owned, None;
    }

    /** One reservation is outstanding, that of the key. */
    ghost predicate Pending(key: string)
      reads this, set k | k in entries && entries[k].Some? :: entries[k].value
    {
      && key !in stored && entries.Keys == stored.Keys + {key} && entries[key].None?
      && (forall k :: k in stored ==> entries[k].Some? && entries[k].value[..] == stored[k])
    }

    /** Reserve between calls: an entry is found as it is stored, or the key's is the one reservation. */
    method Enter(key: string) returns (found: S.Lookup<array<Byte>>)
      requires Valid()
      modifies this`entries
      ensures !found.Reserved? ==> entries == old(entries) && Valid()
      ensures found.Existing? ==> key in entries && entries[key] == Some(found.buf)
      ensures found.Reserved? ==> key !in old(entries) && entries == old(entries)[key := None] && Pending(key)
      ensures key in old(entries) ==> found.Existing?
      ensures key !in old(entries) ==> (found.Full? <==> |old(entries)| >= limits.maxEntries)
    {
      found := Reserve(key);
    }

    /** Run the load for a reservation and commit its result. */
    method Fill(key: string, load: Load, ctxDone: bool) returns (failure: Option<Outcome>, owned: array?<Byte>)
      requires Pending(key)
      modifies this
      ensures failure.Some? ==> !failure.value.Value? && Fields() == old(Fields()) && stored == old(stored)
      ensures failure.None? ==>
        && Valid() && owned != null && fresh(owned) && load.Loads?
        && entries == old(entries)[key := Some(owned)] && stored == old(stored)[key := load.data[..]]
        && cancelled == old(cancelled) && bytes == old(bytes) + |stored[key]| <= limits.maxBytes
      ensures failure == WhyNotStored(load, ctxDone, old(cancelled), limits.maxValueBytes, limits.maxBytes - old(bytes))
    {
      match load {
        case Panics => return Some(Panic), null;
        case Fails(e) => return Some(Error(e)), null;
        case Loads(data) =>
          if ctxDone { return Some(Error(G.Cancelled)), null; }
          if data.Length > limits.maxValueBytes { return Some(Error(G.Capacity)), null; }
          var copy, err := Commit(key, data);
          if err.Some? { return Some(Error(err.value)), null; }
          stored := stored[key := data[..]];
          return None, copy;
      }
    }

    /** A caller gets its own copy of an entry. */
    method Serve(key: string, buf: array<Byte>) returns (copy: array<Byte>)
      requires Valid() && key in entries && entries[key] == Some(buf)
      ensures fresh(copy) && !Owns(copy) && copy[..] == stored[key]
    {
      copy := CopyBytes(buf);
    }

    /** The leader's part after its reservation: fill it and hand out a copy, or take it back. */
    method FillOrUndo(key: string, load: Load, ctxDone: bool, ghost before: map<string, Option<array<Byte>>>)
      returns (out: Outcome)
      requires Pending(key) && key !in before && entries == before[key := None]
      modifies this
      ensures Valid() && cancelled == old(cancelled)
      ensures var why := WhyNotStored(load, ctxDone, old(cancelled), limits.maxValueBytes, limits.maxBytes - old(bytes));
        if why.None? then out.Value? else out == why.value
      ensures !out.Value? ==> entries == before && bytes == old(bytes) && stored == old(stored)
      ensures out.Value? ==>
        && key in entries && entries[key].Some? && fresh(entries[key].value)
        && entries == before[key := entries[key]]
        && fresh(out.bytes) && !Owns(out.bytes) && out.bytes[..] == stored[key]
        && load.Loads? && stored == old(stored)[key := load.data[..]]
        && bytes == old(bytes) + |stored[key]| <= limits.maxBytes
    {
      var failure, owned := Fill(key, load, ctxDone);
      if failure.Some? {
        entries := entries - {key};
        assert entries == before;
        return failure.value;
      }
      assert entries == before[key := Some(owned)];
      var copy := Serve(key, owned);
      return Value(copy);
    }

    /**
     Resolve with no other call in progress. A success hands out a fresh copy of the stored
     bytes; a failure, refusal or panic leaves every guarded field exactly as it was.
     */
    method Resolve(key: string, load: Load, ctxDone: bool) returns (out: Outcome)
      requires Valid()
      modifies this
      ensures Valid()
      ensures cancelled == old(cancelled)
      ensures entries != old(entries) ==>
        && key in entries && entries[key].Some? && fresh(entries[key].value)
        && entries == old(entries)[key := entries[key]]
      ensures !out.Value? ==> Fields() == old(Fields()) && stored == old(stored)
      ensures out.Value? ==>
        && fresh(out.bytes) && !Owns(out.bytes)
        && key in stored && out.bytes[..] == stored[key]
        && (key in old(stored) ==> Fields() == old(Fields()) && stored == old(stored))
        && (key !in old(stored) ==>
              && load.Loads? && stored == old(stored)[key := load.data[..]]
              && bytes == old(bytes) + |stored[key]| <= limits.maxBytes)
      ensures var fits := 0 < |key| <= limits.flights.maxKeyBytes;
        if old(cancelled) then out == Error(G.Cancelled)
        else if !fits then out == Error(G.BadKey)
        else if key in old(stored) then out.Value?
        else if |old(entries)| >= limits.maxEntries then out == Error(G.Capacity)
        else
          var why := WhyNotStored(load, ctxDone, false, limits.maxValueBytes, limits.maxBytes - old(bytes));
          if why.None? then out.Value? else out == why.value
    {
      if cancelled { return Error(G.Cancelled); }
      if |key| == 0 || |key| > limits.flights.maxKeyBytes { return Error(G.BadKey); }
      ghost var before := entries;
      var found := Enter(key);
      match found {
        case Existing(buf) =>
          var copy := Serve(key, buf);
          return Value(copy);
        case Full => return Error(G.Capacity);
        case Reserved =>
      }
      out := FillOrUndo(key, load, ctxDone, before);
    }
  }

  /** A caller that overwrites the loader's array and the array it got back changes no later result. */
  method CallersCannotCorrupt(s: Scope, key: string, data: array<Byte>, junk: Byte) returns (again: Outcome)
    requires s.Valid() && key !in s.stored && !s.Owns(data)
    modifies s, data
    ensures key in s.stored <==> again.Value?
    ensures again.Value? ==> s.stored[key] == old(data[..]) && again.bytes[..] == old(data[..])
    ensures !again.Value? ==> s.Fields() == old(s.Fields()) && s.stored == old(s.stored)
  {
    var first := s.Resolve(key, Loads(data), false);
    if !first.Value? { return first; }
    Overwrite(data, junk);
    Overwrite(first.bytes, junk);
    again := s.Resolve(key, Panics, false);
  }

  method Overwrite(a: array<Byte>, junk: Byte)
    modifies a
    ensures forall i :: 0 <= i < a.Length ==> a[i] == junk
  {
    for i := 0 to a.Length
      invariant forall n :: 0 <= n < i ==> a[n] == junk
    {
      a[i] := junk;
    }
  }

  /** A scope needs positive bounded storage, a lifetime and valid flight limits. */
  method NewScope(limits: S.ScopeLimits) returns (s: Scope?)
    ensures s == null <==> !S.ValidLimits(limits)
    ensures s != null ==> s.Valid() && s.stored == map[] && s.Fields() == S.Memo(limits, map[], 0, false)
  {
    if !S.ValidLimits(limits) { return null; }
    s := new Scope(limits);
  }
}
