/**
 The memo of one bounded operation: its four critical sections, each as one function on
 the guarded fields. A nil slice is None, so a key mapped to None is a reservation.
 */
module Scope {
  import opened Prelude
  import G = Group

  type Buf = nat

  datatype ScopeLimits = ScopeLimits(flights: G.Limits, maxEntries: int, maxBytes: int, maxValueBytes: int, maxAge: int)

  predicate ValidLimits(l: ScopeLimits) {
    && l.maxEntries > 0 && l.maxBytes > 0 && 0 < l.maxValueBytes <= l.maxBytes && l.maxAge > 0
    && G.ValidLimits(l.flights)
  }

  /** The fields guarded by the scope's mutex; B names byte slices. */
  datatype Memo<B> = Memo(limits: ScopeLimits, entries: map<string, Option<B>>, bytes: int, cancelled: bool)

  datatype Lookup<B> = Existing(buf: B) | Full | Reserved

  /** The leader's first critical section: find an earlier value, or reserve the key. */
  function Reserve<B>(m: Memo<B>, key: string): (Memo<B>, Lookup<B>) {
    if key in m.entries && m.entries[key].Some? then (m, Existing(m.entries[key].value))
    else if |m.entries| >= m.limits.maxEntries then (m, Full)
    else (m.(entries := m.entries[key := None]), Reserved)
  }

  /** The leader's last critical section: keep an owned copy of `len` bytes, if there is room and time. */
  function Commit<B>(m: Memo<B>, key: string, owned: B, len: nat): (Memo<B>, Option<G.Error>) {
    if m.cancelled then (m, Some(G.Cancelled))
    else if len > m.limits.maxBytes - m.bytes then (m, Some(G.Capacity))
    else (m.(entries := m.entries[key := Some(owned)], bytes := m.bytes + len), None)
  }

  /** The deferred undo of a reservation that was not committed. */
  function Undo<B>(m: Memo<B>, key: string): Memo<B> {
    m.(entries := m.entries - {key})
  }

  /** The critical section of Close, which runs after the scope's context is cancelled. */
  function Clear<B>(m: Memo<B>): Memo<B> {
    m.(entries := map[], bytes := 0)
  }

  // ---------- Accounting ----------

  /** What an entry retains: a reservation nothing, a committed entry the length of its buffer. */
  function Cost(entry: Option<Buf>, heap: map<Buf, Bytes>): nat {
    if entry.Some? && entry.value in heap then |heap[entry.value]| else 0
  }

  ghost function Total(entries: map<string, Option<Buf>>, heap: map<Buf, Bytes>): nat {
    if entries == map[] then 0 else
    var k :| k in entries;
    Cost(entries[k], heap) + Total(entries - {k}, heap)
  }

  lemma {:induction false} TotalWithout(entries: map<string, Option<Buf>>, heap: map<Buf, Bytes>, k: string)
    requires k in entries
    ensures Total(entries, heap) == Cost(entries[k], heap) + Total(entries - {k}, heap)
    decreases |entries|
  {
    var x :| x in entries && Total(entries, heap) == Cost(entries[x], heap) + Total(entries - {x}, heap);
    if x != k {
      TotalWithout(entries - {x}, heap, k);
      TotalWithout(entries - {k}, heap, x);
      assert entries - {x} - {k} == entries - {k} - {x};
    }
  }

  /** The account depends only on the buffers that entries name. */
  lemma {:induction false} TotalFrame(entries: map<string, Option<Buf>>, heap: map<Buf, Bytes>, heap': map<Buf, Bytes>)
    requires forall k :: k in entries ==> Cost(entries[k], heap) == Cost(entries[k], heap')
    ensures Total(entries, heap) == Total(entries, heap')
    decreases |entries|
  {
    if entries != map[] {
      var k :| k in entries;
      TotalWithout(entries, heap, k);
      TotalWithout(entries, heap', k);
      TotalFrame(entries - {k}, heap, heap');
    }
  }

  /** Setting one entry changes the account and the number of entries by exactly that entry. */
  lemma TotalWith(entries: map<string, Option<Buf>>, heap: map<Buf, Bytes>, key: string, v: Option<Buf>)
    requires key in entries ==> entries[key].None?
    ensures Total(entries[key := v], heap) == Total(entries, heap) + Cost(v, heap)
    ensures Total(entries - {key}, heap) == Total(entries, heap)
  {
    TotalWithout(entries[key := v], heap, key);
    assert entries[key := v] - {key} == entries - {key};
    if key in entries { TotalWithout(entries, heap, key); } else { assert entries - {key} == entries; }
  }

  lemma EntryCounts(entries: map<string, Option<Buf>>, key: string, v: Option<Buf>)
    ensures |entries[key := v]| == |entries| + if key in entries then 0 else 1
    ensures |entries - {key}| == |entries| - if key in entries then 1 else 0
  {
    var more, fewer := entries[key := v], entries - {key};
    assert more.Keys == entries.Keys + {key};
    assert fewer.Keys == entries.Keys - {key};
  }

  /** The counter is exact, and both bounds hold. */
  ghost predicate Accounted(m: Memo<Buf>, heap: map<Buf, Bytes>) {
    && ValidLimits(m.limits)
    && m.bytes == Total(m.entries, heap) <= m.limits.maxBytes
    && |m.entries| <= m.limits.maxEntries
  }

  /** Every committed entry names a buffer in memory. */
  predicate Backed(m: Memo<Buf>, heap: map<Buf, Bytes>) {
    forall k :: k in m.entries && m.entries[k].Some? ==> m.entries[k].value in heap
  }

  lemma ReserveIsAccounted(m: Memo<Buf>, heap: map<Buf, Bytes>, key: string)
    requires Accounted(m, heap) && (key in m.entries ==> m.entries[key].Some?)
    ensures Accounted(Reserve(m, key).0, heap)
  {
    if Reserve(m, key).1.Reserved? {
      TotalWith(m.entries, heap, key, None);
      EntryCounts(m.entries, key, None);
    }
  }

  lemma CommitIsAccounted(m: Memo<Buf>, heap: map<Buf, Bytes>, key: string, owned: Buf, content: Bytes)
    requires Accounted(m, heap) && Backed(m, heap) && owned !in heap
    requires key in m.entries && m.entries[key].None?
    ensures Accounted(Commit(m, key, owned, |content|).0, heap[owned := content])
  {
    TotalFrame(m.entries, heap, heap[owned := content]);
    TotalWith(m.entries, heap[owned := content], key, Some(owned));
    EntryCounts(m.entries, key, Some(owned));
  }

  lemma UndoIsAccounted(m: Memo<Buf>, heap: map<Buf, Bytes>, key: string)
    requires Accounted(m, heap) && (key in m.entries ==> m.entries[key].None?)
    ensures Accounted(Undo(m, key), heap)
  {
    TotalWith(m.entries, heap, key, None);
    EntryCounts(m.entries, key, None);
  }

  lemma ClearIsAccounted(m: Memo<Buf>, heap: map<Buf, Bytes>)
    requires ValidLimits(m.limits)
    ensures Accounted(Clear(m), heap)
  {
    assert Total(map[], heap) == 0;
  }

  /** Writing to a buffer that no entry names does not touch the account. */
  lemma ForeignWriteIsAccounted(m: Memo<Buf>, heap: map<Buf, Bytes>, buf: Buf, content: Bytes)
    requires Accounted(m, heap) && Backed(m, heap)
    requires forall k :: k in m.entries ==> m.entries[k] != Some(buf)
    ensures Accounted(m, heap[buf := content])
  {
    TotalFrame(m.entries, heap, heap[buf := content]);
  }
}
