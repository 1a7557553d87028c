/**
 All interleavings of any number of Resolve calls on one scope, with loads that fail,
 panic or ignore cancellation, callers that overwrite every buffer they can reach, and
 Close or expiry at any moment. Each step is one critical section of the scope or of its
 registry, or one private step of a goroutine.
 */
module ScopeRuns {
  import opened Prelude
  import G = Group
  import opened Scope

  type Reply = G.Reply<Option<Buf>>

  datatype Res = Plain(reply: Reply) | Panicked

  /** Where a goroutine stands inside Resolve. */
  datatype Thread =
    | Start(key: string)
    | Entering(key: string)
    | Waiting(key: string, call: nat, slot: nat)
    | Leaving(key: string, slot: nat, res: Res)
    | Leading(key: string, call: nat)
    | Loading(key: string, call: nat)
    | Committing(key: string, call: nat, data: Option<Buf>)
    | Undoing(key: string, call: nat, res: Res)
    | Finishing(key: string, call: nat, reply: Reply)
    | Deferred(key: string, call: nat, res: Res)
    | Cloning(key: string, res: Res)
    | Returned(key: string, res: Res, bytes: Bytes)

  /**
   The scope's guarded fields and the memory. `visible` buffers can be read and overwritten
   by callers, `owned` ones belong to the scope. `spec` records the bytes of every load ever
   committed; the code has no such map.
   */
  datatype Store = Store(
    memo: Memo<Buf>, heap: map<Buf, Bytes>, owned: set<Buf>, visible: set<Buf>,
    spec: map<string, Bytes>, closing: bool, cleared: bool)

  /** Everything but the goroutines. `leaderOf` and `followerOf` record who was given a ticket or a slot. */
  datatype World = World(st: Store, reg: G.Registry<Option<Buf>>, leaderOf: map<nat, nat>, followerOf: map<nat, nat>)

  datatype State = State(w: World, threads: map<nat, Thread>)

  datatype Event =
    | Call(t: nat, key: string)
    | CheckScope(t: nat)
    | EnterCancelled(t: nat)
    | BeginFlight(t: nat)
    | WaitCancelled(t: nat)
    | WaitDone(t: nat)
    | ReleaseSlot(t: nat)
    | LookUp(t: nat)
    | LoadReturns(t: nat, data: Option<Buf>, err: Option<G.Error>, ctxDone: bool)
    | LoadPanics(t: nat)
    | CommitEntry(t: nat, owned: Buf)
    | UndoEntry(t: nat)
    | FinishFlight(t: nat)
    | DeferredFinish(t: nat)
    | Clone(t: nat, out: Buf)
    | NewBuffer(buf: Buf, content: Bytes)
    | Overwrite(buf: Buf, content: Bytes)
    | CancelScope(byClose: bool)
    | ClearScope

  ghost predicate Init(s: State) {
    && ValidLimits(s.w.st.memo.limits)
    && s.w.st.memo == Memo(s.w.st.memo.limits, map[], 0, false)
    && s.w.reg == G.NewRegistry(s.w.st.memo.limits.flights)
    && s.w.st.heap == map[] && s.w.st.owned == {} && s.w.st.visible == {} && s.threads == map[] && s.w.st.spec == map[]
    && !s.w.st.closing && !s.w.st.cleared && s.w.leaderOf == map[] && s.w.followerOf == map[]
  }

  predicate At(s: State, t: nat) {
    t in s.threads
  }

  predicate Enabled(s: State, e: Event) {
    match e
    case Call(t, _) => !At(s, t)
    case CheckScope(t) => At(s, t) && s.threads[t].Start?
    case EnterCancelled(t) => At(s, t) && s.threads[t].Entering?
    case BeginFlight(t) => At(s, t) && s.threads[t].Entering? && G.Linked(s.w.reg)
    case WaitCancelled(t) => At(s, t) && s.threads[t].Waiting?
    case WaitDone(t) =>
      && At(s, t) && s.threads[t].Waiting?
      && s.threads[t].call < |s.w.reg.flights| && s.w.reg.flights[s.threads[t].call].reply.Some?
    case ReleaseSlot(t) => At(s, t) && s.threads[t].Leaving? && G.Linked(s.w.reg) && s.threads[t].slot < |s.w.reg.slots|
    case LookUp(t) => At(s, t) && s.threads[t].Leading?
    case LoadReturns(t, data, err, _) =>
      At(s, t) && s.threads[t].Loading? && (data.Some? ==> data.value in s.w.st.visible && data.value in s.w.st.heap)
    case LoadPanics(t) => At(s, t) && s.threads[t].Loading?
    case CommitEntry(t, owned) => At(s, t) && s.threads[t].Committing? && owned !in s.w.st.heap
    case UndoEntry(t) => At(s, t) && s.threads[t].Undoing?
    case FinishFlight(t) => At(s, t) && s.threads[t].Finishing? && G.Linked(s.w.reg)
    case DeferredFinish(t) => At(s, t) && s.threads[t].Deferred? && G.Linked(s.w.reg)
    case Clone(t, out) => At(s, t) && s.threads[t].Cloning? && out !in s.w.st.heap
    case NewBuffer(buf, _) => buf !in s.w.st.heap
    case Overwrite(buf, content) => buf in s.w.st.visible && buf in s.w.st.heap && |content| == |s.w.st.heap[buf]|
    case CancelScope(_) => true
    case ClearScope => s.w.st.closing
  }

  function Failed(e: G.Error): Res {
    Plain(G.Reply(None, Some(e)))
  }

  function Move(s: State, w: World, t: nat, th: Thread): State {
    State(w, s.threads[t := th])
  }

  function Content(heap: map<Buf, Bytes>, data: Option<Buf>): Bytes {
    if data.Some? && data.value in heap then heap[data.value] else []
  }

  function WithMemo(w: World, memo: Memo<Buf>): World {
    w.(st := w.st.(memo := memo))
  }

  /** The store that keeps an owned copy of `content` as the entry of `key`. */
  function Kept(st: Store, memo: Memo<Buf>, key: string, owned: Buf, content: Bytes): Store {
    st.(memo := memo, heap := st.heap[owned := content], owned := st.owned + {owned}, spec := st.spec[key := content])
  }

  /** A new buffer that callers can reach. */
  function Shown(st: Store, buf: Buf, content: Bytes): Store {
    st.(heap := st.heap[buf := content], visible := st.visible + {buf})
  }

  /** The world after goroutine t's Begin for `key`. */
  function BeganWorld(w: World, key: string, t: nat): World
    requires G.Linked(w.reg)
  {
    var (reg, a) := G.Begun(w.reg, key);
    match a
    case Refused(e) => w
    case Leads(call) => w.(reg := reg, leaderOf := w.leaderOf[call := t])
    case Follows(call, slot) => w.(reg := reg, followerOf := w.followerOf[slot := t])
  }

  function AfterBegin(s: State, t: nat): State
    requires At(s, t) && s.threads[t].Entering? && G.Linked(s.w.reg)
  {
    var key := s.threads[t].key;
    Move(s, BeganWorld(s.w, key, t), t,
         match G.Begun(s.w.reg, key).1
         case Refused(e) => Cloning(key, Failed(e))
         case Leads(call) => Leading(key, call)
         case Follows(call, slot) => Waiting(key, call, slot))
  }

  function AfterLookUp(s: State, t: nat): State
    requires At(s, t) && s.threads[t].Leading?
  {
    var th := s.threads[t];
    var (memo, found) := Reserve(s.w.st.memo, th.key);
    match found
    case Existing(buf) => Move(s, s.w, t, Finishing(th.key, th.call, G.Reply(Some(buf), None)))
    case Full => Move(s, s.w, t, Finishing(th.key, th.call, G.Reply(None, Some(G.Capacity))))
    case Reserved => Move(s, WithMemo(s.w, memo), t, Loading(th.key, th.call))
  }

  function AfterLoad(s: State, t: nat, data: Option<Buf>, err: Option<G.Error>, ctxDone: bool): State
    requires At(s, t) && s.threads[t].Loading?
  {
    var th := s.threads[t];
    if err.Some? then Move(s, s.w, t, Undoing(th.key, th.call, Failed(err.value)))
    else if ctxDone then Move(s, s.w, t, Undoing(th.key, th.call, Failed(G.Cancelled)))
    else if |Content(s.w.st.heap, data)| > s.w.st.memo.limits.maxValueBytes then
      Move(s, s.w, t, Undoing(th.key, th.call, Failed(G.Capacity)))
    else Move(s, s.w, t, Committing(th.key, th.call, data))
  }

  function AfterCommit(s: State, t: nat, owned: Buf): State
    requires At(s, t) && s.threads[t].Committing? && owned !in s.w.st.heap
  {
    var th := s.threads[t];
    var content := Content(s.w.st.heap, th.data);
    var (memo, err) := Commit(s.w.st.memo, th.key, owned, |content|);
    if err.Some? then Move(s, s.w, t, Undoing(th.key, th.call, Failed(err.value)))
    else
      Move(s, s.w.(st := Kept(s.w.st, memo, th.key, owned, content)), t, Finishing(th.key, th.call, G.Reply(Some(owned), None)))
  }

  function AfterUndo(s: State, t: nat): State
    requires At(s, t) && s.threads[t].Undoing?
  {
    var th := s.threads[t];
    Move(s, WithMemo(s.w, Undo(s.w.st.memo, th.key)), t,
         if th.res.Panicked? then Deferred(th.key, th.call, Panicked)
         else Finishing(th.key, th.call, th.res.reply))
  }

  function AfterFinish(s: State, t: nat): State
    requires At(s, t) && s.threads[t].Finishing? && G.Linked(s.w.reg)
  {
    var th := s.threads[t];
    Move(s, s.w.(reg := G.Completed(s.w.reg, th.key, Some(th.call), th.reply).0), t,
         Deferred(th.key, th.call, Plain(th.reply)))
  }

  function AfterDeferred(s: State, t: nat): State
    requires At(s, t) && s.threads[t].Deferred? && G.Linked(s.w.reg)
  {
    var th := s.threads[t];
    Move(s, s.w.(reg := G.Completed(s.w.reg, th.key, Some(th.call), G.Reply(None, Some(G.Aborted))).0), t,
         Cloning(th.key, th.res))
  }

  function AfterClone(s: State, t: nat, out: Buf): State
    requires At(s, t) && s.threads[t].Cloning? && out !in s.w.st.heap
  {
    var th := s.threads[t];
    if th.res.Panicked? || th.res.reply.err.Some? || th.res.reply.value.None? then
      Move(s, s.w, t, Returned(th.key, th.res, []))
    else
      var content := Content(s.w.st.heap, th.res.reply.value);
      Move(s, s.w.(st := Shown(s.w.st, out, content)), t,
           Returned(th.key, Plain(G.Reply(Some(out), None)), content))
  }

  function Apply(s: State, e: Event): State
    requires Enabled(s, e)
  {
    match e
    case Call(t, key) => Move(s, s.w, t, Start(key))
    case CheckScope(t) =>
      var key := s.threads[t].key;
      Move(s, s.w, t, if s.w.st.memo.cancelled then Cloning(key, Failed(G.Cancelled)) else Entering(key))
    case EnterCancelled(t) => Move(s, s.w, t, Cloning(s.threads[t].key, Failed(G.Cancelled)))
    case BeginFlight(t) => AfterBegin(s, t)
    case WaitCancelled(t) => Move(s, s.w, t, Leaving(s.threads[t].key, s.threads[t].slot, Failed(G.Cancelled)))
    case WaitDone(t) =>
      var th := s.threads[t];
      Move(s, s.w, t, Leaving(th.key, th.slot, Plain(s.w.reg.flights[th.call].reply.value)))
    case ReleaseSlot(t) =>
      var th := s.threads[t];
      Move(s, s.w.(reg := G.SlotReleased(s.w.reg, th.slot)), t, Cloning(th.key, th.res))
    case LookUp(t) => AfterLookUp(s, t)
    case LoadReturns(t, data, err, ctxDone) => AfterLoad(s, t, data, err, ctxDone)
    case LoadPanics(t) => Move(s, s.w, t, Undoing(s.threads[t].key, s.threads[t].call, Panicked))
    case CommitEntry(t, owned) => AfterCommit(s, t, owned)
    case UndoEntry(t) => AfterUndo(s, t)
    case FinishFlight(t) => AfterFinish(s, t)
    case DeferredFinish(t) => AfterDeferred(s, t)
    case Clone(t, out) => AfterClone(s, t, out)
    case NewBuffer(buf, content) => s.(w := s.w.(st := Shown(s.w.st, buf, content)))
    case Overwrite(buf, content) => s.(w := s.w.(st := s.w.st.(heap := s.w.st.heap[buf := content])))
    case CancelScope(byClose) =>
      s.(w := s.w.(st := s.w.st.(memo := s.w.st.memo.(cancelled := true), closing := s.w.st.closing || byClose)))
    case ClearScope => s.(w := s.w.(st := s.w.st.(memo := Clear(s.w.st.memo), cleared := true)))
  }

  ghost predicate Run(tr: seq<State>, es: seq<Event>) {
    && |tr| == |es| + 1
    && Init(tr[0])
    && forall i {:trigger es[i]} :: 0 <= i < |es| ==> Enabled(tr[i], es[i]) && tr[i + 1] == Apply(tr[i], es[i])
  }

  // ---------- The invariant ----------

  /** The goroutine still has to complete its flight. */
  predicate IsLeader(th: Thread) {
    || th.Leading? || th.Loading? || th.Committing? || th.Undoing? || th.Finishing?
    || (th.Deferred? && th.res.Panicked?)
  }

  /** The goroutine has reserved its key and neither committed nor undone it. */
  predicate IsReserver(th: Thread) {
    th.Loading? || th.Committing? || th.Undoing?
  }

  predicate IsFollower(th: Thread) {
    th.Waiting? || th.Leaving?
  }

  /** A successful reply for `key` names an owned buffer that holds the committed bytes. */
  predicate ReplySound(st: Store, key: string, r: Reply) {
    r.err.None? ==>
      && r.value.Some? && r.value.value in st.owned && r.value.value in st.heap
      && key in st.spec && st.heap[r.value.value] == st.spec[key]
  }

  predicate ResSound(st: Store, key: string, res: Res) {
    res.Panicked? || ReplySound(st, key, res.reply)
  }

  predicate Failing(res: Res) {
    res.Panicked? || res.reply.err.Some?
  }

  /** The leader holds the current ticket of its key, and its reservation unless Close took it. */
  predicate LeaderSound(w: World, th: Thread, t: nat)
    requires IsLeader(th)
  {
    && th.key in w.reg.calls && w.reg.calls[th.key] == th.call
    && th.call in w.leaderOf && w.leaderOf[th.call] == t
    && (IsReserver(th) ==>
          && (th.key in w.st.memo.entries ==> w.st.memo.entries[th.key].None?)
          && (!w.st.cleared ==> th.key in w.st.memo.entries))
  }

  predicate FollowerSound(w: World, th: Thread, t: nat)
    requires IsFollower(th)
  {
    && th.slot < |w.reg.slots| && !w.reg.slots[th.slot].released
    && th.slot in w.followerOf && w.followerOf[th.slot] == t
  }

  predicate StageSound(w: World, th: Thread) {
    match th
    case Waiting(key, call, _) => call < |w.reg.flights| && w.reg.flights[call].key == key
    case Leaving(key, _, res) => ResSound(w.st, key, res)
    case Committing(_, _, data) => data.Some? ==> data.value in w.st.visible
    case Undoing(_, _, res) => Failing(res)
    case Finishing(key, _, reply) => ReplySound(w.st, key, reply)
    case Deferred(key, call, res) =>
      ResSound(w.st, key, res) && (res.Plain? ==> call < |w.reg.flights| && w.reg.flights[call].reply == Some(res.reply))
    case Cloning(key, res) => ResSound(w.st, key, res)
    case Returned(key, res, bytes) => Failing(res) || (key in w.st.spec && bytes == w.st.spec[key])
    case _ => true
  }

  predicate ThreadSound(w: World, th: Thread, t: nat) {
    && (IsLeader(th) ==> LeaderSound(w, th, t))
    && (IsFollower(th) ==> FollowerSound(w, th, t))
    && StageSound(w, th)
  }

  predicate FlightReplySound(w: World, c: nat)
    requires c < |w.reg.flights|
  {
    w.reg.flights[c].reply.Some? ==> ReplySound(w.st, w.reg.flights[c].key, w.reg.flights[c].reply.value)
  }

  ghost predicate RepliesSound(w: World) {
    forall c {:trigger FlightReplySound(w, c)} :: 0 <= c < |w.reg.flights| ==> FlightReplySound(w, c)
  }

  /** The live flight of `key` is still being led, by the goroutine that got its ticket. */
  predicate Led(s: State, key: string) {
    && key in s.w.reg.calls && s.w.reg.calls[key] in s.w.leaderOf
    && var t := s.w.leaderOf[s.w.reg.calls[key]];
       At(s, t) && IsLeader(s.threads[t]) && s.threads[t].key == key
  }

  predicate ReservedByLeader(s: State, key: string) {
    Led(s, key) && IsReserver(s.threads[s.w.leaderOf[s.w.reg.calls[key]]])
  }

  predicate EntrySound(st: Store, key: string)
    requires key in st.memo.entries
  {
    st.memo.entries[key].Some? ==>
      && st.memo.entries[key].value in st.owned && st.memo.entries[key].value in st.heap
      && key in st.spec && st.heap[st.memo.entries[key].value] == st.spec[key]
  }

  ghost predicate StoreSound(st: Store) {
    && st.owned <= st.heap.Keys && st.visible <= st.heap.Keys && st.owned !! st.visible
    && Accounted(st.memo, st.heap)
    && (forall k {:trigger EntrySound(st, k)} :: k in st.memo.entries ==> EntrySound(st, k))
    && (st.closing || st.cleared ==> st.memo.cancelled)
    && (st.cleared ==> forall k :: k in st.memo.entries ==> st.memo.entries[k].None?)
    && (!st.cleared ==> forall k :: k in st.spec ==> k in st.memo.entries && st.memo.entries[k].Some?)
  }

  ghost predicate WorldSound(w: World) {
    && G.Valid(w.reg) && w.reg.limits == w.st.memo.limits.flights
    && (forall c :: c in w.leaderOf ==> c < |w.reg.flights|)
    && (forall i :: i in w.followerOf ==> i < |w.reg.slots|)
    && StoreSound(w.st) && RepliesSound(w)
  }

  /** Goroutines are sound, every live flight is led, every reservation belongs to the leader of its key. */
  ghost predicate CrewSound(s: State) {
    && (forall t {:trigger ThreadSound(s.w, s.threads[t], t)} :: At(s, t) ==> ThreadSound(s.w, s.threads[t], t))
    && (forall k {:trigger Led(s, k)} :: k in s.w.reg.calls ==> Led(s, k))
    && (forall k {:trigger ReservedByLeader(s, k)} ::
          k in s.w.st.memo.entries && s.w.st.memo.entries[k].None? ==> ReservedByLeader(s, k))
  }

  ghost predicate Inv(s: State) {
    WorldSound(s.w) && CrewSound(s)
  }

  // ---------- What a step leaves alone ----------

  /** Committed bytes, owned buffers and visible buffers stay. */
  ghost predicate StoreGrows(st: Store, st': Store) {
    && (forall k :: k in st.spec ==> k in st'.spec && st'.spec[k] == st.spec[k])
    && st.owned <= st'.owned && st.visible <= st'.visible
    && (forall b :: b in st.owned && b in st.heap ==> b in st'.heap && st'.heap[b] == st.heap[b])
  }

  ghost predicate Grows(w: World, w': World) {
    StoreGrows(w.st, w'.st) && G.Extends(w.reg, w'.reg)
  }

  /** The step did not touch what goroutine `th` relies on. */
  ghost predicate Spares(w: World, w': World, th: Thread) {
    && (IsLeader(th) ==>
          && (th.key in w.reg.calls ==> th.key in w'.reg.calls && w'.reg.calls[th.key] == w.reg.calls[th.key])
          && (th.call in w.leaderOf ==> th.call in w'.leaderOf && w'.leaderOf[th.call] == w.leaderOf[th.call]))
    && (IsReserver(th) ==>
          && (th.key in w'.st.memo.entries ==> th.key in w.st.memo.entries && w'.st.memo.entries[th.key] == w.st.memo.entries[th.key])
          && (!w'.st.cleared ==> !w.st.cleared && (th.key in w.st.memo.entries ==> th.key in w'.st.memo.entries)))
    && (IsFollower(th) ==>
          && (th.slot < |w.reg.slots| ==> th.slot < |w'.reg.slots| && w'.reg.slots[th.slot] == w.reg.slots[th.slot])
          && (th.slot in w.followerOf ==> th.slot in w'.followerOf && w'.followerOf[th.slot] == w.followerOf[th.slot]))
  }

  lemma SparedThreadStaysSound(w: World, w': World, th: Thread, t: nat)
    requires ThreadSound(w, th, t) && Grows(w, w') && Spares(w, w', th)
    ensures ThreadSound(w', th, t)
  {
  }

  /** The goroutine still leads, and still reserves, if and only if it did. */
  predicate SameRoles(a: Thread, b: Thread) {
    (IsLeader(a) <==> IsLeader(b)) && (IsReserver(a) <==> IsReserver(b)) && a.key == b.key
  }

  lemma MoveKeepsCrew(s: State, t: nat, th: Thread)
    requires CrewSound(s)
    requires At(s, t) && SameRoles(s.threads[t], th)
    requires ThreadSound(s.w, th, t)
    ensures CrewSound(Move(s, s.w, t, th))
  {
    var s' := Move(s, s.w, t, th);
    forall u | At(s', u) ensures ThreadSound(s'.w, s'.threads[u], u) {
      if u != t { assert ThreadSound(s.w, s.threads[u], u); }
    }
    forall k | k in s'.w.reg.calls ensures Led(s', k) { assert Led(s, k); }
    forall k | k in s'.w.st.memo.entries && s'.w.st.memo.entries[k].None? ensures ReservedByLeader(s', k) {
      assert ReservedByLeader(s, k);
    }
  }

  lemma CallKeepsCrew(s: State, t: nat, key: string)
    requires CrewSound(s) && !At(s, t)
    ensures CrewSound(Move(s, s.w, t, Start(key)))
  {
    var s' := Move(s, s.w, t, Start(key));
    forall u | At(s', u) ensures ThreadSound(s'.w, s'.threads[u], u) {
      if u != t { assert ThreadSound(s.w, s.threads[u], u); }
    }
    forall k | k in s'.w.reg.calls ensures Led(s', k) { assert Led(s, k); }
    forall k | k in s'.w.st.memo.entries && s'.w.st.memo.entries[k].None? ensures ReservedByLeader(s', k) {
      assert ReservedByLeader(s, k);
    }
  }

  lemma ThreadsStaySound(s: State, w': World, t: nat, th: Thread)
    requires CrewSound(s) && Grows(s.w, w') && ThreadSound(w', th, t)
    requires forall u :: At(s, u) && u != t ==> Spares(s.w, w', s.threads[u])
    ensures var s' := Move(s, w', t, th);
      forall u {:trigger ThreadSound(w', s'.threads[u], u)} :: At(s', u) ==> ThreadSound(w', s'.threads[u], u)
  {
    var s' := Move(s, w', t, th);
    forall u | At(s', u) ensures ThreadSound(w', s'.threads[u], u) {
      if u != t {
        assert ThreadSound(s.w, s.threads[u], u);
        SparedThreadStaysSound(s.w, w', s.threads[u], u);
      }
    }
  }

  /** Any two leaders lead different keys. */
  lemma OneLeaderPerKey(s: State, t: nat, u: nat)
    requires CrewSound(s) && At(s, t) && At(s, u) && t != u && IsLeader(s.threads[t]) && IsLeader(s.threads[u])
    ensures s.threads[t].key != s.threads[u].key && s.threads[t].call != s.threads[u].call
  {
    assert ThreadSound(s.w, s.threads[t], t) && ThreadSound(s.w, s.threads[u], u);
  }

  /** A step that leaves tickets and reservations alone, for goroutines other than t. */
  lemma SameTicketsKeepCrew(s: State, w': World, t: nat, th: Thread)
    requires CrewSound(s) && At(s, t) && SameRoles(s.threads[t], th)
    requires Grows(s.w, w') && ThreadSound(w', th, t)
    requires forall u :: At(s, u) && u != t ==> Spares(s.w, w', s.threads[u])
    requires w'.reg.calls == s.w.reg.calls && w'.leaderOf == s.w.leaderOf
    requires w'.st.memo.entries == s.w.st.memo.entries
    ensures CrewSound(Move(s, w', t, th))
  {
    var s' := Move(s, w', t, th);
    ThreadsStaySound(s, w', t, th);
    forall k | k in s'.w.reg.calls ensures Led(s', k) { assert Led(s, k); }
    forall k | k in s'.w.st.memo.entries && s'.w.st.memo.entries[k].None? ensures ReservedByLeader(s', k) {
      assert ReservedByLeader(s, k);
    }
  }

  /** A step in which a leader changes nothing but the entry of its own key. */
  lemma OwnEntryKeepsCrew(s: State, w': World, t: nat, th: Thread)
    requires CrewSound(s) && At(s, t) && IsLeader(s.threads[t]) && IsLeader(th)
    requires th.key == s.threads[t].key && th.call == s.threads[t].call
    requires Grows(s.w, w') && ThreadSound(w', th, t)
    requires w'.reg == s.w.reg && w'.leaderOf == s.w.leaderOf && w'.followerOf == s.w.followerOf
    requires w'.st.cleared == s.w.st.cleared
    requires forall k :: k != th.key ==> (k in w'.st.memo.entries <==> k in s.w.st.memo.entries)
    requires forall k :: k != th.key && k in s.w.st.memo.entries ==> w'.st.memo.entries[k] == s.w.st.memo.entries[k]
    requires th.key in w'.st.memo.entries && w'.st.memo.entries[th.key].None? ==> IsReserver(th)
    ensures CrewSound(Move(s, w', t, th))
  {
    var s' := Move(s, w', t, th);
    forall u | At(s, u) && u != t ensures Spares(s.w, w', s.threads[u]) {
      if IsLeader(s.threads[u]) { OneLeaderPerKey(s, t, u); }
    }
    ThreadsStaySound(s, w', t, th);
    assert ThreadSound(s.w, s.threads[t], t);
    forall k | k in s'.w.reg.calls ensures Led(s', k) { assert Led(s, k); }
    forall k | k in s'.w.st.memo.entries && s'.w.st.memo.entries[k].None? ensures ReservedByLeader(s', k) {
      assert Led(s, th.key);
      assert k != th.key ==> ReservedByLeader(s, k);
    }
  }

  lemma NewLeaderKeepsCrew(s: State, t: nat)
    requires CrewSound(s) && G.Linked(s.w.reg) && At(s, t) && s.threads[t].Entering?
    requires G.Begun(s.w.reg, s.threads[t].key).1.Leads?
    requires forall c :: c in s.w.leaderOf ==> c < |s.w.reg.flights|
    requires Grows(s.w, AfterBegin(s, t).w)
    ensures CrewSound(AfterBegin(s, t))
  {
    var key := s.threads[t].key;
    var s' := AfterBegin(s, t);
    forall u | At(s, u) && u != t ensures Spares(s.w, s'.w, s.threads[u]) {
      assert ThreadSound(s.w, s.threads[u], u);
    }
    ThreadsStaySound(s, s'.w, t, s'.threads[t]);
    forall k | k in s'.w.reg.calls ensures Led(s', k) { assert k != key ==> Led(s, k); }
    forall k | k in s'.w.st.memo.entries && s'.w.st.memo.entries[k].None? ensures ReservedByLeader(s', k) {
      assert ReservedByLeader(s, k);
    }
  }

  /** A leader that holds no reservation completes its own flight and no other. */
  lemma CompletionKeepsCrew(s: State, w': World, t: nat, th: Thread)
    requires CrewSound(s) && G.Linked(s.w.reg) && At(s, t) && IsLeader(s.threads[t]) && !IsReserver(s.threads[t])
    requires Grows(s.w, w') && !IsLeader(th) && ThreadSound(w', th, t)
    requires w' == s.w.(reg := w'.reg) && w'.reg.slots == s.w.reg.slots
    requires w'.reg.calls == s.w.reg.calls - {s.threads[t].key}
    ensures CrewSound(Move(s, w', t, th))
  {
    var s' := Move(s, w', t, th);
    assert ThreadSound(s.w, s.threads[t], t);
    forall u | At(s, u) && u != t ensures Spares(s.w, w', s.threads[u]) {
      if IsLeader(s.threads[u]) { OneLeaderPerKey(s, t, u); }
    }
    ThreadsStaySound(s, w', t, th);
    forall k | k in s'.w.reg.calls ensures Led(s', k) {
      assert Led(s, k);
      assert ThreadSound(s.w, s.threads[s.w.leaderOf[s.w.reg.calls[k]]], s.w.leaderOf[s.w.reg.calls[k]]);
    }
    forall k | k in s'.w.st.memo.entries && s'.w.st.memo.entries[k].None? ensures ReservedByLeader(s', k) {
      assert ReservedByLeader(s, k);
    }
  }

  /** A step of nobody in particular: buffers, cancellation, Close. */
  lemma OutsideStepKeepsCrew(s: State, w': World)
    requires CrewSound(s) && Grows(s.w, w')
    requires w'.reg == s.w.reg && w'.leaderOf == s.w.leaderOf && w'.followerOf == s.w.followerOf
    requires w'.st.memo.entries == s.w.st.memo.entries || (w'.st.memo.entries == map[] && w'.st.cleared)
    requires s.w.st.cleared ==> w'.st.cleared
    ensures CrewSound(State(w', s.threads))
  {
    var s' := State(w', s.threads);
    forall u | At(s', u) ensures ThreadSound(w', s'.threads[u], u) {
      assert ThreadSound(s.w, s.threads[u], u);
      SparedThreadStaysSound(s.w, w', s.threads[u], u);
    }
    forall k | k in s'.w.reg.calls ensures Led(s', k) { assert Led(s, k); }
    forall k | k in s'.w.st.memo.entries && s'.w.st.memo.entries[k].None? ensures ReservedByLeader(s', k) {
      assert ReservedByLeader(s, k);
    }
  }

  // ---------- Every step keeps the invariant ----------

  /** Changing only the registry keeps the world sound, if it gains no reply. */
  lemma RegistryKeepsReplies(w: World, w': World)
    requires RepliesSound(w) && w'.st == w.st && G.NoNewReply(w.reg, w'.reg)
    ensures RepliesSound(w')
  {
    forall c | 0 <= c < |w'.reg.flights| ensures FlightReplySound(w', c) {
      if c < |w.reg.flights| { assert FlightReplySound(w, c); }
    }
  }

  /** A store that only grows keeps all published replies sound. */
  lemma GrowthKeepsReplies(w: World, w': World)
    requires RepliesSound(w) && StoreGrows(w.st, w'.st) && w'.reg == w.reg
    ensures RepliesSound(w')
  {
    forall c | 0 <= c < |w'.reg.flights| ensures FlightReplySound(w', c) { assert FlightReplySound(w, c); }
  }

  lemma CompletionKeepsReplies(w: World, key: string, call: nat, reply: Reply)
    requires RepliesSound(w) && G.Linked(w.reg) && key in w.reg.calls && w.reg.calls[key] == call
    requires w.reg.flights[call].key == key && ReplySound(w.st, key, reply)
    ensures RepliesSound(w.(reg := G.Completed(w.reg, key, Some(call), reply).0))
  {
    var w' := w.(reg := G.Completed(w.reg, key, Some(call), reply).0);
    forall c | 0 <= c < |w'.reg.flights| ensures FlightReplySound(w', c) { assert FlightReplySound(w, c); }
  }

  lemma CompletionKeepsWorld(w: World, key: string, call: nat, reply: Reply)
    requires WorldSound(w) && key in w.reg.calls && w.reg.calls[key] == call && ReplySound(w.st, key, reply)
    ensures var w' := w.(reg := G.Completed(w.reg, key, Some(call), reply).0);
      && WorldSound(w') && Grows(w, w')
      && w'.reg.slots == w.reg.slots && w'.reg.calls == w.reg.calls - {key}
      && call < |w'.reg.flights| && w'.reg.flights[call].reply == Some(reply)
  {
    G.FinishSound(w.reg, key, Some(call), reply);
    CompletionKeepsReplies(w, key, call, reply);
  }

  lemma ReleaseKeepsWorld(w: World, slot: nat)
    requires WorldSound(w) && slot < |w.reg.slots|
    ensures var w' := w.(reg := G.SlotReleased(w.reg, slot));
      && WorldSound(w') && Grows(w, w') && w'.reg.calls == w.reg.calls
      && |w'.reg.slots| == |w.reg.slots|
      && forall i :: 0 <= i < |w.reg.slots| && i != slot ==> w'.reg.slots[i] == w.reg.slots[i]
  {
    G.ReleaseSound(w.reg, slot);
    G.ReleaseExtends(w.reg, slot);
    RegistryKeepsReplies(w, w.(reg := G.SlotReleased(w.reg, slot)));
  }

  lemma BeginKeepsWorld(w: World, key: string, t: nat)
    requires WorldSound(w)
    ensures WorldSound(BeganWorld(w, key, t))
  {
    G.BeginSound(w.reg, key);
    G.BeginExtends(w.reg, key);
    RegistryKeepsReplies(w, BeganWorld(w, key, t));
  }

  lemma NewFollowerKeepsCrew(s: State, t: nat)
    requires CrewSound(s) && G.Linked(s.w.reg) && At(s, t) && s.threads[t].Entering?
    requires G.Begun(s.w.reg, s.threads[t].key).1.Follows?
    requires s.threads[t].key in s.w.reg.calls
    requires s.w.reg.flights[s.w.reg.calls[s.threads[t].key]].key == s.threads[t].key
    requires forall i :: i in s.w.followerOf ==> i < |s.w.reg.slots|
    requires Grows(s.w, AfterBegin(s, t).w)
    ensures CrewSound(AfterBegin(s, t))
  {
    var s' := AfterBegin(s, t);
    forall u | At(s, u) && u != t ensures Spares(s.w, s'.w, s.threads[u]) { }
    SameTicketsKeepCrew(s, s'.w, t, s'.threads[t]);
  }

  lemma BeginKeepsCrew(s: State, t: nat)
    requires Inv(s) && At(s, t) && s.threads[t].Entering?
    ensures CrewSound(AfterBegin(s, t))
  {
    var key := s.threads[t].key;
    G.BeginExtends(s.w.reg, key);
    match G.Begun(s.w.reg, key).1
    case Refused(e) => MoveKeepsCrew(s, t, Cloning(key, Failed(e)));
    case Leads(call) => NewLeaderKeepsCrew(s, t);
    case Follows(call, slot) => NewFollowerKeepsCrew(s, t);
  }

  lemma ReleaseKeepsInv(s: State, t: nat)
    requires Inv(s) && At(s, t) && s.threads[t].Leaving? && s.threads[t].slot < |s.w.reg.slots|
    ensures var th := s.threads[t];
      Inv(Move(s, s.w.(reg := G.SlotReleased(s.w.reg, th.slot)), t, Cloning(th.key, th.res)))
  {
    var th := s.threads[t];
    var w' := s.w.(reg := G.SlotReleased(s.w.reg, th.slot));
    assert ThreadSound(s.w, th, t);
    ReleaseKeepsWorld(s.w, th.slot);
    ReleaseSparesOthers(s, w', t);
    SameTicketsKeepCrew(s, w', t, Cloning(th.key, th.res));
  }

  lemma ReleaseSparesOthers(s: State, w': World, t: nat)
    requires CrewSound(s) && At(s, t) && s.threads[t].Leaving?
    requires w' == s.w.(reg := w'.reg) && w'.reg.calls == s.w.reg.calls && |w'.reg.slots| == |s.w.reg.slots|
    requires forall i :: 0 <= i < |s.w.reg.slots| && i != s.threads[t].slot ==> w'.reg.slots[i] == s.w.reg.slots[i]
    ensures forall u :: At(s, u) && u != t ==> Spares(s.w, w', s.threads[u])
  {
    assert ThreadSound(s.w, s.threads[t], t);
    forall u | At(s, u) && u != t ensures Spares(s.w, w', s.threads[u]) {
      assert ThreadSound(s.w, s.threads[u], u);
    }
  }

  lemma FinishKeepsInv(s: State, t: nat)
    requires Inv(s) && At(s, t) && s.threads[t].Finishing?
    ensures Inv(AfterFinish(s, t))
  {
    var th := s.threads[t];
    var s' := AfterFinish(s, t);
    assert ThreadSound(s.w, th, t);
    CompletionKeepsWorld(s.w, th.key, th.call, th.reply);
    CompletionKeepsCrew(s, s'.w, t, s'.threads[t]);
  }

  /** After a normal finish the deferred one finds its ticket spent and changes nothing. */
  lemma DeferredIsIdle(w: World, th: Thread)
    requires WorldSound(w) && th.Deferred? && th.res.Plain? && StageSound(w, th)
    ensures w.(reg := G.Completed(w.reg, th.key, Some(th.call), G.Reply(None, Some(G.Aborted))).0) == w
  {
    G.FinishSound(w.reg, th.key, Some(th.call), G.Reply(None, Some(G.Aborted)));
  }

  lemma DeferredKeepsInv(s: State, t: nat)
    requires Inv(s) && At(s, t) && s.threads[t].Deferred?
    ensures Inv(AfterDeferred(s, t))
  {
    var th := s.threads[t];
    var s' := AfterDeferred(s, t);
    assert ThreadSound(s.w, th, t);
    if th.res.Plain? {
      DeferredIsIdle(s.w, th);
      MoveKeepsCrew(s, t, s'.threads[t]);
    } else {
      CompletionKeepsWorld(s.w, th.key, th.call, G.Reply(None, Some(G.Aborted)));
      CompletionKeepsCrew(s, s'.w, t, s'.threads[t]);
    }
  }

  lemma StoreStepKeepsWorld(w: World, st': Store)
    requires WorldSound(w) && StoreSound(st') && StoreGrows(w.st, st') && st'.memo.limits == w.st.memo.limits
    ensures WorldSound(w.(st := st'))
  {
    GrowthKeepsReplies(w, w.(st := st'));
  }

  /** Steps inside one goroutine that touch no shared state. */
  lemma PrivateStepKeepsCrew(s: State, e: Event)
    requires CrewSound(s) && RepliesSound(s.w) && Enabled(s, e)
    requires e.CheckScope? || e.EnterCancelled? || e.WaitCancelled? || e.WaitDone? || e.LoadReturns? || e.LoadPanics?
    ensures CrewSound(Apply(s, e)) && Apply(s, e).w == s.w
  {
    var th := s.threads[e.t];
    assert ThreadSound(s.w, th, e.t);
    if e.WaitDone? { assert FlightReplySound(s.w, th.call); }
    MoveKeepsCrew(s, e.t, Apply(s, e).threads[e.t]);
  }

  /** A leader that has not reserved finds no reservation of its key: only it could have made one. */
  lemma NoStaleReservation(s: State, t: nat)
    requires CrewSound(s) && At(s, t) && IsLeader(s.threads[t]) && !IsReserver(s.threads[t])
    ensures s.threads[t].key in s.w.st.memo.entries ==> s.w.st.memo.entries[s.threads[t].key].Some?
  {
    assert ThreadSound(s.w, s.threads[t], t);
    assert !ReservedByLeader(s, s.threads[t].key);
  }

  lemma ReserveKeepsStore(st: Store, key: string)
    requires StoreSound(st) && (key in st.memo.entries ==> st.memo.entries[key].Some?)
    ensures StoreSound(st.(memo := Reserve(st.memo, key).0))
  {
    var st' := st.(memo := Reserve(st.memo, key).0);
    ReserveIsAccounted(st.memo, st.heap, key);
    forall k | k in st'.memo.entries ensures EntrySound(st', k) { if k != key { assert EntrySound(st, k); } }
  }

  lemma LookUpKeepsCrew(s: State, t: nat)
    requires CrewSound(s) && At(s, t) && s.threads[t].Leading?
    requires forall k :: k in s.w.st.memo.entries ==> EntrySound(s.w.st, k)
    ensures CrewSound(AfterLookUp(s, t))
  {
    var th := s.threads[t];
    var s' := AfterLookUp(s, t);
    assert ThreadSound(s.w, th, t);
    NoStaleReservation(s, t);
    if Reserve(s.w.st.memo, th.key).1.Reserved? {
      OwnEntryKeepsCrew(s, s'.w, t, s'.threads[t]);
    } else {
      MoveKeepsCrew(s, t, s'.threads[t]);
    }
  }

  lemma LookUpKeepsWorld(s: State, t: nat)
    requires Inv(s) && At(s, t) && s.threads[t].Leading?
    ensures WorldSound(AfterLookUp(s, t).w)
  {
    var key := s.threads[t].key;
    NoStaleReservation(s, t);
    ReserveKeepsStore(s.w.st, key);
    StoreStepKeepsWorld(s.w, s.w.st.(memo := Reserve(s.w.st.memo, key).0));
  }

  /** A commit is the first one of its key, and adds exactly its own bytes to the account. */
  lemma CommitKeepsStore(st: Store, key: string, owned: Buf, content: Bytes)
    requires StoreSound(st) && owned !in st.heap && Commit(st.memo, key, owned, |content|).1.None?
    requires (key in st.memo.entries ==> st.memo.entries[key].None?) && (!st.cleared ==> key in st.memo.entries)
    ensures key !in st.spec
    ensures var st' := Kept(st, Commit(st.memo, key, owned, |content|).0, key, owned, content);
      StoreSound(st') && StoreGrows(st, st')
  {
    var st' := Kept(st, Commit(st.memo, key, owned, |content|).0, key, owned, content);
    forall k | k in st.memo.entries ensures EntrySound(st, k) { }
    CommitIsAccounted(st.memo, st.heap, key, owned, content);
    forall k | k in st'.memo.entries ensures EntrySound(st', k) { assert EntrySound(st, k); }
  }

  lemma CommitKeepsWorld(s: State, t: nat, owned: Buf)
    requires Inv(s) && At(s, t) && s.threads[t].Committing? && owned !in s.w.st.heap
    ensures WorldSound(AfterCommit(s, t, owned).w) && StoreGrows(s.w.st, AfterCommit(s, t, owned).w.st)
  {
    var th := s.threads[t];
    var content := Content(s.w.st.heap, th.data);
    var (memo, err) := Commit(s.w.st.memo, th.key, owned, |content|);
    assert ThreadSound(s.w, th, t);
    if err.None? {
      CommitKeepsStore(s.w.st, th.key, owned, content);
      StoreStepKeepsWorld(s.w, Kept(s.w.st, memo, th.key, owned, content));
    }
  }

  lemma CommitKeepsCrew(s: State, t: nat, owned: Buf)
    requires CrewSound(s) && At(s, t) && s.threads[t].Committing? && owned !in s.w.st.heap
    requires StoreGrows(s.w.st, AfterCommit(s, t, owned).w.st)
    ensures CrewSound(AfterCommit(s, t, owned))
  {
    var th := s.threads[t];
    var s' := AfterCommit(s, t, owned);
    assert ThreadSound(s.w, th, t);
    if s'.threads[t].Finishing? {
      OwnEntryKeepsCrew(s, s'.w, t, s'.threads[t]);
    } else {
      MoveKeepsCrew(s, t, s'.threads[t]);
    }
  }

  lemma UndoKeepsStore(st: Store, key: string)
    requires StoreSound(st) && (key in st.memo.entries ==> st.memo.entries[key].None?)
    ensures StoreSound(st.(memo := Undo(st.memo, key)))
  {
    var st' := st.(memo := Undo(st.memo, key));
    UndoIsAccounted(st.memo, st.heap, key);
    forall k | k in st'.memo.entries ensures EntrySound(st', k) { assert EntrySound(st, k); }
  }

  lemma UndoKeepsWorld(s: State, t: nat)
    requires Inv(s) && At(s, t) && s.threads[t].Undoing?
    ensures WorldSound(AfterUndo(s, t).w)
  {
    assert ThreadSound(s.w, s.threads[t], t);
    UndoKeepsStore(s.w.st, s.threads[t].key);
    StoreStepKeepsWorld(s.w, s.w.st.(memo := Undo(s.w.st.memo, s.threads[t].key)));
  }

  lemma UndoKeepsCrew(s: State, t: nat)
    requires CrewSound(s) && At(s, t) && s.threads[t].Undoing?
    ensures CrewSound(AfterUndo(s, t))
  {
    var s' := AfterUndo(s, t);
    assert ThreadSound(s.w, s.threads[t], t);
    OwnEntryKeepsCrew(s, s'.w, t, s'.threads[t]);
  }

  /** Writing to buffers the scope does not own changes neither its account nor its entries. */
  lemma ForeignBufferKeepsStore(st: Store, buf: Buf, content: Bytes)
    requires StoreSound(st) && buf !in st.owned
    ensures StoreSound(Shown(st, buf, content)) && StoreGrows(st, Shown(st, buf, content))
  {
    var st' := Shown(st, buf, content);
    forall k | k in st.memo.entries ensures EntrySound(st, k) { }
    ForeignWriteIsAccounted(st.memo, st.heap, buf, content);
    forall k | k in st'.memo.entries ensures EntrySound(st', k) { assert EntrySound(st, k); }
  }

  lemma CloneKeepsWorld(s: State, t: nat, out: Buf)
    requires WorldSound(s.w) && At(s, t) && s.threads[t].Cloning? && out !in s.w.st.heap
    ensures WorldSound(AfterClone(s, t, out).w) && StoreGrows(s.w.st, AfterClone(s, t, out).w.st)
  {
    var res := s.threads[t].res;
    if AfterClone(s, t, out).w != s.w {
      var content := Content(s.w.st.heap, res.reply.value);
      ForeignBufferKeepsStore(s.w.st, out, content);
      StoreStepKeepsWorld(s.w, Shown(s.w.st, out, content));
    }
  }

  lemma CloneKeepsCrew(s: State, t: nat, out: Buf)
    requires CrewSound(s) && At(s, t) && s.threads[t].Cloning? && out !in s.w.st.heap
    requires StoreGrows(s.w.st, AfterClone(s, t, out).w.st)
    ensures CrewSound(AfterClone(s, t, out))
  {
    var s' := AfterClone(s, t, out);
    assert ThreadSound(s.w, s.threads[t], t);
    SameTicketsKeepCrew(s, s'.w, t, s'.threads[t]);
  }

  lemma CancelKeepsStore(st: Store, byClose: bool)
    requires StoreSound(st)
    ensures StoreSound(st.(memo := st.memo.(cancelled := true), closing := st.closing || byClose))
  {
    var st' := st.(memo := st.memo.(cancelled := true), closing := st.closing || byClose);
    forall k | k in st'.memo.entries ensures EntrySound(st', k) { assert EntrySound(st, k); }
  }

  lemma ClearKeepsStore(st: Store)
    requires StoreSound(st) && st.closing
    ensures StoreSound(st.(memo := Clear(st.memo), cleared := true))
  {
    ClearIsAccounted(st.memo, st.heap);
  }

  lemma OutsideStepKeepsInv(s: State, st': Store)
    requires Inv(s) && StoreSound(st') && StoreGrows(s.w.st, st') && st'.memo.limits == s.w.st.memo.limits
    requires st'.memo.entries == s.w.st.memo.entries || (st'.memo.entries == map[] && st'.cleared)
    requires s.w.st.cleared ==> st'.cleared
    ensures Inv(State(s.w.(st := st'), s.threads))
  {
    StoreStepKeepsWorld(s.w, st');
    OutsideStepKeepsCrew(s, s.w.(st := st'));
  }

  lemma BufferStepKeepsInv(s: State, buf: Buf, content: Bytes)
    requires Inv(s) && buf !in s.w.st.owned
    ensures Inv(State(s.w.(st := Shown(s.w.st, buf, content)), s.threads))
  {
    ForeignBufferKeepsStore(s.w.st, buf, content);
    OutsideStepKeepsInv(s, Shown(s.w.st, buf, content));
  }

  lemma OverwriteKeepsInv(s: State, buf: Buf, content: Bytes)
    requires Inv(s) && buf in s.w.st.visible
    ensures Inv(State(s.w.(st := s.w.st.(heap := s.w.st.heap[buf := content])), s.threads))
  {
    assert s.w.st.(heap := s.w.st.heap[buf := content]) == Shown(s.w.st, buf, content);
    BufferStepKeepsInv(s, buf, content);
  }

  lemma CancelKeepsInv(s: State, byClose: bool)
    requires Inv(s)
    ensures Inv(Apply(s, CancelScope(byClose)))
  {
    CancelKeepsStore(s.w.st, byClose);
    OutsideStepKeepsInv(s, Apply(s, CancelScope(byClose)).w.st);
  }

  lemma ClearKeepsInv(s: State)
    requires Inv(s) && s.w.st.closing
    ensures Inv(Apply(s, ClearScope))
  {
    ClearKeepsStore(s.w.st);
    OutsideStepKeepsInv(s, Apply(s, ClearScope).w.st);
  }

  lemma StepKeepsInv(s: State, e: Event)
    requires Inv(s) && Enabled(s, e)
    ensures Inv(Apply(s, e))
  {
    match e
    case Call(t, key) => CallKeepsCrew(s, t, key);
    case BeginFlight(t) => BeginKeepsWorld(s.w, s.threads[t].key, t); BeginKeepsCrew(s, t);
    case ReleaseSlot(t) => ReleaseKeepsInv(s, t);
    case LookUp(t) => LookUpKeepsWorld(s, t); LookUpKeepsCrew(s, t);
    case CommitEntry(t, owned) => CommitKeepsWorld(s, t, owned); CommitKeepsCrew(s, t, owned);
    case UndoEntry(t) => UndoKeepsWorld(s, t); UndoKeepsCrew(s, t);
    case FinishFlight(t) => FinishKeepsInv(s, t);
    case DeferredFinish(t) => DeferredKeepsInv(s, t);
    case Clone(t, out) => CloneKeepsWorld(s, t, out); CloneKeepsCrew(s, t, out);
    case NewBuffer(buf, content) => BufferStepKeepsInv(s, buf, content);
    case Overwrite(buf, content) => OverwriteKeepsInv(s, buf, content);
    case CancelScope(byClose) => CancelKeepsInv(s, byClose);
    case ClearScope => ClearKeepsInv(s);
    case _ => PrivateStepKeepsCrew(s, e);
  }

  lemma InitIsSound(s: State)
    requires Init(s)
    ensures Inv(s)
  {
    assert Total(map[], s.w.st.heap) == 0;
  }

  lemma {:induction false} RunKeepsInv(tr: seq<State>, es: seq<Event>, i: nat)
    requires Run(tr, es) && i < |tr|
    ensures Inv(tr[i])
  {
    if i == 0 {
      InitIsSound(tr[0]);
    } else {
      RunKeepsInv(tr, es, i - 1);
      assert Enabled(tr[i - 1], es[i - 1]);
      StepKeepsInv(tr[i - 1], es[i - 1]);
    }
  }

  // ---------- What every run guarantees ----------

  /**
   In every interleaving the byte counter is the exact total of the committed entries and
   within MaxBytes, entries and reservations together stay within MaxEntries, and every
   reservation belongs to the one goroutine that leads the live flight of its key.
   */
  lemma ScopeIsAccounted(tr: seq<State>, es: seq<Event>, i: nat)
    requires Run(tr, es) && i < |tr|
    ensures var m := tr[i].w.st.memo;
      && m.bytes == Total(m.entries, tr[i].w.st.heap) <= m.limits.maxBytes
      && |m.entries| <= m.limits.maxEntries
      && forall k :: k in m.entries && m.entries[k].None? ==>
           && k in tr[i].w.reg.calls && tr[i].w.reg.calls[k] < |tr[i].w.reg.flights|
           && tr[i].w.reg.flights[tr[i].w.reg.calls[k]].reply.None?
           && exists t :: At(tr[i], t) && IsReserver(tr[i].threads[t]) && tr[i].threads[t].key == k
                          && tr[i].threads[t].call == tr[i].w.reg.calls[k]
  {
    RunKeepsInv(tr, es, i);
    var s := tr[i];
    forall k | k in s.w.st.memo.entries && s.w.st.memo.entries[k].None?
      ensures k in s.w.reg.calls && s.w.reg.calls[k] < |s.w.reg.flights|
      ensures s.w.reg.flights[s.w.reg.calls[k]].reply.None?
      ensures exists t :: At(s, t) && IsReserver(s.threads[t]) && s.threads[t].key == k
                          && s.threads[t].call == s.w.reg.calls[k]
    {
      assert ReservedByLeader(s, k);
      var t := s.w.leaderOf[s.w.reg.calls[k]];
      assert ThreadSound(s.w, s.threads[t], t);
      assert G.FlightSound(s.w.reg, s.w.reg.calls[k]);
    }
  }

  lemma {:induction false} ClearedStays(tr: seq<State>, es: seq<Event>, i: nat, j: nat)
    requires Run(tr, es) && i <= j < |tr| && tr[i].w.st.cleared
    ensures tr[j].w.st.cleared
  {
    if i < j {
      ClearedStays(tr, es, i, j - 1);
      assert tr[j] == Apply(tr[j - 1], es[j - 1]);
    }
  }

  /** Once a Close has cleared the scope, no step ever leaves a committed entry or a retained byte again. */
  lemma ClosedScopeRetainsNothing(tr: seq<State>, es: seq<Event>, i: nat, j: nat)
    requires Run(tr, es) && i < j < |tr| && es[i].ClearScope?
    ensures var m := tr[j].w.st.memo;
      && (forall k :: k in m.entries ==> m.entries[k].None?)
      && m.bytes == 0
  {
    assert tr[i + 1] == Apply(tr[i], es[i]);
    ClearedStays(tr, es, i + 1, j);
    RunKeepsInv(tr, es, j);
    ReservationsAreFree(tr[j].w.st.memo.entries, tr[j].w.st.heap);
  }

  lemma {:induction false} ReservationsAreFree(entries: map<string, Option<Buf>>, heap: map<Buf, Bytes>)
    requires forall k :: k in entries ==> entries[k].None?
    ensures Total(entries, heap) == 0
    decreases |entries|
  {
    if entries != map[] {
      var k :| k in entries;
      TotalWithout(entries, heap, k);
      ReservationsAreFree(entries - {k}, heap);
    }
  }

  /** The step commits `content` as the value of `key`. */
  predicate Commits(s: State, e: Event, key: string, content: Bytes) {
    && e.CommitEntry? && Enabled(s, e) && s.threads[e.t].key == key
    && content == Content(s.w.st.heap, s.threads[e.t].data)
    && Commit(s.w.st.memo, key, e.owned, |content|).1.None?
  }

  lemma SpecKeptByStep(tr: seq<State>, es: seq<Event>, i: nat, key: string)
    requires Run(tr, es) && i < |es| && key in tr[i].w.st.spec
    ensures key in tr[i + 1].w.st.spec && tr[i + 1].w.st.spec[key] == tr[i].w.st.spec[key]
  {
    RunKeepsInv(tr, es, i);
    SpecNeverChanges(tr[i], es[i], key);
  }

  lemma {:induction false} CommittedBytesAreFinal(tr: seq<State>, es: seq<Event>, i: nat, j: nat, key: string)
    requires Run(tr, es) && i <= j < |tr| && key in tr[i].w.st.spec
    ensures key in tr[j].w.st.spec && tr[j].w.st.spec[key] == tr[i].w.st.spec[key]
  {
    if i < j {
      CommittedBytesAreFinal(tr, es, i, j - 1, key);
      SpecKeptByStep(tr, es, j - 1, key);
    }
  }

  lemma OnlyCommitsWrite(s: State, e: Event)
    requires Enabled(s, e)
    ensures !e.CommitEntry? ==> Apply(s, e).w.st.spec == s.w.st.spec
  {
  }

  lemma SpecNeverChanges(s: State, e: Event, key: string)
    requires Inv(s) && Enabled(s, e) && key in s.w.st.spec
    ensures key in Apply(s, e).w.st.spec && Apply(s, e).w.st.spec[key] == s.w.st.spec[key]
  {
    if e.CommitEntry? { CommitKeepsWorld(s, e.t, e.owned); } else { OnlyCommitsWrite(s, e); }
  }

  /** A commit finds its key unwritten, and its bytes stay for the rest of the run. */
  lemma CommitIsFirst(tr: seq<State>, es: seq<Event>, i: nat, key: string, a: Bytes)
    requires Run(tr, es) && i < |es| && Commits(tr[i], es[i], key, a)
    ensures key !in tr[i].w.st.spec
    ensures forall k :: i < k < |tr| ==> key in tr[k].w.st.spec && tr[k].w.st.spec[key] == a
  {
    RunKeepsInv(tr, es, i);
    assert ThreadSound(tr[i].w, tr[i].threads[es[i].t], es[i].t);
    CommitKeepsStore(tr[i].w.st, key, es[i].owned, a);
    assert tr[i + 1] == Apply(tr[i], es[i]);
    forall k | i < k < |tr| ensures key in tr[k].w.st.spec && tr[k].w.st.spec[key] == a {
      CommittedBytesAreFinal(tr, es, i + 1, k, key);
    }
  }

  /** At most one load per key is ever committed. */
  lemma OneCommitPerKey(tr: seq<State>, es: seq<Event>, i: nat, j: nat, key: string, a: Bytes, b: Bytes)
    requires Run(tr, es) && i < |es| && j < |es|
    requires Commits(tr[i], es[i], key, a) && Commits(tr[j], es[j], key, b)
    ensures i == j && a == b
  {
    CommitIsFirst(tr, es, i, key, a);
    CommitIsFirst(tr, es, j, key, b);
  }

  /** What the memo of writes holds was committed by some step. */
  lemma {:induction false} SpecWasCommitted(tr: seq<State>, es: seq<Event>, i: nat, key: string) returns (j: nat)
    requires Run(tr, es) && i < |tr| && key in tr[i].w.st.spec
    ensures j < i && Commits(tr[j], es[j], key, tr[i].w.st.spec[key])
  {
    var s, e := tr[i - 1], es[i - 1];
    assert tr[i] == Apply(s, e);
    if key in s.w.st.spec {
      SpecKeptByStep(tr, es, i - 1, key);
      j := SpecWasCommitted(tr, es, i - 1, key);
    } else {
      j := i - 1;
    }
  }

  /**
   The scope is a write-once map: a Resolve that returns without error hands out exactly the
   bytes of the one committed load of its key, whoever led it, however many followed, and
   whatever callers wrote into the buffers they gave or got.
   */
  lemma ResolveReturnsTheCommittedLoad(tr: seq<State>, es: seq<Event>, i: nat, t: nat)
    requires Run(tr, es) && i < |tr| && At(tr[i], t)
    requires tr[i].threads[t].Returned? && !Failing(tr[i].threads[t].res)
    ensures exists j: nat :: j < i && Commits(tr[j], es[j], tr[i].threads[t].key, tr[i].threads[t].bytes)
  {
    RunKeepsInv(tr, es, i);
    assert ThreadSound(tr[i].w, tr[i].threads[t], t);
    var j := SpecWasCommitted(tr, es, i, tr[i].threads[t].key);
  }

  /** Every flight ends with its leader, panics included: when all calls have returned, no flight is live. */
  lemma NoFlightOutlivesItsLeader(tr: seq<State>, es: seq<Event>, i: nat)
    requires Run(tr, es) && i < |tr|
    requires forall t :: At(tr[i], t) ==> tr[i].threads[t].Returned?
    ensures tr[i].w.reg.calls == map[]
    ensures forall k :: k in tr[i].w.st.memo.entries ==> tr[i].w.st.memo.entries[k].Some?
  {
    RunKeepsInv(tr, es, i);
    forall k ensures k !in tr[i].w.reg.calls { assert !Led(tr[i], k); }
    forall k | k in tr[i].w.st.memo.entries ensures tr[i].w.st.memo.entries[k].Some? {
      assert !ReservedByLeader(tr[i], k);
    }
  }
}
