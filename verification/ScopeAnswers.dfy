/**
 What each Resolve returns and why, in every interleaving: a call fails exactly when one of its
 own steps met a reason, a leader publishes its own result, and a follower returns the reply of
 the flight it followed.
 */
module ScopeAnswers {
  import opened Prelude
  import G = Group
  import opened Scope
  import opened ScopeRuns

  /** The result a goroutine carries, once it has one. */
  function Verdict(th: Thread): Option<Res> {
    match th
    case Leaving(_, _, res) => Some(res)
    case Undoing(_, _, res) => Some(res)
    case Finishing(_, _, reply) => Some(Plain(reply))
    case Deferred(_, _, res) => Some(res)
    case Cloning(_, res) => Some(res)
    case Returned(_, res, _) => Some(res)
    case _ => None
  }

  function VerdictOf(s: State, t: nat): Option<Res> {
    if At(s, t) then Verdict(s.threads[t]) else None
  }

  /** The event is a step of goroutine t. */
  predicate Own(e: Event, t: nat) {
    !(e.NewBuffer? || e.Overwrite? || e.CancelScope? || e.ClearScope?) && e.t == t
  }

  function FailsWith(e: G.Error): Res {
    Plain(G.Reply(None, Some(e)))
  }

  /** The reasons of the registry: a key that is empty or too long, too many followers, too many keys. */
  predicate Refuses(reg: G.Registry<Option<Buf>>, key: string, e: G.Error) {
    var fits := 0 < |key| <= reg.limits.maxKeyBytes;
    || (e == G.BadKey && !fits)
    || (e == G.Capacity && fits && key in reg.calls
        && reg.calls[key] < |reg.flights| && reg.flights[reg.calls[key]].followers >= reg.limits.maxFollowers)
    || (e == G.Capacity && fits && key !in reg.calls && |reg.calls| >= reg.limits.maxKeys)
  }

  /** The reasons after a load: its own error, a cancelled context, a value over its limit. */
  predicate LoadFails(st: Store, data: Option<Buf>, err: Option<G.Error>, ctxDone: bool, e: G.Error) {
    if err.Some? then e == err.value
    else if ctxDone then e == G.Cancelled
    else e == G.Capacity && |Content(st.heap, data)| > st.memo.limits.maxValueBytes
  }

  /** The reasons at the commit: a cancelled scope, or no room for the bytes. */
  predicate CommitFails(st: Store, data: Option<Buf>, e: G.Error) {
    if st.memo.cancelled then e == G.Cancelled
    else e == G.Capacity && |Content(st.heap, data)| > st.memo.limits.maxBytes - st.memo.bytes
  }

  predicate Committed(m: Memo<Buf>, key: string) {
    key in m.entries && m.entries[key].Some?
  }

  /** Goroutine t's step gives it a failing result, for a reason that can be seen before the step. */
  predicate Reason(s: State, e: Event, t: nat, r: Res)
    requires Enabled(s, e) && Own(e, t)
  {
    match e
    case CheckScope(_) => s.w.st.memo.cancelled && r == FailsWith(G.Cancelled)
    case EnterCancelled(_) => r == FailsWith(G.Cancelled)
    case WaitCancelled(_) => r == FailsWith(G.Cancelled)
    case BeginFlight(_) =>
      r.Plain? && r.reply.err.Some? && r == FailsWith(r.reply.err.value)
      && Refuses(s.w.reg, s.threads[t].key, r.reply.err.value)
    case WaitDone(_) =>
      var reply := s.w.reg.flights[s.threads[t].call].reply.value; reply.err.Some? && r == Plain(reply)
    case LookUp(_) =>
      && r == FailsWith(G.Capacity) && !Committed(s.w.st.memo, s.threads[t].key)
      && |s.w.st.memo.entries| >= s.w.st.memo.limits.maxEntries
    case LoadReturns(_, data, err, ctxDone) =>
      r.Plain? && r.reply.err.Some? && r == FailsWith(r.reply.err.value)
      && LoadFails(s.w.st, data, err, ctxDone, r.reply.err.value)
    case LoadPanics(_) => r == Panicked
    case CommitEntry(_, _) =>
      r.Plain? && r.reply.err.Some? && r == FailsWith(r.reply.err.value)
      && CommitFails(s.w.st, s.threads[t].data, r.reply.err.value)
    case _ => false
  }

  // ---------- One step ----------

  /** A step of somebody else leaves the goroutine alone. */
  lemma OthersLeaveItAlone(s: State, e: Event, t: nat)
    requires Enabled(s, e) && !Own(e, t)
    ensures At(Apply(s, e), t) == At(s, t) && (At(s, t) ==> Apply(s, e).threads[t] == s.threads[t])
  {
  }

  lemma BeginFailsIff(s: State, t: nat, r: Res)
    requires Enabled(s, BeginFlight(t)) && Failing(r)
    ensures Verdict(AfterBegin(s, t).threads[t]) == Some(r) <==> Reason(s, BeginFlight(t), t, r)
  {
  }

  lemma LookUpFailsIff(s: State, t: nat, r: Res)
    requires Enabled(s, LookUp(t)) && Failing(r)
    ensures Verdict(AfterLookUp(s, t).threads[t]) == Some(r) <==> Reason(s, LookUp(t), t, r)
  {
  }

  lemma LoadFailsIff(s: State, t: nat, data: Option<Buf>, err: Option<G.Error>, ctxDone: bool, r: Res)
    requires Enabled(s, LoadReturns(t, data, err, ctxDone)) && Failing(r)
    ensures Verdict(AfterLoad(s, t, data, err, ctxDone).threads[t]) == Some(r) <==>
            Reason(s, LoadReturns(t, data, err, ctxDone), t, r)
  {
  }

  lemma CommitFailsIff(s: State, t: nat, owned: Buf, r: Res)
    requires Enabled(s, CommitEntry(t, owned)) && Failing(r)
    ensures Verdict(AfterCommit(s, t, owned).threads[t]) == Some(r) <==> Reason(s, CommitEntry(t, owned), t, r)
  {
  }

  predicate IsGuarded(e: Event) {
    e.BeginFlight? || e.LookUp? || e.LoadReturns? || e.CommitEntry?
  }

  lemma PrivateStepFailsIff(s: State, e: Event, t: nat, r: Res)
    requires Enabled(s, e) && Own(e, t) && VerdictOf(s, t).None? && Failing(r) && !IsGuarded(e)
    ensures VerdictOf(Apply(s, e), t) == Some(r) <==> Reason(s, e, t, r)
  {
  }

  /** A goroutine without a result gets a failing one from exactly those steps that meet a reason. */
  lemma FirstFailureIff(s: State, e: Event, t: nat, r: Res)
    requires Enabled(s, e) && Own(e, t) && VerdictOf(s, t).None? && Failing(r)
    ensures VerdictOf(Apply(s, e), t) == Some(r) <==> Reason(s, e, t, r)
  {
    match e
    case BeginFlight(_) => BeginFailsIff(s, t, r);
    case LookUp(_) => LookUpFailsIff(s, t, r);
    case LoadReturns(_, data, err, ctxDone) => LoadFailsIff(s, t, data, err, ctxDone, r);
    case CommitEntry(_, owned) => CommitFailsIff(s, t, owned, r);
    case _ => PrivateStepFailsIff(s, e, t, r);
  }

  /** The same failure, or both successes. */
  predicate SameAnswer(r: Res, r': Res) {
    (Failing(r') <==> Failing(r)) && (Failing(r) ==> r' == r)
  }

  predicate Carries(s: State, s': State, t: nat) {
    && VerdictOf(s, t).Some? && VerdictOf(s', t).Some?
    && SameAnswer(VerdictOf(s, t).value, VerdictOf(s', t).value)
  }

  /** A goroutine on its way out of the registry keeps its result. */
  lemma ExitKeepsResult(s: State, e: Event, t: nat)
    requires Enabled(s, e) && Own(e, t) && VerdictOf(s, t).Some? && !e.Clone?
    ensures Carries(s, Apply(s, e), t)
  {
  }

  lemma CloneKeepsResult(s: State, t: nat, out: Buf)
    requires Enabled(s, Clone(t, out)) && StageSound(s.w, s.threads[t])
    ensures Carries(s, AfterClone(s, t, out), t)
  {
  }

  /** A result, once there, is carried unchanged; only a success exchanges its buffer for a copy at the end. */
  lemma ResultIsCarried(s: State, e: Event, t: nat)
    requires Enabled(s, e) && VerdictOf(s, t).Some? && StageSound(s.w, s.threads[t])
    ensures Carries(s, Apply(s, e), t)
  {
    if !Own(e, t) {
      OthersLeaveItAlone(s, e, t);
    } else if e.Clone? {
      CloneKeepsResult(s, t, e.out);
    } else {
      ExitKeepsResult(s, e, t);
    }
  }

  // ---------- Runs ----------

  ghost predicate FailedAt(tr: seq<State>, es: seq<Event>, j: nat, t: nat, r: Res)
    requires Run(tr, es) && j < |es|
  {
    Own(es[j], t) && Enabled(tr[j], es[j]) && VerdictOf(tr[j], t).None? && Reason(tr[j], es[j], t, r)
  }

  lemma {:induction false} FailureHasAReason(tr: seq<State>, es: seq<Event>, i: nat, t: nat) returns (j: nat)
    requires Run(tr, es) && i < |tr| && VerdictOf(tr[i], t).Some? && Failing(VerdictOf(tr[i], t).value)
    ensures j < i && FailedAt(tr, es, j, t, VerdictOf(tr[i], t).value)
  {
    var s, e, r := tr[i - 1], es[i - 1], VerdictOf(tr[i], t).value;
    assert Enabled(s, e) && tr[i] == Apply(s, e);
    if VerdictOf(s, t).Some? {
      StageIsSound(tr, es, i - 1, t);
      ResultIsCarried(s, e, t);
      j := FailureHasAReason(tr, es, i - 1, t);
    } else {
      if !Own(e, t) { OthersLeaveItAlone(s, e, t); }
      FirstFailureIff(s, e, t, r);
      j := i - 1;
    }
  }

  lemma StageIsSound(tr: seq<State>, es: seq<Event>, i: nat, t: nat)
    requires Run(tr, es) && i < |tr| && At(tr[i], t)
    ensures StageSound(tr[i].w, tr[i].threads[t])
  {
    RunKeepsInv(tr, es, i);
    assert ThreadSound(tr[i].w, tr[i].threads[t], t);
  }

  lemma {:induction false} ResultStays(tr: seq<State>, es: seq<Event>, i: nat, j: nat, t: nat)
    requires Run(tr, es) && i <= j < |tr| && VerdictOf(tr[i], t).Some?
    ensures Carries(tr[i], tr[j], t)
  {
    if i < j {
      ResultStays(tr, es, i, j - 1, t);
      StageIsSound(tr, es, j - 1, t);
      assert Enabled(tr[j - 1], es[j - 1]) && tr[j] == Apply(tr[j - 1], es[j - 1]);
      ResultIsCarried(tr[j - 1], es[j - 1], t);
    }
  }

  /**
   Why a Resolve fails. A call that has returned failed with r, an error or its loader's panic,
   if and only if one of its own steps met the reason for r: a cancelled scope or context, a bad
   key or a limit of the registry, a full memo, its load's own error or panic, a value or total
   over its limit, or the error of the flight it followed.
   */
  lemma ResolveFailsIff(tr: seq<State>, es: seq<Event>, i: nat, t: nat, r: Res)
    requires Run(tr, es) && i < |tr| && At(tr[i], t) && tr[i].threads[t].Returned? && Failing(r)
    ensures tr[i].threads[t].res == r <==> exists j :: 0 <= j < i && FailedAt(tr, es, j, t, r)
  {
    if tr[i].threads[t].res == r {
      var j := FailureHasAReason(tr, es, i, t);
      assert FailedAt(tr, es, j, t, r);
    }
    forall j | 0 <= j < i && FailedAt(tr, es, j, t, r) ensures tr[i].threads[t].res == r {
      FirstFailureIff(tr[j], es[j], t, r);
      assert tr[j + 1] == Apply(tr[j], es[j]);
      ResultStays(tr, es, j + 1, i, t);
    }
  }

  /** A leader's flight ends with the leader's own result, or with the abort error exactly if its load panicked. */
  lemma LeaderPublishesItsResult(tr: seq<State>, es: seq<Event>, i: nat, t: nat)
    requires Run(tr, es) && i < |es| && es[i] == DeferredFinish(t)
    ensures Enabled(tr[i], es[i])
    ensures var th := tr[i].threads[t];
      && th.call < |tr[i + 1].w.reg.flights|
      && tr[i + 1].w.reg.flights[th.call].reply ==
           Some(if th.res.Panicked? then G.Reply(None, Some(G.Aborted)) else th.res.reply)
      && tr[i + 1].threads[t] == Cloning(th.key, th.res)
  {
    RunKeepsInv(tr, es, i);
    var s, th := tr[i], tr[i].threads[t];
    assert tr[i + 1] == Apply(s, es[i]) && ThreadSound(s.w, th, t);
    if th.res.Plain? {
      DeferredIsIdle(s.w, th);
    } else {
      G.FinishSound(s.w.reg, th.key, Some(th.call), G.Reply(None, Some(G.Aborted)));
    }
  }

  /**
   A follower that waited to the end returns the very reply of its flight: its error, or, if it
   has none, exactly the bytes that some step committed for the key.
   */
  lemma FollowerReturnsItsFlightsReply(tr: seq<State>, es: seq<Event>, j: nat, i: nat, t: nat)
    requires Run(tr, es) && j < i < |tr| && es[j] == WaitDone(t)
    requires At(tr[i], t) && tr[i].threads[t].Returned?
    ensures Enabled(tr[j], es[j])
    ensures var reply, th := tr[j].w.reg.flights[tr[j].threads[t].call].reply.value, tr[i].threads[t];
      if reply.err.Some? then th.res == Plain(reply)
      else !Failing(th.res) && exists k: nat :: k < i && Commits(tr[k], es[k], th.key, th.bytes)
  {
    assert tr[j + 1] == Apply(tr[j], es[j]);
    ResultStays(tr, es, j + 1, i, t);
    if !Failing(tr[i].threads[t].res) { ResolveReturnsTheCommittedLoad(tr, es, i, t); }
  }

  /** A leader that commits returns the bytes of its own load. */
  lemma CommitterReturnsItsOwnBytes(tr: seq<State>, es: seq<Event>, j: nat, i: nat, t: nat, key: string, content: Bytes)
    requires Run(tr, es) && j < i < |tr| && es[j].CommitEntry? && es[j].t == t && Commits(tr[j], es[j], key, content)
    requires At(tr[i], t) && tr[i].threads[t].Returned? && tr[i].threads[t].key == key
    ensures !Failing(tr[i].threads[t].res) && tr[i].threads[t].bytes == content
  {
    assert tr[j + 1] == Apply(tr[j], es[j]);
    ResultStays(tr, es, j + 1, i, t);
    ResolveReturnsTheCommittedLoad(tr, es, i, t);
    var k: nat :| k < i && Commits(tr[k], es[k], key, tr[i].threads[t].bytes);
    OneCommitPerKey(tr, es, j, k, key, content, tr[i].threads[t].bytes);
  }
}
