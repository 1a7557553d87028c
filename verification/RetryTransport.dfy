/**
 The retrying round tripper: which requests and replies are retried, the refilling retry
 budget, one round trip as a loop, and all interleavings of any number of them sharing one
 budget. Times are nanoseconds of a clock that never goes back.
 */
module RetryTransport {
  import opened Prelude

  const MAX_RETRIES := 2
  const BUDGET_CAP := 20
  const REFILL := 1_000_000_000

  // ---------- Requests and replies ----------

  datatype Method = GET | HEAD | OPTIONS | TRACE | POST | PUT | PATCH | DELETE | OtherMethod(name: string)

  /** The body is a reader over fixed bytes; GetBody, where there is one, opens a new reader over them. */
  datatype Request = Request(verb: Method, idempotencyKey: string, body: Option<Bytes>, hasGetBody: bool)

  function Content(req: Request): Bytes {
    if req.body.Some? then req.body.value else []
  }

  predicate IsRetryableRequest(req: Request) {
    match req.verb
    case GET => true
    case HEAD => true
    case OPTIONS => true
    case TRACE => true
    case OtherMethod(_) => false
    case _ => req.idempotencyKey != "" && (req.body.None? || req.hasGetBody)
  }

  /** A write is repeated only under an idempotency key and with a body that can be sent again; unknown methods never. */
  predicate MayRepeat(req: Request) {
    || req.verb in {GET, HEAD, OPTIONS, TRACE}
    || (req.verb in {POST, PUT, PATCH, DELETE} && |req.idempotencyKey| > 0 && (req.hasGetBody || req.body == None))
  }

  /** `transient` says that the error is a timeout or reads like a broken connection. */
  datatype Reply = NoReply | Status(code: int) | NetError(transient: bool)

  predicate ShouldRetry(r: Reply) {
    match r
    case NetError(transient) => transient
    case NoReply => false
    case Status(code) => code == 502 || code == 503 || code == 504
  }

  /** What attempt n can read: a new reader if there is a GetBody to ask, else what is left of the shared one. */
  function Offered(req: Request, reader: Bytes, n: nat): Bytes {
    if n > 0 && req.hasGetBody then Content(req) else reader
  }

  /** What is left of the shared reader once attempt n has read that many bytes of its body. */
  function Left(req: Request, reader: Bytes, n: nat, read: nat): Bytes {
    if n > 0 && req.hasGetBody then reader else reader[Min(read, |reader|)..]
  }

  // ---------- The budget ----------

  datatype Budget = Budget(tokens: int, last: int)

  /** retryBudget.take: whole seconds refill, the fraction is dropped, then one token is spent if there is one. */
  function Taken(b: Budget, now: int): (Budget, bool) {
    var elapsed := now - b.last;
    var b1 := if elapsed >= REFILL then Budget(Min(BUDGET_CAP, b.tokens + elapsed / REFILL), now) else b;
    if b1.tokens <= 0 then (b1, false) else (b1.(tokens := b1.tokens - 1), true)
  }

  predicate InRange(b: Budget) {
    0 <= b.tokens <= BUDGET_CAP
  }

  /** Tokens spent since t0, plus those left, never exceed the initial ones and one per whole second. */
  predicate Funded(b: Budget, t0: int, spent: int) {
    InRange(b) && t0 <= b.last && spent + b.tokens <= BUDGET_CAP + (b.last - t0) / REFILL
  }

  lemma WholeSecondsAdd(a: int, b: int)
    ensures a / REFILL + b / REFILL <= (a + b) / REFILL
  {
  }

  /** take keeps the budget funded, and grants exactly what it spends. */
  lemma TakeStaysFunded(b: Budget, t0: int, spent: int, now: int)
    requires Funded(b, t0, spent) && b.last <= now
    ensures var (b', ok) := Taken(b, now);
      Funded(b', t0, spent + if ok then 1 else 0) && b'.last <= now && b.last <= b'.last
  {
    WholeSecondsAdd(b.last - t0, now - b.last);
  }

  /** A token is granted exactly when one is left or a whole second has passed for it, and one is then spent. */
  lemma TakeIsExact(b: Budget, now: int)
    requires InRange(b) && b.last <= now
    ensures var (b', ok) := Taken(b, now);
      var available := Min(BUDGET_CAP, b.tokens + (now - b.last) / REFILL);
      && (ok <==> b.tokens > 0 || now - b.last >= REFILL)
      && b'.tokens == available - (if ok then 1 else 0)
      && 0 <= now - b'.last && (b'.last != b.last ==> b'.last == now)
  {
    var seconds := (now - b.last) / REFILL;
    assert now - b.last >= REFILL <==> seconds >= 1;
  }

  // ---------- One round trip ----------

  /** What the surroundings do, by attempt: replies, bytes read, body producers, interrupted sleeps, clock readings. */
  datatype Env = Env(reply: nat -> Reply, read: nat -> nat, bodyOk: nat -> bool, sleepOk: nat -> bool, clock: nat -> int)

  datatype Result = Answer(reply: Reply) | BodyFailed | Cancelled

  /** The round trip from attempt k on: the budget after it, the body each send was given, and the result. */
  function Trip(b: Budget, req: Request, reader: Bytes, env: Env, k: nat): (Budget, seq<Bytes>, Result)
    requires k <= MAX_RETRIES
    decreases MAX_RETRIES - k
  {
    if k > 0 && req.hasGetBody && !env.bodyOk(k) then (b, [], BodyFailed)
    else
      var body, reply := Offered(req, reader, k), env.reply(k);
      if !ShouldRetry(reply) || k == MAX_RETRIES then (b, [body], Answer(reply))
      else
        var (b1, granted) := Taken(b, env.clock(k));
        if !granted then (b1, [body], Answer(reply))
        else if !env.sleepOk(k) then (b1, [body], Cancelled)
        else
          var (b2, bodies, result) := Trip(b1, req, Left(req, reader, k, env.read(k)), env, k + 1);
          (b2, [body] + bodies, result)
  }

  /**
   From attempt k on there are at most MAX_RETRIES + 1 - k sends. The answer is that of the last
   one, and one worth retrying is returned only when attempts or tokens have run out.
   */
  lemma {:induction false} TripSends(b: Budget, req: Request, reader: Bytes, env: Env, k: nat)
    requires k <= MAX_RETRIES
    ensures var (b', bodies, result) := Trip(b, req, reader, env, k);
      var sends := |bodies|;
      && sends <= MAX_RETRIES + 1 - k && (k == 0 ==> sends >= 1)
      && (result.Answer? ==> sends >= 1 && result.reply == env.reply(k + sends - 1))
      && (result.Answer? && ShouldRetry(result.reply) ==> k + sends == MAX_RETRIES + 1 || b'.tokens <= 0)
      && (forall n :: k <= n < k + sends - 1 ==> ShouldRetry(env.reply(n)))
    decreases MAX_RETRIES - k
  {
    if k < MAX_RETRIES {
      TripSends(Taken(b, env.clock(k)).0, req, Left(req, reader, k, env.read(k)), env, k + 1);
    }
  }

  /** A trip that had already made some sends. */
  function After(done: seq<Bytes>, trip: (Budget, seq<Bytes>, Result)): (Budget, seq<Bytes>, Result) {
    (trip.0, done + trip.1, trip.2)
  }

  lemma AfterNone(done: seq<Bytes>, trip: (Budget, seq<Bytes>, Result))
    ensures After([], trip) == trip
    ensures trip.1 == [] ==> After(done, trip) == (trip.0, done, trip.2)
  {
    assert [] + trip.1 == trip.1 && done + [] == done;
  }

  lemma AfterOne(done: seq<Bytes>, body: Bytes, b: Budget, rest: seq<Bytes>, r: Result)
    ensures After(done, (b, [body] + rest, r)) == After(done + [body], (b, rest, r))
  {
    assert done + ([body] + rest) == done + [body] + rest;
  }

  /** One turn of the loop, after the sends already made. */
  lemma TripStep(done: seq<Bytes>, b: Budget, req: Request, reader: Bytes, env: Env, k: nat)
    requires k <= MAX_RETRIES
    ensures var trip, reply := After(done, Trip(b, req, reader, env, k)), env.reply(k);
      var sent, (b1, granted) := done + [Offered(req, reader, k)], Taken(b, env.clock(k));
      trip ==
        if k > 0 && req.hasGetBody && !env.bodyOk(k) then (b, done, BodyFailed)
        else if !ShouldRetry(reply) || k == MAX_RETRIES then (b, sent, Answer(reply))
        else if !granted then (b1, sent, Answer(reply))
        else if !env.sleepOk(k) then (b1, sent, Cancelled)
        else After(sent, Trip(b1, req, Left(req, reader, k, env.read(k)), env, k + 1))
  {
    var trip := Trip(b, req, reader, env, k);
    AfterNone(done, trip);
    if trip.1 != [] {
      assert trip.1 == [trip.1[0]] + trip.1[1..];
      AfterOne(done, trip.1[0], trip.0, trip.1[1..], trip.2);
    }
  }

  class Transport {
    var tokens: int
    var last: int

    constructor (now: int)
      ensures View() == Budget(BUDGET_CAP, now) && Funded(View(), now, 0)
    {
      tokens, last := BUDGET_CAP, now;
    }

    function View(): Budget
      reads this
    {
      Budget(tokens, last)
    }

    method Take(now: int) returns (granted: bool)
      modifies this
      ensures (View(), granted) == Taken(old(View()), now)
    {
      var elapsed := now - last;
      if elapsed >= REFILL {
        var refill := elapsed / REFILL;
        tokens := if tokens + refill < BUDGET_CAP then tokens + refill else BUDGET_CAP;
        last := now;
      }
      if tokens <= 0 { return false; }
      tokens := tokens - 1;
      return true;
    }

    /** One turn of the loop: send, and either stop with a result or be granted another attempt. */
    method Attempt(req: Request, env: Env, attempt: nat, reader: Bytes, done: seq<Bytes>)
      returns (stop: Option<Result>, left: Bytes, bodies: seq<Bytes>)
      requires attempt <= MAX_RETRIES
      modifies this
      ensures stop.None? ==> attempt < MAX_RETRIES && |bodies| == |done| + 1
      ensures After(done, Trip(old(View()), req, reader, env, attempt)) ==
        if stop.Some? then (View(), bodies, stop.value)
        else After(bodies, Trip(View(), req, left, env, attempt + 1))
    {
      TripStep(done, View(), req, reader, env, attempt);
      left, bodies := reader, done;
      if attempt > 0 && req.hasGetBody && !env.bodyOk(attempt) { return Some(BodyFailed), left, bodies; }
      var reply := env.reply(attempt);
      bodies, left := done + [Offered(req, reader, attempt)], Left(req, reader, attempt, env.read(attempt));
      if !ShouldRetry(reply) { return Some(Answer(reply)), left, bodies; }
      if attempt == MAX_RETRIES { return Some(Answer(reply)), left, bodies; }
      var granted := Take(env.clock(attempt));
      if !granted { return Some(Answer(reply)), left, bodies; }
      if !env.sleepOk(attempt) { return Some(Cancelled), left, bodies; }
      return None, left, bodies;
    }

    /** A request that is not retryable is sent exactly once and costs nothing; others follow Trip. */
    method RoundTrip(req: Request, env: Env) returns (result: Result, bodies: seq<Bytes>)
      modifies this
      ensures !IsRetryableRequest(req) ==>
        bodies == [Content(req)] && result == Answer(env.reply(0)) && View() == old(View())
      ensures IsRetryableRequest(req) ==> (View(), bodies, result) == Trip(old(View()), req, Content(req), env, 0)
      ensures 1 <= |bodies| <= MAX_RETRIES + 1
      ensures !MayRepeat(req) ==> |bodies| == 1
    {
      if !IsRetryableRequest(req) { return Answer(env.reply(0)), [Content(req)]; }
      ghost var whole := Trip(View(), req, Content(req), env, 0);
      TripSends(View(), req, Content(req), env, 0);
      AfterNone([], whole);
      bodies := [];
      var reader := Content(req);
      var attempt := 0;
      while true
        invariant 0 <= attempt == |bodies| <= MAX_RETRIES
        invariant whole == After(bodies, Trip(View(), req, reader, env, attempt))
        decreases MAX_RETRIES - attempt
      {
        var stop;
        stop, reader, bodies := Attempt(req, env, attempt, reader, bodies);
        if stop.Some? { return stop.value, bodies; }
        attempt := attempt + 1;
      }
    }
  }

  // ---------- All interleavings of concurrent round trips ----------

  /** Sending attempt n, deciding about its reply, or waiting before the next attempt. */
  datatype Phase = ToSend(n: nat) | Deciding(n: nat) | Sleeping(n: nat) | Done

  /** `reader` is what is left of the request's own body, `bodies` what each send so far was given to read. */
  datatype Call = Call(req: Request, phase: Phase, reader: Bytes, bodies: seq<Bytes>)

  /** `sends` and `granted` count base sends and granted retries over the whole run. */
  datatype State = State(t0: int, now: int, budget: Budget, calls: map<nat, Call>, sends: nat, granted: nat)

  datatype Step =
    | Start(c: nat, req: Request)
    | CloneFails(c: nat)
    | Send(c: nat, reply: Reply, read: nat)
    | TakeToken(c: nat, now: int)
    | Wake(c: nat, ok: bool)

  ghost predicate Init(s: State) {
    s == State(s.t0, s.t0, Budget(BUDGET_CAP, s.t0), map[], 0, 0)
  }

  predicate Enabled(s: State, e: Step) {
    match e
    case Start(c, _) => c !in s.calls
    case CloneFails(c) => c in s.calls && s.calls[c].phase.ToSend? && s.calls[c].phase.n > 0 && s.calls[c].req.hasGetBody
    case Send(c, _, _) => c in s.calls && s.calls[c].phase.ToSend?
    case TakeToken(c, now) => c in s.calls && s.calls[c].phase.Deciding? && s.now <= now
    case Wake(c, _) => c in s.calls && s.calls[c].phase.Sleeping?
  }

  function Move(s: State, c: nat, p: Phase): State
    requires c in s.calls
  {
    s.(calls := s.calls[c := s.calls[c].(phase := p)])
  }

  function Sent(call: Call, reply: Reply, read: nat): Call
    requires call.phase.ToSend?
  {
    var n := call.phase.n;
    var next := if IsRetryableRequest(call.req) && ShouldRetry(reply) && n < MAX_RETRIES then Deciding(n) else Done;
    Call(call.req, next, Left(call.req, call.reader, n, read), call.bodies + [Offered(call.req, call.reader, n)])
  }

  function AfterSend(s: State, c: nat, reply: Reply, read: nat): State
    requires c in s.calls && s.calls[c].phase.ToSend?
  {
    s.(calls := s.calls[c := Sent(s.calls[c], reply, read)], sends := s.sends + 1)
  }

  function Apply(s: State, e: Step): State
    requires Enabled(s, e)
  {
    match e
    case Start(c, req) => s.(calls := s.calls[c := Call(req, ToSend(0), Content(req), [])])
    case CloneFails(c) => Move(s, c, Done)
    case Send(c, reply, read) => AfterSend(s, c, reply, read)
    case TakeToken(c, now) =>
      var (b, ok) := Taken(s.budget, now);
      var s1 := Move(s, c, if ok then Sleeping(s.calls[c].phase.n) else Done);
      s1.(now := now, budget := b, granted := s.granted + if ok then 1 else 0)
    case Wake(c, ok) => Move(s, c, if ok then ToSend(s.calls[c].phase.n + 1) else Done)
  }

  ghost predicate Run(tr: seq<State>, es: seq<Step>) {
    && |tr| == |es| + 1
    && Init(tr[0])
    && forall i {:trigger es[i]} :: 0 <= i < |es| ==> Enabled(tr[i], es[i]) && tr[i + 1] == Apply(tr[i], es[i])
  }

  /** The call may still make a send that it has been granted. */
  predicate Owed(call: Call) {
    call.phase.ToSend? || call.phase.Sleeping?
  }

  function Entitled(calls: map<nat, Call>): set<nat> {
    set c | c in calls && Owed(calls[c])
  }

  predicate PhaseSound(req: Request, phase: Phase, sends: nat) {
    match phase
    case ToSend(n) => sends == n <= MAX_RETRIES && (n > 0 ==> IsRetryableRequest(req))
    case Deciding(n) => sends == n + 1 <= MAX_RETRIES && IsRetryableRequest(req)
    case Sleeping(n) => sends == n + 1 <= MAX_RETRIES && IsRetryableRequest(req)
    case Done => 1 <= sends <= MAX_RETRIES + 1 && (!IsRetryableRequest(req) ==> sends == 1)
  }

  /** The first send gets the whole body, and every send does if there is nothing to lose or a GetBody. */
  predicate BodiesSound(call: Call) {
    && (call.bodies == [] ==> call.reader == Content(call.req))
    && (call.bodies != [] ==> call.bodies[0] == Content(call.req))
    && (Content(call.req) == [] ==> call.reader == [])
    && (call.req.hasGetBody || Content(call.req) == [] ==> Whole(call))
  }

  predicate Whole(call: Call) {
    forall n :: 0 <= n < |call.bodies| ==> call.bodies[n] == Content(call.req)
  }

  predicate CallSound(call: Call) {
    PhaseSound(call.req, call.phase, |call.bodies|) && BodiesSound(call)
  }

  ghost predicate Inv(s: State) {
    && Funded(s.budget, s.t0, s.granted) && s.budget.last <= s.now
    && (forall c :: c in s.calls ==> CallSound(s.calls[c]))
    && s.sends + |Entitled(s.calls)| <= |s.calls| + s.granted
  }

  /** A key set that gains at most c. */
  lemma SizeWith(a: set<nat>, b: set<nat>, c: nat)
    requires b == a + {c}
    ensures |b| == |a| + if c in a then 0 else 1
  {
    if c in a { assert a + {c} == a; }
  }

  lemma SizeWithout(a: set<nat>, b: set<nat>, c: nat)
    requires b == a - {c}
    ensures |b| == |a| - if c in a then 1 else 0
  {
    if c !in a { assert a - {c} == a; }
  }

  lemma EntitledWith(calls: map<nat, Call>, c: nat, call: Call)
    ensures Entitled(calls[c := call]) == if Owed(call) then Entitled(calls) + {c} else Entitled(calls) - {c}
  {
  }

  lemma KeysWith(calls: map<nat, Call>, c: nat, call: Call)
    ensures |calls[c := call]| == |calls| + if c in calls then 0 else 1
  {
    var more := calls[c := call];
    assert more.Keys == calls.Keys + {c};
    SizeWith(calls.Keys, more.Keys, c);
  }

  /** How a change of one call moves the count of owed sends. */
  lemma EntitledAfter(calls: map<nat, Call>, c: nat, call: Call)
    ensures |Entitled(calls[c := call])| == |Entitled(calls)|
      - (if c in Entitled(calls) then 1 else 0) + if Owed(call) then 1 else 0
  {
    var was, now := Entitled(calls), Entitled(calls[c := call]);
    EntitledWith(calls, c, call);
    if Owed(call) {
      SizeWith(was, now, c);
    } else {
      SizeWithout(was, now, c);
    }
  }

  lemma AnotherWhole(call: Call, more: Call, body: Bytes)
    requires Whole(call) && more.req == call.req && more.bodies == call.bodies + [body] && body == Content(call.req)
    ensures Whole(more)
  {
  }

  lemma SendKeepsBodies(call: Call, reply: Reply, read: nat)
    requires CallSound(call) && call.phase.ToSend?
    ensures BodiesSound(Sent(call, reply, read))
  {
    var body := Offered(call.req, call.reader, call.phase.n);
    if call.req.hasGetBody || Content(call.req) == [] { AnotherWhole(call, Sent(call, reply, read), body); }
  }

  lemma SendKeepsCall(call: Call, reply: Reply, read: nat)
    requires CallSound(call) && call.phase.ToSend?
    ensures CallSound(Sent(call, reply, read))
  {
    SendKeepsBodies(call, reply, read);
    assert |Sent(call, reply, read).bodies| == |call.bodies| + 1;
  }

  lemma OthersStay(s: State, e: Step)
    requires Enabled(s, e)
    ensures forall c :: c in Apply(s, e).calls && c != e.c ==> c in s.calls && Apply(s, e).calls[c] == s.calls[c]
    ensures e.c in Apply(s, e).calls
  {
  }

  lemma ActorStaysSound(s: State, e: Step)
    requires Enabled(s, e) && e.c in Apply(s, e).calls && (e.c in s.calls ==> CallSound(s.calls[e.c]))
    ensures CallSound(Apply(s, e).calls[e.c])
  {
    if e.Send? {
      SendKeepsCall(s.calls[e.c], e.reply, e.read);
    } else if !e.Start? {
      MoveKeepsBodies(s.calls[e.c], Apply(s, e).calls[e.c].phase);
    }
  }

  lemma MoveKeepsBodies(call: Call, p: Phase)
    ensures BodiesSound(call.(phase := p)) == BodiesSound(call)
  {
  }

  lemma StepKeepsInv(s: State, e: Step)
    requires Inv(s) && Enabled(s, e)
    ensures Inv(Apply(s, e))
  {
    var s' := Apply(s, e);
    OthersStay(s, e);
    ActorStaysSound(s, e);
    StepBalances(s, e);
    if e.TakeToken? { TakeStaysFunded(s.budget, s.t0, s.granted, e.now); }
  }

  /** Sends made and owed stay within calls made and retries granted. */
  lemma StepBalances(s: State, e: Step)
    requires Enabled(s, e) && s.sends + |Entitled(s.calls)| <= |s.calls| + s.granted
    ensures var s' := Apply(s, e); s'.sends + |Entitled(s'.calls)| <= |s'.calls| + s'.granted
  {
    var call := Apply(s, e).calls[e.c];
    assert Apply(s, e).calls == s.calls[e.c := call];
    KeysWith(s.calls, e.c, call);
    EntitledAfter(s.calls, e.c, call);
  }

  lemma {:induction false} RunKeepsInv(tr: seq<State>, es: seq<Step>, i: nat)
    requires Run(tr, es) && i < |tr|
    ensures Inv(tr[i])
  {
    if i > 0 {
      RunKeepsInv(tr, es, i - 1);
      StepKeepsInv(tr[i - 1], es[i - 1]);
    }
  }

  /**
   The load on the upstream, in every interleaving: all sends together are at most one per
   call, plus the initial budget, plus one per whole second since construction. The budget
   stays between zero and its cap.
   */
  lemma LoadIsBounded(tr: seq<State>, es: seq<Step>, i: nat)
    requires Run(tr, es) && i < |tr|
    ensures var s := tr[i];
      s.sends <= |s.calls| + BUDGET_CAP + (s.now - s.t0) / REFILL && InRange(s.budget)
  {
    RunKeepsInv(tr, es, i);
    var s := tr[i];
    WholeSecondsAdd(s.budget.last - s.t0, s.now - s.budget.last);
  }

  /** No call makes more than three sends, and one that is not retryable makes exactly one. */
  lemma CallsAreBounded(tr: seq<State>, es: seq<Step>, i: nat, c: nat)
    requires Run(tr, es) && i < |tr| && c in tr[i].calls
    ensures var call := tr[i].calls[c];
      && |call.bodies| <= MAX_RETRIES + 1
      && (call.phase.Done? ==> |call.bodies| >= 1)
      && (!IsRetryableRequest(call.req) ==> |call.bodies| <= 1 && (call.phase.Done? <==> |call.bodies| == 1))
  {
    RunKeepsInv(tr, es, i);
  }

  // ---------- Which requests are sent again ----------

  /** A bad gateway, an unavailable service, a gateway timeout or a transient network error. */
  predicate WorthRepeating(r: Reply) {
    r in {Status(502), Status(503), Status(504), NetError(true)}
  }

  /** A call whose request may not be repeated makes at most one send, in every run. */
  lemma UnrepeatableIsSentOnce(tr: seq<State>, es: seq<Step>, i: nat, c: nat)
    requires Run(tr, es) && i < |tr| && c in tr[i].calls && !MayRepeat(tr[i].calls[c].req)
    ensures |tr[i].calls[c].bodies| <= 1
  {
    RunKeepsInv(tr, es, i);
    assert CallSound(tr[i].calls[c]);
  }

  /** Any reply that is not worth repeating ends its call. */
  lemma OtherRepliesEndTheCall(tr: seq<State>, es: seq<Step>, i: nat)
    requires Run(tr, es) && i < |es| && es[i].Send? && !WorthRepeating(es[i].reply)
    ensures es[i].c in tr[i + 1].calls && tr[i + 1].calls[es[i].c].phase.Done?
  {
    assert Enabled(tr[i], es[i]) && tr[i + 1] == Apply(tr[i], es[i]);
  }

  /** A run in which a repeatable request is sent again after the given reply. */
  lemma RepeatedRun(req: Request, reply: Reply) returns (tr: seq<State>, es: seq<Step>)
    requires MayRepeat(req) && WorthRepeating(reply)
    ensures Run(tr, es) && |es| == 5 && es[1] == Send(0, reply, 0)
    ensures IsCallFor(tr[5], 0, req) && |tr[5].calls[0].bodies| == 2
  {
    var s0 := State(0, 0, Budget(BUDGET_CAP, 0), map[], 0, 0);
    var e0, e1, e2, e3, e4 :=
      Start(0, req), Send(0, reply, 0), TakeToken(0, 0), Wake(0, true), Send(0, Status(200), 0);
    var s1 := Apply(s0, e0);
    var s2 := Apply(s1, e1);
    assert s2.calls[0].phase == Deciding(0) && |s2.calls[0].bodies| == 1;
    var s3 := Apply(s2, e2);
    var s4 := Apply(s3, e3);
    var s5 := Apply(s4, e4);
    tr, es := [s0, s1, s2, s3, s4, s5], [e0, e1, e2, e3, e4];
  }

  ghost predicate SentTwice(tr: seq<State>, c: nat, req: Request) {
    tr != [] && IsCallFor(tr[|tr| - 1], c, req) && |tr[|tr| - 1].calls[c].bodies| >= 2
  }

  /** Some run sends the request twice if and only if it may be repeated. */
  lemma SentTwiceIff(req: Request)
    ensures (exists tr, es, c :: Run(tr, es) && SentTwice(tr, c, req)) <==> MayRepeat(req)
  {
    if MayRepeat(req) {
      var tr, es := RepeatedRun(req, Status(503));
      assert Run(tr, es) && SentTwice(tr, 0, req);
    }
    forall tr: seq<State>, es, c | Run(tr, es) && SentTwice(tr, c, req) ensures MayRepeat(req) {
      if !MayRepeat(req) { UnrepeatableIsSentOnce(tr, es, |tr| - 1, c); }
    }
  }

  /** A round trip goes on after a reply worth repeating while there are tokens, unless it is interrupted. */
  lemma TripGoesOn(b: Budget, req: Request, env: Env)
    requires WorthRepeating(env.reply(0)) && Taken(b, env.clock(0)).1 && env.sleepOk(0) && (req.hasGetBody ==> env.bodyOk(1))
    ensures |Trip(b, req, Content(req), env, 0).1| >= 2
  {
    var b1, left := Taken(b, env.clock(0)).0, Left(req, Content(req), 0, env.read(0));
    AfterNone([], Trip(b, req, Content(req), env, 0));
    TripStep([], b, req, Content(req), env, 0);
    SecondAttemptSends(b1, req, left, env);
  }

  lemma SecondAttemptSends(b: Budget, req: Request, reader: Bytes, env: Env)
    requires req.hasGetBody ==> env.bodyOk(1)
    ensures |Trip(b, req, reader, env, 1).1| >= 1
  {
  }

  // ---------- Bodies ----------

  /** In every run every send of every call for this request is given the whole body. */
  ghost predicate AlwaysWhole(req: Request) {
    forall tr, es, c | Run(tr, es) :: EndsWhole(tr, c, req)
  }

  ghost predicate EndsWhole(tr: seq<State>, c: nat, req: Request) {
    tr != [] && (IsCallFor(tr[|tr| - 1], c, req) ==> Whole(tr[|tr| - 1].calls[c]))
  }

  predicate IsCallFor(s: State, c: nat, req: Request) {
    c in s.calls && s.calls[c].req == req
  }

  /** A run in which the first attempt reads the body and gets a 503, and the retry succeeds. */
  lemma RetriedRun(req: Request) returns (tr: seq<State>, es: seq<Step>)
    requires IsRetryableRequest(req) && !req.hasGetBody
    ensures Run(tr, es) && IsCallFor(tr[|tr| - 1], 0, req) && tr[|tr| - 1].calls[0].bodies == [Content(req), []]
  {
    var s0 := State(0, 0, Budget(BUDGET_CAP, 0), map[], 0, 0);
    var e0, e1, e2, e3, e4 :=
      Start(0, req), Send(0, Status(503), |Content(req)|), TakeToken(0, 0), Wake(0, true), Send(0, Status(200), 0);
    var s1 := Apply(s0, e0);
    var s2 := Apply(s1, e1);
    assert s2.calls[0] == Call(req, Deciding(0), [], [Content(req)]);
    var s3 := Apply(s2, e2);
    var s4 := Apply(s3, e3);
    var s5 := Apply(s4, e4);
    tr, es := [s0, s1, s2, s3, s4, s5], [e0, e1, e2, e3, e4];
  }

  /**
   Retries carry the body in every run exactly when the request is never retried, can produce
   its body again, or has no bytes to lose. Only the methods that are retried unconditionally
   can fall outside.
   */
  lemma SendsCarryTheBodyIff(req: Request)
    ensures AlwaysWhole(req) <==> !IsRetryableRequest(req) || req.hasGetBody || Content(req) == []
    ensures !AlwaysWhole(req) ==> req.verb in {GET, HEAD, OPTIONS, TRACE}
  {
    if !IsRetryableRequest(req) || req.hasGetBody || Content(req) == [] {
      forall tr: seq<State>, es, c | Run(tr, es) ensures EndsWhole(tr, c, req) {
        RunKeepsInv(tr, es, |tr| - 1);
        assert c in tr[|tr| - 1].calls ==> CallSound(tr[|tr| - 1].calls[c]);
      }
    } else {
      var tr, es := RetriedRun(req);
      assert tr[|tr| - 1].calls[0].bodies[1] == [];
      assert !EndsWhole(tr, 0, req);
    }
  }

  // ---------- The loop is one of the interleavings ----------

  ghost predicate Reaches(s: State, es: seq<Step>, end: State)
    decreases |es|
  {
    if es == [] then s == end else Enabled(s, es[0]) && Reaches(Apply(s, es[0]), es[1..], end)
  }

  lemma ReachesFirst(s: State, e: Step, es: seq<Step>, end: State)
    requires Enabled(s, e) && Reaches(Apply(s, e), es, end)
    ensures Reaches(s, [e] + es, end)
  {
    assert ([e] + es)[1..] == es;
  }

  /** What a state says about one call's trip: the call is over, and budget, sends and bodies are those of Trip. */
  ghost predicate Ends(s: State, c: nat, trip: (Budget, seq<Bytes>, Result), end: State) {
    && c in s.calls && c in end.calls && end.calls[c].phase.Done?
    && end.budget == trip.0 && end.calls[c].bodies == trip.1
    && end.sends - s.sends == |trip.1| - |s.calls[c].bodies|
  }

  /** A round trip that runs alone goes through exactly the steps of the machine. */
  lemma {:induction false} TripIsARun(s: State, c: nat, env: Env, k: nat) returns (es: seq<Step>, end: State)
    requires k <= MAX_RETRIES && c in s.calls && s.calls[c].phase == ToSend(k) && IsRetryableRequest(s.calls[c].req)
    requires s.now <= env.clock(k) && forall n: nat :: env.clock(n) <= env.clock(n + 1)
    ensures var call := s.calls[c];
      Reaches(s, es, end) && Ends(s, c, After(call.bodies, Trip(s.budget, call.req, call.reader, env, k)), end)
    decreases MAX_RETRIES - k
  {
    var req := s.calls[c].req;
    TripStep(s.calls[c].bodies, s.budget, req, s.calls[c].reader, env, k);
    if k > 0 && req.hasGetBody && !env.bodyOk(k) {
      end := Apply(s, CloneFails(c));
      ReachesFirst(s, CloneFails(c), [], end);
      return [CloneFails(c)], end;
    }
    var send := Send(c, env.reply(k), env.read(k));
    var s1 := Apply(s, send);
    if !ShouldRetry(env.reply(k)) || k == MAX_RETRIES {
      ReachesFirst(s, send, [], s1);
      return [send], s1;
    }
    var after: seq<Step>;
    after, end := DecisionIsARun(s1, c, env, k);
    ReachesFirst(s, send, after, end);
    es := [send] + after;
  }

  lemma {:induction false} DecisionIsARun(s: State, c: nat, env: Env, k: nat) returns (es: seq<Step>, end: State)
    requires k < MAX_RETRIES && c in s.calls && s.calls[c].phase == Deciding(k) && IsRetryableRequest(s.calls[c].req)
    requires s.now <= env.clock(k) && forall n: nat :: env.clock(n) <= env.clock(n + 1)
    ensures var (b, granted) := Taken(s.budget, env.clock(k));
      var call := s.calls[c];
      && Reaches(s, es, end)
      && Ends(s, c, if granted && env.sleepOk(k) then After(call.bodies, Trip(b, call.req, call.reader, env, k + 1))
                    else (b, call.bodies, Cancelled), end)
    decreases MAX_RETRIES - k, 0
  {
    var take, wake := TakeToken(c, env.clock(k)), Wake(c, env.sleepOk(k));
    var s1 := Apply(s, take);
    if !Taken(s.budget, env.clock(k)).1 {
      ReachesFirst(s, take, [], s1);
      return [take], s1;
    }
    var s2 := Apply(s1, wake);
    var after: seq<Step> := [];
    end := s2;
    if env.sleepOk(k) {
      assert env.clock(k) <= env.clock(k + 1);
      after, end := TripIsARun(s2, c, env, k + 1);
    }
    ReachesFirst(s1, wake, after, end);
    ReachesFirst(s, take, [wake] + after, end);
    es := [take] + ([wake] + after);
  }
}
