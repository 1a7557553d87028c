/**
 All runs of a minter: mints for any credentials of any profiles and idle sweeps, as whole
 steps under a clock that never goes back, with an upstream and a limiter that may do
 anything. A log records every contact with the upstream, across sweeps.
 */
module MinterRuns {
  import opened Prelude
  import opened Minter

  type Config = map<string, Profile>

  /** Credentials of different profiles must not share keys, so no profile name may continue another past a NUL. */
  ghost predicate ValidConfig(cfg: Config) {
    && (forall n :: n in cfg ==> Validated(cfg[n]))
    && (forall n, m :: n in cfg && m in cfg && n != m ==> !Shadows(n, m))
  }

  /**
   One contact with the upstream: when, what the upstream answered, the token or the wait that
   came of it, and whether a sweep had dropped the credential since the previous contact.
   */
  datatype Attempt = Attempt(at: int, grant: Grant, token: Option<Result>, wait: int, evicted: bool)

  datatype State = State(now: int, entries: map<string, Entry>, log: map<string, seq<Attempt>>)

  datatype Event =
    | Mint(profile: string, clientID: string, now: int, allowed: bool, grant: Grant, r: int)
    | Sweep(now: int)

  function LogOf(s: State, key: string): seq<Attempt> {
    if key in s.log then s.log[key] else []
  }

  ghost predicate Enabled(cfg: Config, s: State, e: Event) {
    && e.now > 0 && s.now <= e.now
    && (e.Mint? && e.profile in cfg ==>
          var st := StateOf(s.entries, CredentialKey(e.profile, e.clientID));
          IsDraw(Steps(cfg[e.profile], st.failCount + 1), e.r))
  }

  function Contact(st: MintState, h: seq<Attempt>, p: Profile, now: int, grant: Grant, r: int): Attempt {
    match grant
    case Granted(resp) => Attempt(now, grant, Some(ResultFrom(now, p, resp)), 0, h != [] && st.lastMintAt == 0)
    case Refused(err) =>
      Attempt(now, grant, None, BackoffFor(p, err, st.failCount + 1, r), h != [] && st.lastMintAt == 0)
  }

  function AfterMint(cfg: Config, s: State, e: Event): State
    requires e.Mint? && e.profile in cfg
  {
    var key := CredentialKey(e.profile, e.clientID);
    var p, st, h := cfg[e.profile], StateOf(s.entries, key), LogOf(s, key);
    var st' := Minted(st, p, e.now, e.allowed, e.grant, e.r).0;
    State(e.now, s.entries[key := Entry(ProfileNameOf(s.entries, key, e.profile), st')],
          if Attempts(st, p, e.now, e.allowed)
          then s.log[key := h + [Contact(st, h, p, e.now, e.grant, e.r)]]
          else s.log)
  }

  function Apply(cfg: Config, s: State, e: Event): State {
    if e.Sweep? then
      State(e.now, map k | k in s.entries && !Droppable(cfg, s.entries[k], e.now) :: s.entries[k], s.log)
    else if e.profile !in cfg then s.(now := e.now)
    else AfterMint(cfg, s, e)
  }

  ghost predicate Run(cfg: Config, tr: seq<State>, es: seq<Event>) {
    && ValidConfig(cfg)
    && |tr| == |es| + 1
    && tr[0] == State(0, map[], map[])
    && forall i {:trigger es[i]} :: 0 <= i < |es| ==> Enabled(cfg, tr[i], es[i]) && tr[i + 1] == Apply(cfg, tr[i], es[i])
  }

  // ---------- What the log says ----------

  function Last(h: seq<Attempt>): Attempt
    requires h != []
  {
    h[|h| - 1]
  }

  /** The newest token the upstream gave for this credential. */
  function LatestToken(h: seq<Attempt>): Option<Result> {
    if h == [] then None
    else if Last(h).token.Some? then Last(h).token
    else LatestToken(h[..|h| - 1])
  }

  /** Failures since the last success, or since the credential was last forgotten. */
  function FailuresInARow(h: seq<Attempt>): nat {
    if h == [] || Last(h).token.Some? then 0
    else if Last(h).evicted then 1
    else 1 + FailuresInARow(h[..|h| - 1])
  }

  predicate Gone(r: Option<Result>, now: int) {
    r.None? || r.value.hardExpiry <= now
  }

  /** How two consecutive contacts of one credential are related. */
  predicate Spaced(p: Profile, a: Attempt, b: Attempt) {
    if b.evicted then b.at - a.at >= p.idleTTL
    else b.at - a.at >= p.minRefreshInterval && (a.token.None? ==> b.at >= a.at + a.wait)
  }

  /** A token runs forward from its mint, or was over from the start. */
  predicate TokenSound(a: Attempt) {
    && a.at > 0 && (a.token.Some? <==> a.grant.Granted?)
    && (a.token.Some? ==>
          var r := a.token.value; a.at <= r.refreshAfter <= r.hardExpiry || r.hardExpiry <= r.refreshAfter <= a.at)
  }

  ghost predicate LogSound(p: Profile, h: seq<Attempt>, now: int) {
    && (forall n :: 0 <= n < |h| ==> TokenSound(h[n]) && h[n].at <= now)
    && (forall n :: 0 < n < |h| ==> Spaced(p, h[n - 1], h[n]))
  }

  /** A credential that has been contacted since it was last forgotten. */
  predicate Live(st: MintState, h: seq<Attempt>, now: int) {
    && h != [] && st.lastMintAt == Last(h).at
    && st.failCount == FailuresInARow(h)
    && st.nextAttemptAt == (if Last(h).token.Some? then 0 else Last(h).at + Last(h).wait)
    && st.lastErr == (if Last(h).grant.Granted? then None else Some(Last(h).grant.err))
    && (st.result == LatestToken(h) || (st.result.None? && Gone(LatestToken(h), now)))
  }

  /** A credential that was never contacted, or forgotten since: idle for a full TTL and without a usable token. */
  predicate Forgotten(p: Profile, st: MintState, h: seq<Attempt>, now: int) {
    && st == NewState
    && (h != [] ==> now - Last(h).at >= p.idleTTL && Gone(LatestToken(h), now))
  }

  ghost predicate KeySound(cfg: Config, s: State, profile: string, clientID: string)
    requires profile in cfg
  {
    var key := CredentialKey(profile, clientID);
    var st, h := StateOf(s.entries, key), LogOf(s, key);
    && (key in s.entries ==> s.entries[key].profileName == profile)
    && LogSound(cfg[profile], h, s.now)
    && (Live(st, h, s.now) || Forgotten(cfg[profile], st, h, s.now))
  }

  lemma LatestTokenAppend(h: seq<Attempt>, a: Attempt)
    ensures LatestToken(h + [a]) == if a.token.Some? then a.token else LatestToken(h)
    ensures FailuresInARow(h + [a]) == if a.token.Some? then 0 else if a.evicted then 1 else 1 + FailuresInARow(h)
  {
    assert (h + [a])[..|h|] == h;
  }

  lemma {:induction false} LatestTokenIsSound(p: Profile, h: seq<Attempt>, now: int)
    requires LogSound(p, h, now) && LatestToken(h).Some?
    ensures var r := LatestToken(h).value; r.refreshAfter <= r.hardExpiry || (r.refreshAfter <= now && r.hardExpiry <= now)
  {
    if Last(h).token.None? { LatestTokenIsSound(p, h[..|h| - 1], now); } else { assert TokenSound(Last(h)); }
  }

  lemma NewTokenIsSound(p: Profile, now: int, resp: Response)
    requires Validated(p) && now > 0
    ensures var r := ResultFrom(now, p, resp);
      && r.hardExpiry <= now + resp.expiresIn
      && (if resp.expiresIn > 0 then now <= r.refreshAfter <= r.hardExpiry && now < r.hardExpiry
          else r.hardExpiry <= r.refreshAfter <= now)
  {
    if resp.expiresIn > 0 { PositiveGrantIsUsable(now, p, resp); } else { EmptyGrantIsOver(now, p, resp); }
  }

  lemma QuietMintKeepsKey(p: Profile, st: MintState, h: seq<Attempt>, then_: int, now: int)
    requires Live(st, h, then_) || Forgotten(p, st, h, then_)
    requires then_ <= now
    ensures Live(st, h, now) || Forgotten(p, st, h, now)
  {
  }

  /** A contact through an open gate is spaced from the one before. */
  lemma ContactIsSpaced(p: Profile, st: MintState, h: seq<Attempt>, s_now: int, now: int, grant: Grant, r: int)
    requires LogSound(p, h, s_now) && s_now <= now && h != []
    requires Live(st, h, s_now) || Forgotten(p, st, h, s_now)
    requires GateOf(st, p, now).Open?
    ensures Spaced(p, Last(h), Contact(st, h, p, now, grant, r))
  {
    assert TokenSound(Last(h));
  }

  lemma ContactKeepsLog(p: Profile, h: seq<Attempt>, s_now: int, now: int, a: Attempt)
    requires LogSound(p, h, s_now) && s_now <= now && a.at == now && TokenSound(a)
    requires h != [] ==> Spaced(p, Last(h), a)
    ensures LogSound(p, h + [a], now)
  {
    forall n | 0 < n < |h + [a]| ensures Spaced(p, (h + [a])[n - 1], (h + [a])[n]) {
      if n == |h| { assert (h + [a])[n - 1] == Last(h); }
    }
  }

  /** A contact extends a sound log by a sound attempt and leaves the credential live. */
  lemma ContactKeepsKey(p: Profile, st: MintState, h: seq<Attempt>, s_now: int, now: int, grant: Grant, r: int)
    requires Validated(p) && LogSound(p, h, s_now) && s_now <= now && now > 0
    requires Live(st, h, s_now) || Forgotten(p, st, h, s_now)
    requires GateOf(st, p, now).Open?
    ensures var a := Contact(st, h, p, now, grant, r);
      && LogSound(p, h + [a], now)
      && Live(Minted(st, p, now, true, grant, r).0, h + [a], now)
  {
    var a := Contact(st, h, p, now, grant, r);
    LatestTokenAppend(h, a);
    if grant.Granted? { NewTokenIsSound(p, now, grant.resp); }
    if h != [] { ContactIsSpaced(p, st, h, s_now, now, grant, r); }
    ContactKeepsLog(p, h, s_now, now, a);
    assert h != [] ==> TokenSound(Last(h));
  }

  lemma MintKeepsKey(cfg: Config, s: State, e: Event, profile: string, clientID: string)
    requires ValidConfig(cfg) && Enabled(cfg, s, e) && e.Mint? && e.profile in cfg
    requires profile in cfg && KeySound(cfg, s, profile, clientID)
    ensures KeySound(cfg, AfterMint(cfg, s, e), profile, clientID)
  {
    CredentialKeysCollideIff(profile, clientID, e.profile, e.clientID);
    var key := CredentialKey(profile, clientID);
    var p, st, h := cfg[profile], StateOf(s.entries, key), LogOf(s, key);
    if profile == e.profile && clientID == e.clientID && Attempts(st, p, e.now, e.allowed) {
      ContactKeepsKey(p, st, h, s.now, e.now, e.grant, e.r);
    } else {
      QuietMintKeepsKey(p, st, h, s.now, e.now);
    }
  }

  lemma SweepKeepsKey(cfg: Config, s: State, now: int, profile: string, clientID: string)
    requires ValidConfig(cfg) && Enabled(cfg, s, Sweep(now))
    requires profile in cfg && KeySound(cfg, s, profile, clientID)
    ensures KeySound(cfg, Apply(cfg, s, Sweep(now)), profile, clientID)
  {
    var key := CredentialKey(profile, clientID);
    var p, st, h := cfg[profile], StateOf(s.entries, key), LogOf(s, key);
    QuietMintKeepsKey(p, st, h, s.now, now);
    if key in s.entries && Droppable(cfg, s.entries[key], now) {
      if LatestToken(h).Some? { LatestTokenIsSound(p, h, s.now); }
      assert Forgotten(p, NewState, h, now);
    }
  }

  lemma {:induction false} RunKeepsKeys(cfg: Config, tr: seq<State>, es: seq<Event>, i: nat, profile: string, clientID: string)
    requires Run(cfg, tr, es) && i < |tr| && profile in cfg
    ensures KeySound(cfg, tr[i], profile, clientID)
  {
    if i > 0 {
      RunKeepsKeys(cfg, tr, es, i - 1, profile, clientID);
      var s, e := tr[i - 1], es[i - 1];
      if e.Sweep? {
        SweepKeepsKey(cfg, s, e.now, profile, clientID);
      } else if e.profile in cfg {
        MintKeepsKey(cfg, s, e, profile, clientID);
      } else {
        var key := CredentialKey(profile, clientID);
        QuietMintKeepsKey(cfg[profile], StateOf(s.entries, key), LogOf(s, key), s.now, e.now);
      }
    }
  }

  // ---------- What every run guarantees ----------

  /** What step i's mint of a known profile returned. */
  function Answer(cfg: Config, s: State, e: Event): Outcome
    requires e.Mint? && e.profile in cfg
  {
    Minted(StateOf(s.entries, CredentialKey(e.profile, e.clientID)), cfg[e.profile], e.now, e.allowed, e.grant, e.r).1
  }

  /**
   Outage masking. As long as the newest token that the upstream ever gave for a credential
   has not expired, every mint of that credential succeeds, whatever the upstream and the
   limiter do now and whatever was swept before; with no new grant it serves that very token.
   */
  lemma OutageIsMasked(cfg: Config, tr: seq<State>, es: seq<Event>, i: nat)
    requires Run(cfg, tr, es) && i < |es| && es[i].Mint? && es[i].profile in cfg
    requires var latest := LatestToken(LogOf(tr[i], CredentialKey(es[i].profile, es[i].clientID)));
      latest.Some? && es[i].now < latest.value.hardExpiry
    ensures Answer(cfg, tr[i], es[i]).Token?
    ensures var key := CredentialKey(es[i].profile, es[i].clientID);
      LatestToken(LogOf(tr[i + 1], key)) == Some(Answer(cfg, tr[i], es[i]).result)
  {
    var e := es[i];
    var key := CredentialKey(e.profile, e.clientID);
    var h := LogOf(tr[i], key);
    RunKeepsKeys(cfg, tr, es, i, e.profile, e.clientID);
    LatestTokenIsSound(cfg[e.profile], h, tr[i].now);
    var st := StateOf(tr[i].entries, key);
    LatestTokenAppend(h, Contact(st, h, cfg[e.profile], e.now, e.grant, e.r));
  }

  /** What one mint returns, if it returns a token, in terms of the log before and after it. */
  lemma TokenAnswerIsNewest(p: Profile, st: MintState, h: seq<Attempt>, s_now: int, now: int, allowed: bool, grant: Grant, r: int)
    requires Validated(p) && LogSound(p, h, s_now) && 0 < now && s_now <= now
    requires Live(st, h, s_now) || Forgotten(p, st, h, s_now)
    requires Minted(st, p, now, allowed, grant, r).1.Token?
    ensures var token, contacted := Minted(st, p, now, allowed, grant, r).1.result, Attempts(st, p, now, allowed);
      && LatestToken(if contacted then h + [Contact(st, h, p, now, grant, r)] else h) == Some(token)
      && (contacted && grant.Granted? ==> token == ResultFrom(now, p, grant.resp))
      && (!(contacted && grant.Granted?) ==> Usable(token, now) && token.refreshAfter <= token.hardExpiry)
  {
    if LatestToken(h).Some? { LatestTokenIsSound(p, h, s_now); }
    LatestTokenAppend(h, Contact(st, h, p, now, grant, r));
  }

  /**
   Every token a mint returns is the newest one granted. It is usable at that moment, with
   the single exception of a token that this very call was granted without a positive
   lifetime.
   */
  lemma ReturnedTokensAreUsable(cfg: Config, tr: seq<State>, es: seq<Event>, i: nat)
    requires Run(cfg, tr, es) && i < |es| && es[i].Mint? && es[i].profile in cfg && Answer(cfg, tr[i], es[i]).Token?
    ensures var e, r := es[i], Answer(cfg, tr[i], es[i]).result;
      var st := StateOf(tr[i].entries, CredentialKey(e.profile, e.clientID));
      var granted := Attempts(st, cfg[e.profile], e.now, e.allowed) && e.grant.Granted?;
      && LatestToken(LogOf(tr[i + 1], CredentialKey(e.profile, e.clientID))) == Some(r)
      && (Usable(r, e.now) <==> !(granted && e.grant.resp.expiresIn <= 0))
      && (Usable(r, e.now) ==> r.refreshAfter <= r.hardExpiry)
      && (granted ==> r.hardExpiry <= e.now + e.grant.resp.expiresIn)
  {
    var e := es[i];
    var p, key := cfg[e.profile], CredentialKey(e.profile, e.clientID);
    var h, st := LogOf(tr[i], key), StateOf(tr[i].entries, key);
    RunKeepsKeys(cfg, tr, es, i, e.profile, e.clientID);
    assert tr[i + 1] == AfterMint(cfg, tr[i], e);
    TokenAnswerIsNewest(p, st, h, tr[i].now, e.now, e.allowed, e.grant, e.r);
    if e.grant.Granted? { NewTokenIsSound(p, e.now, e.grant.resp); }
  }

  /**
   Attempt spacing. Consecutive contacts of one credential are at least MinRefreshInterval
   apart and never inside the wait of a failure, unless a sweep forgot the credential in
   between; then they are at least IdleTTL apart. The failure count is the current streak.
   */
  lemma AttemptsAreSpaced(cfg: Config, tr: seq<State>, es: seq<Event>, i: nat, profile: string, clientID: string)
    requires Run(cfg, tr, es) && i < |tr| && profile in cfg
    ensures var h := LogOf(tr[i], CredentialKey(profile, clientID));
      && (forall n :: 0 < n < |h| ==> Spaced(cfg[profile], h[n - 1], h[n]))
      && var st := StateOf(tr[i].entries, CredentialKey(profile, clientID));
         (st.lastMintAt != 0 ==> st.failCount == FailuresInARow(h) && h != [] && st.lastMintAt == Last(h).at)
  {
    RunKeepsKeys(cfg, tr, es, i, profile, clientID);
  }

  /**
   A sweep forgets a credential exactly when it has been contacted since it was last forgotten,
   the last contact is IdleTTL ago, and no token of it is usable any more.
   */
  lemma SweepForgetsIff(cfg: Config, tr: seq<State>, es: seq<Event>, i: nat, profile: string, clientID: string)
    requires Run(cfg, tr, es) && i < |es| && es[i].Sweep? && profile in cfg
    requires CredentialKey(profile, clientID) in tr[i].entries
    ensures var key := CredentialKey(profile, clientID);
      var st, h := StateOf(tr[i].entries, key), LogOf(tr[i], key);
      key !in tr[i + 1].entries <==>
        st.lastMintAt != 0 && h != [] && es[i].now - Last(h).at >= cfg[profile].idleTTL && Gone(LatestToken(h), es[i].now)
  {
    RunKeepsKeys(cfg, tr, es, i, profile, clientID);
  }

  lemma StepKeepsEntry(cfg: Config, tr: seq<State>, es: seq<Event>, i: nat, profile: string, clientID: string)
    requires Run(cfg, tr, es) && i < |es| && profile in cfg
    requires var key := CredentialKey(profile, clientID); key in tr[i].entries && LogOf(tr[i + 1], key) == []
    ensures CredentialKey(profile, clientID) in tr[i + 1].entries && LogOf(tr[i], CredentialKey(profile, clientID)) == []
  {
    RunKeepsKeys(cfg, tr, es, i, profile, clientID);
    if es[i].Sweep? { SweepForgetsIff(cfg, tr, es, i, profile, clientID); }
  }

  /**
   A credential that has never reached the upstream, because the limiter refused every mint, is
   forgotten by no sweep at any time: its entry stays in memory for the rest of the run.
   */
  lemma {:induction false} NeverContactedIsNeverSwept(cfg: Config, tr: seq<State>, es: seq<Event>, i: nat, j: nat,
                                                      profile: string, clientID: string)
    requires Run(cfg, tr, es) && i <= j < |tr| && profile in cfg
    requires CredentialKey(profile, clientID) in tr[i].entries && LogOf(tr[j], CredentialKey(profile, clientID)) == []
    ensures CredentialKey(profile, clientID) in tr[j].entries
    decreases j
  {
    if i < j {
      LogOnlyGrows(cfg, tr, es, j - 1, CredentialKey(profile, clientID));
      NeverContactedIsNeverSwept(cfg, tr, es, i, j - 1, profile, clientID);
      StepKeepsEntry(cfg, tr, es, j - 1, profile, clientID);
    }
  }

  lemma LogOnlyGrows(cfg: Config, tr: seq<State>, es: seq<Event>, i: nat, key: string)
    requires Run(cfg, tr, es) && i < |es|
    ensures LogOf(tr[i], key) <= LogOf(tr[i + 1], key)
  {
    assert tr[i + 1] == Apply(cfg, tr[i], es[i]);
  }

  // ---------- Where sweeping loses the spacing ----------

  /** A run in which a failure is forgotten and repeated: fail, sweep one IdleTTL later, fail again at once. */
  lemma ForgetfulRun(cfg: Config, profile: string, err: MintError) returns (tr: seq<State>, es: seq<Event>)
    requires ValidConfig(cfg) && profile in cfg
    ensures Run(cfg, tr, es) && |tr| == 4
    ensures var h := LogOf(tr[3], CredentialKey(profile, ""));
      && |h| == 2 && h[0].token.None? && h[0].wait == BackoffFor(cfg[profile], err, 1, 0)
      && h[1].at - h[0].at == cfg[profile].idleTTL
  {
    var key := CredentialKey(profile, "");
    var p := cfg[profile];
    var later := 1 + p.idleTTL;
    var e0, e1, e2 := Mint(profile, "", 1, true, Refused(err), 0), Sweep(later), Mint(profile, "", later, true, Refused(err), 0);
    var s0 := State(0, map[], map[]);
    var s1 := Apply(cfg, s0, e0);
    var s2 := Apply(cfg, s1, e1);
    var s3 := Apply(cfg, s2, e2);
    assert GateOf(NewState, p, 1).Open? && GateOf(NewState, p, later).Open?;
    assert key in s1.entries && Droppable(cfg, s1.entries[key], later);
    assert StateOf(s2.entries, key) == NewState;
    tr, es := [s0, s1, s2, s3], [e0, e1, e2];
    assert Enabled(cfg, s0, e0) && Enabled(cfg, s1, e1) && Enabled(cfg, s2, e2);
  }

  /** Contacts of this profile are at least MinRefreshInterval apart in every run. */
  ghost predicate AlwaysSpaced(cfg: Config, profile: string)
    requires profile in cfg
  {
    forall tr, es, clientID | Run(cfg, tr, es) :: IntervalsKept(cfg, tr, profile, clientID)
  }

  ghost predicate IntervalsKept(cfg: Config, tr: seq<State>, profile: string, clientID: string)
    requires profile in cfg && tr != []
  {
    var h := LogOf(tr[|tr| - 1], CredentialKey(profile, clientID));
    forall n :: 0 < n < |h| ==> h[n].at - h[n - 1].at >= cfg[profile].minRefreshInterval
  }

  /** No contact of this profile falls inside the wait of the failure before it, in any run. */
  ghost predicate WaitsAlwaysKept(cfg: Config, profile: string)
    requires profile in cfg
  {
    forall tr, es, clientID | Run(cfg, tr, es) :: WaitsKept(cfg, tr, profile, clientID)
  }

  ghost predicate WaitsKept(cfg: Config, tr: seq<State>, profile: string, clientID: string)
    requires profile in cfg && tr != []
  {
    var h := LogOf(tr[|tr| - 1], CredentialKey(profile, clientID));
    forall n :: 0 < n < |h| && h[n - 1].token.None? ==> h[n].at >= h[n - 1].at + h[n - 1].wait
  }

  /** The "hard floor between two mints" holds in all runs exactly when it does not exceed IdleTTL. */
  lemma HardFloorHoldsIff(cfg: Config, profile: string)
    requires ValidConfig(cfg) && profile in cfg
    ensures AlwaysSpaced(cfg, profile) <==> cfg[profile].minRefreshInterval <= cfg[profile].idleTTL
  {
    if cfg[profile].minRefreshInterval <= cfg[profile].idleTTL {
      forall tr, es, clientID | Run(cfg, tr, es) ensures IntervalsKept(cfg, tr, profile, clientID) {
        AttemptsAreSpaced(cfg, tr, es, |tr| - 1, profile, clientID);
      }
    } else {
      var tr, es := ForgetfulRun(cfg, profile, InvalidClient);
      assert !IntervalsKept(cfg, tr, profile, "");
    }
  }

  ghost predicate WaitsWithin(h: seq<Attempt>, longest: int) {
    forall n :: 0 <= n < |h| ==> h[n].wait <= longest
  }

  /** What one step does to the log of one credential. */
  lemma StepBoundsWaits(cfg: Config, s: State, e: Event, profile: string, clientID: string)
    requires ValidConfig(cfg) && Enabled(cfg, s, e) && profile in cfg && KeySound(cfg, s, profile, clientID)
    requires WaitsWithin(LogOf(s, CredentialKey(profile, clientID)), LongestWait(cfg[profile]))
    ensures WaitsWithin(LogOf(Apply(cfg, s, e), CredentialKey(profile, clientID)), LongestWait(cfg[profile]))
  {
    if e.Mint? && e.profile in cfg {
      CredentialKeysCollideIff(profile, clientID, e.profile, e.clientID);
      var st := StateOf(s.entries, CredentialKey(profile, clientID));
      if e.grant.Refused? && e.profile == profile && e.clientID == clientID {
        BackoffBounds(cfg[profile], e.grant.err, st.failCount + 1, e.r);
      }
    }
  }

  lemma {:induction false} WaitsAreBounded(cfg: Config, tr: seq<State>, es: seq<Event>, i: nat, profile: string, clientID: string)
    requires Run(cfg, tr, es) && i < |tr| && profile in cfg
    ensures WaitsWithin(LogOf(tr[i], CredentialKey(profile, clientID)), LongestWait(cfg[profile]))
  {
    if i > 0 {
      WaitsAreBounded(cfg, tr, es, i - 1, profile, clientID);
      RunKeepsKeys(cfg, tr, es, i - 1, profile, clientID);
      StepBoundsWaits(cfg, tr[i - 1], es[i - 1], profile, clientID);
    }
  }

  /** An error whose wait is the longest one of the profile, or at least exceeds a given bound that the longest exceeds. */
  function Costliest(p: Profile, bound: int): MintError {
    if p.authBackoff > bound then InvalidClient
    else if p.backoffBase > bound then Upstream(1)
    else Upstream(p.backoffMax)
  }

  lemma CostliestExceeds(p: Profile, bound: int)
    requires Validated(p) && bound > 0 && LongestWait(p) > bound
    ensures BackoffFor(p, Costliest(p, bound), 1, 0) > bound
  {
  }

  /** Failure waits are honoured in all runs exactly when no wait can exceed IdleTTL. */
  lemma WaitsAreHonouredIff(cfg: Config, profile: string)
    requires ValidConfig(cfg) && profile in cfg
    ensures var p := cfg[profile];
      WaitsAlwaysKept(cfg, profile) <==>
        p.authBackoff <= p.idleTTL && p.backoffBase <= p.idleTTL && p.backoffMax <= p.idleTTL
  {
    var p := cfg[profile];
    if LongestWait(p) <= p.idleTTL {
      forall tr, es, clientID | Run(cfg, tr, es) ensures WaitsKept(cfg, tr, profile, clientID) {
        AttemptsAreSpaced(cfg, tr, es, |tr| - 1, profile, clientID);
        WaitsAreBounded(cfg, tr, es, |tr| - 1, profile, clientID);
      }
    } else {
      CostliestExceeds(p, p.idleTTL);
      var tr, es := ForgetfulRun(cfg, profile, Costliest(p, p.idleTTL));
      assert !WaitsKept(cfg, tr, profile, "");
    }
  }

  // ---------- Which token, which error, which wait ----------

  /** The token is the upstream's, and its times follow from the answer and the profile. */
  predicate IsTokenOf(p: Profile, at: int, resp: Response, r: Result) {
    && r.accessToken == resp.accessToken && r.tokenType == resp.tokenType
    && IsLifetimeOf(p, resp.expiresIn, r.hardExpiry - at)
    && IsMarginOf(p, r.hardExpiry - at, r.hardExpiry - r.refreshAfter)
  }

  /** The granted time after the haircut, or all of it if nothing would be left. */
  predicate IsLifetimeOf(p: Profile, granted: int, lifetime: int) {
    var cut := (granted as real * p.haircut).Floor;
    lifetime == if cut >= 1 then cut else granted
  }

  /** The configured margin, or half of the lifetime, toward zero, if the margin is not shorter. */
  predicate IsMarginOf(p: Profile, lifetime: int, margin: int) {
    margin == if p.refreshMargin < lifetime then p.refreshMargin
              else if lifetime >= 0 then lifetime / 2 else -((-lifetime) / 2)
  }

  /** The wait of a failure that is the n-th in a row. */
  predicate IsWaitOf(p: Profile, err: MintError, n: int, wait: int)
    requires n >= 1
  {
    match err
    case InvalidClient => wait == p.authBackoff
    case Upstream(hint) => if hint > 0 then HintedWait(p, hint, wait) else HalfJittered(Steps(p, n), wait)
    case OtherFailure => HalfJittered(Steps(p, n), wait)
  }

  predicate HintedWait(p: Profile, hint: int, wait: int) {
    wait == if hint < p.backoffBase then p.backoffBase else if hint > p.backoffMax then p.backoffMax else hint
  }

  predicate HalfJittered(d: int, wait: int) {
    d / 2 <= wait <= d
  }

  /** What the n-th entry of a log says is what the answer it records means. */
  predicate EntryExact(p: Profile, h: seq<Attempt>, n: nat)
    requires n < |h|
  {
    match h[n].grant
    case Granted(resp) => h[n].token.Some? && IsTokenOf(p, h[n].at, resp, h[n].token.value)
    case Refused(err) =>
      h[n].token.None? && FailuresInARow(h[..n + 1]) >= 1 && IsWaitOf(p, err, FailuresInARow(h[..n + 1]), h[n].wait)
  }

  ghost predicate LogExact(p: Profile, h: seq<Attempt>) {
    forall n {:trigger EntryExact(p, h, n)} :: 0 <= n < |h| ==> EntryExact(p, h, n)
  }

  lemma TokenIsExact(p: Profile, now: int, resp: Response)
    requires Validated(p)
    ensures IsTokenOf(p, now, resp, ResultFrom(now, p, resp))
  {
    LifetimeIsExact(p, resp.expiresIn);
    MarginIsExact(p, now, resp, TrustedLifetime(p, resp.expiresIn));
  }

  lemma LifetimeIsExact(p: Profile, granted: int)
    ensures IsLifetimeOf(p, granted, TrustedLifetime(p, granted))
  {
  }

  lemma MarginIsExact(p: Profile, now: int, resp: Response, lifetime: int)
    requires lifetime == TrustedLifetime(p, resp.expiresIn)
    ensures var r := ResultFrom(now, p, resp);
      r.hardExpiry - now == lifetime && IsMarginOf(p, lifetime, r.hardExpiry - r.refreshAfter)
  {
  }

  lemma WaitIsExact(p: Profile, err: MintError, n: int, r: int)
    requires Validated(p) && n >= 1 && IsDraw(Steps(p, n), r)
    ensures IsWaitOf(p, err, n, BackoffFor(p, err, n, r))
  {
  }

  lemma ContactIsExact(p: Profile, st: MintState, h: seq<Attempt>, s_now: int, now: int, grant: Grant, r: int)
    requires Validated(p) && LogExact(p, h) && IsDraw(Steps(p, st.failCount + 1), r)
    requires Live(st, h, s_now) || Forgotten(p, st, h, s_now)
    requires LogSound(p, h, s_now)
    ensures LogExact(p, h + [Contact(st, h, p, now, grant, r)])
  {
    var a := Contact(st, h, p, now, grant, r);
    var more := h + [a];
    LatestTokenAppend(h, a);
    assert h != [] ==> TokenSound(Last(h));
    forall n | 0 <= n < |more| ensures EntryExact(p, more, n) {
      if n < |h| {
        assert EntryExact(p, h, n) && more[..n + 1] == h[..n + 1];
      } else {
        assert more[..n + 1] == more;
        if grant.Granted? { TokenIsExact(p, now, grant.resp); } else { WaitIsExact(p, grant.err, st.failCount + 1, r); }
      }
    }
  }

  lemma {:induction false} LogIsExact(cfg: Config, tr: seq<State>, es: seq<Event>, i: nat, profile: string, clientID: string)
    requires Run(cfg, tr, es) && i < |tr| && profile in cfg
    ensures LogExact(cfg[profile], LogOf(tr[i], CredentialKey(profile, clientID)))
  {
    if i > 0 {
      LogIsExact(cfg, tr, es, i - 1, profile, clientID);
      RunKeepsKeys(cfg, tr, es, i - 1, profile, clientID);
      var s, e, key := tr[i - 1], es[i - 1], CredentialKey(profile, clientID);
      if e.Mint? && e.profile in cfg {
        CredentialKeysCollideIff(profile, clientID, e.profile, e.clientID);
        if profile == e.profile && clientID == e.clientID {
          ContactIsExact(cfg[profile], StateOf(s.entries, key), LogOf(s, key), s.now, e.now, e.grant, e.r);
        }
      }
    }
  }

  /** Step j is a mint of the credential that reached the upstream: it made the log grow. */
  ghost predicate Contacts(tr: seq<State>, es: seq<Event>, j: nat, profile: string, clientID: string) {
    && j < |es| && j + 1 < |tr| && es[j].Mint? && es[j].profile == profile && es[j].clientID == clientID
    && |LogOf(tr[j + 1], CredentialKey(profile, clientID))| > |LogOf(tr[j], CredentialKey(profile, clientID))|
  }

  /** How a step changes the log of one credential: not at all, or by the contact of its own mint. */
  lemma LogStep(cfg: Config, tr: seq<State>, es: seq<Event>, i: nat, profile: string, clientID: string)
    requires Run(cfg, tr, es) && i < |es| && profile in cfg
    ensures var h, h' := LogOf(tr[i], CredentialKey(profile, clientID)), LogOf(tr[i + 1], CredentialKey(profile, clientID));
      if Contacts(tr, es, i, profile, clientID)
      then |h'| == |h| + 1 && h'[..|h|] == h && Last(h').at == es[i].now && Last(h').grant == es[i].grant
      else h' == h
  {
    assert tr[i + 1] == Apply(cfg, tr[i], es[i]);
    if es[i].Mint? && es[i].profile in cfg { CredentialKeysCollideIff(profile, clientID, es[i].profile, es[i].clientID); }
  }

  /** Step j is the latest contact before step i that the upstream granted. */
  ghost predicate LatestGrant(tr: seq<State>, es: seq<Event>, j: nat, i: nat, profile: string, clientID: string) {
    && j < i <= |es| && Contacts(tr, es, j, profile, clientID) && es[j].grant.Granted?
    && forall k :: j < k < i && Contacts(tr, es, k, profile, clientID) ==> !es[k].grant.Granted?
  }

  /** A granted contact makes its answer the newest token, any other step leaves the newest token alone. */
  lemma NewestTokenStep(cfg: Config, tr: seq<State>, es: seq<Event>, i: nat, profile: string, clientID: string)
    requires Run(cfg, tr, es) && i < |es| && profile in cfg
    ensures var key := CredentialKey(profile, clientID);
      var t, t' := LatestToken(LogOf(tr[i], key)), LatestToken(LogOf(tr[i + 1], key));
      if Contacts(tr, es, i, profile, clientID) && es[i].grant.Granted?
      then t'.Some? && IsTokenOf(cfg[profile], es[i].now, es[i].grant.resp, t'.value)
      else t' == t
  {
    var key := CredentialKey(profile, clientID);
    var h, h' := LogOf(tr[i], key), LogOf(tr[i + 1], key);
    LogStep(cfg, tr, es, i, profile, clientID);
    LogIsExact(cfg, tr, es, i + 1, profile, clientID);
    if Contacts(tr, es, i, profile, clientID) {
      assert h' == h + [Last(h')] && EntryExact(cfg[profile], h', |h|);
      LatestTokenAppend(h, Last(h'));
    }
  }

  lemma {:induction false} LatestTokenWasGranted(cfg: Config, tr: seq<State>, es: seq<Event>, i: nat, profile: string, clientID: string)
    returns (j: nat)
    requires Run(cfg, tr, es) && i < |tr| && profile in cfg
    requires LatestToken(LogOf(tr[i], CredentialKey(profile, clientID))).Some?
    ensures LatestGrant(tr, es, j, i, profile, clientID)
    ensures IsTokenOf(cfg[profile], es[j].now, es[j].grant.resp,
                      LatestToken(LogOf(tr[i], CredentialKey(profile, clientID))).value)
    decreases i
  {
    NewestTokenStep(cfg, tr, es, i - 1, profile, clientID);
    if Contacts(tr, es, i - 1, profile, clientID) && es[i - 1].grant.Granted? {
      j := i - 1;
    } else {
      j := LatestTokenWasGranted(cfg, tr, es, i - 1, profile, clientID);
    }
  }

  /**
   Every token a mint returns is the access token and token type of the latest answer that the
   upstream granted to this credential, with exactly the expiry and refresh times of that answer.
   */
  lemma ReturnedTokenWasGranted(cfg: Config, tr: seq<State>, es: seq<Event>, i: nat) returns (j: nat)
    requires Run(cfg, tr, es) && i < |es| && es[i].Mint? && es[i].profile in cfg && Answer(cfg, tr[i], es[i]).Token?
    ensures LatestGrant(tr, es, j, i + 1, es[i].profile, es[i].clientID)
    ensures IsTokenOf(cfg[es[i].profile], es[j].now, es[j].grant.resp, Answer(cfg, tr[i], es[i]).result)
  {
    ReturnedTokensAreUsable(cfg, tr, es, i);
    j := LatestTokenWasGranted(cfg, tr, es, i + 1, es[i].profile, es[i].clientID);
  }

  /** What the log says about a mint at this moment. */
  datatype View = View(newest: Option<Result>, waiting: bool, soon: bool)

  /** `live` says that the credential was contacted and not forgotten since. */
  function ViewOf(p: Profile, h: seq<Attempt>, live: bool, now: int): View {
    View(LatestToken(h),
         live && h != [] && Last(h).grant.Refused? && now < Last(h).at + Last(h).wait,
         live && h != [] && now - Last(h).at < p.minRefreshInterval)
  }

  predicate RefreshNotDue(v: View, now: int) {
    v.newest.Some? && now < v.newest.value.refreshAfter
  }

  predicate StillUsable(v: View, now: int) {
    v.newest.Some? && now < v.newest.value.hardExpiry
  }

  /** Whether the mint asks the upstream: a refresh is due, no wait is running, the last contact is old enough. */
  predicate Asks(v: View, now: int, allowed: bool) {
    !RefreshNotDue(v, now) && !v.waiting && !v.soon && allowed
  }

  /** The answer of a mint, told by the log. */
  function Told(v: View, h: seq<Attempt>, h': seq<Attempt>, now: int, allowed: bool, grant: Grant): Outcome {
    if Asks(v, now, allowed) && grant.Granted? && LatestToken(h').Some? then Token(LatestToken(h').value)
    else if StillUsable(v, now) then Token(v.newest.value)
    else if Asks(v, now, allowed) && grant.Refused? then GrantFailed(grant.err)
    else if v.waiting && h != [] && Last(h).grant.Refused? then InBackoff(Some(Last(h).grant.err))
    else Throttled
  }

  /**
   What a mint does and answers, told by the log of the credential's contacts. It asks the
   upstream exactly when a refresh is due, no failure's wait is running, the last contact is at
   least MinRefreshInterval ago and the limiter allows it. It answers the new token, else the
   newest one while it lasts, else the failure just met, the failure it waits for, or throttled.
   */
  lemma MintAnswersByTheLog(cfg: Config, tr: seq<State>, es: seq<Event>, i: nat)
    requires Run(cfg, tr, es) && i < |es| && es[i].Mint? && es[i].profile in cfg
    ensures var e, key := es[i], CredentialKey(es[i].profile, es[i].clientID);
      var h, live := LogOf(tr[i], key), StateOf(tr[i].entries, key).lastMintAt != 0;
      var v := ViewOf(cfg[e.profile], h, live, e.now);
      && (Contacts(tr, es, i, e.profile, e.clientID) <==> Asks(v, e.now, e.allowed))
      && Answer(cfg, tr[i], e) == Told(v, h, LogOf(tr[i + 1], key), e.now, e.allowed, e.grant)
  {
    var e, key := es[i], CredentialKey(es[i].profile, es[i].clientID);
    RunKeepsKeys(cfg, tr, es, i, e.profile, e.clientID);
    assert tr[i + 1] == Apply(cfg, tr[i], e);
    MintIsTold(cfg[e.profile], StateOf(tr[i].entries, key), LogOf(tr[i], key), tr[i].now, e.now, e.allowed, e.grant, e.r);
  }

  lemma MintIsTold(p: Profile, st: MintState, h: seq<Attempt>, s_now: int, now: int, allowed: bool, grant: Grant, r: int)
    requires Validated(p) && LogSound(p, h, s_now) && 0 < now && s_now <= now
    requires Live(st, h, s_now) || Forgotten(p, st, h, s_now)
    ensures var v := ViewOf(p, h, st.lastMintAt != 0, now);
      && (Attempts(st, p, now, allowed) <==> Asks(v, now, allowed))
      && Minted(st, p, now, allowed, grant, r).1 ==
           Told(v, h, if Attempts(st, p, now, allowed) then h + [Contact(st, h, p, now, grant, r)] else h, now, allowed, grant)
  {
    if LatestToken(h).Some? { LatestTokenIsSound(p, h, s_now); }
    assert h != [] ==> TokenSound(Last(h));
    LatestTokenAppend(h, Contact(st, h, p, now, grant, r));
  }
}
