/**
 The client_credentials token minter: token lifetimes, failure backoff, one mint and the
 idle sweep. Times and durations are nanoseconds; time zero is Go's zero time, so a running
 clock is positive. Fractions are exact reals. The limiter, the upstream and the random
 jitter are inputs.
 */
module Minter {
  import opened Prelude

  const SECOND := 1_000_000_000
  const MAX_INT64 := 0x7fff_ffff_ffff_ffff
  const TWO_64 := 0x1_0000_0000_0000_0000

  datatype Profile = Profile(
    defaultExpiresIn: int, haircut: real, refreshMargin: int, minRefreshInterval: int,
    backoffBase: int, backoffMax: int, authBackoff: int, idleTTL: int)

  /** What Validate guarantees of a profile after it has filled in the defaults. */
  predicate Validated(p: Profile) {
    && 0.0 < p.haircut <= 1.0
    && 0 < p.refreshMargin < p.defaultExpiresIn
    && p.minRefreshInterval > 0 && p.backoffBase > 0 && p.backoffMax > 0 && p.authBackoff > 0 && p.idleTTL > 0
    && p.backoffBase <= MAX_INT64 && p.backoffMax <= MAX_INT64
  }

  datatype Result = Result(accessToken: string, tokenType: string, refreshAfter: int, hardExpiry: int)

  predicate Fresh(r: Result, now: int) {
    r.refreshAfter != 0 && now < r.refreshAfter
  }

  predicate Usable(r: Result, now: int) {
    r.hardExpiry != 0 && now < r.hardExpiry
  }

  // ---------- Lifetimes ----------

  datatype Response = Response(accessToken: string, tokenType: string, expiresIn: int)

  /** Two's complement wrap-around of an int64 result. */
  function Wrap64(x: int): int {
    var m := x % TWO_64;
    if m > MAX_INT64 then m - TWO_64 else m
  }

  /** What the answer says about expires_in: nothing usable, a number, or an infinity or NaN that passes as positive. */
  datatype Advertised = Absent | Seconds(x: real) | Unbounded

  /** The int64 that Go's conversion of the advertised float may give: exact in range, and anything outside. */
  predicate Converts(a: Advertised, whole: int) {
    && -MAX_INT64 - 1 <= whole <= MAX_INT64
    && (a.Seconds? && 0.0 < a.x && a.x.Floor <= MAX_INT64 ==> whole == a.x.Floor)
  }

  /** The expiry part of parseGrantResponse: whole seconds, multiplied in int64. */
  function GrantedLifetime(p: Profile, a: Advertised, whole: int): Option<int> {
    if a.Absent? then Some(p.defaultExpiresIn)
    else if a.Seconds? && a.x <= 0.0 then None
    else Some(Wrap64(whole * SECOND))
  }

  /** Go's division by two, which truncates toward zero. */
  function Half(x: int): int {
    if x >= 0 then x / 2 else -(-x / 2)
  }

  function TrustedLifetime(p: Profile, expiresIn: int): int {
    var cut := (expiresIn as real * p.haircut).Floor;
    if cut <= 0 then expiresIn else cut
  }

  function ResultFrom(now: int, p: Profile, resp: Response): Result {
    var lifetime := TrustedLifetime(p, resp.expiresIn);
    var margin := if p.refreshMargin >= lifetime then Half(lifetime) else p.refreshMargin;
    var hard := now + lifetime;
    Result(resp.accessToken, resp.tokenType, hard - margin, hard)
  }

  lemma HaircutNeverLengthens(expiresIn: int, haircut: real)
    requires expiresIn >= 0 && 0.0 < haircut <= 1.0
    ensures 0 <= (expiresIn as real * haircut).Floor <= expiresIn
  {
    assert expiresIn as real * haircut <= expiresIn as real;
    assert expiresIn as real * haircut >= 0.0;
  }

  /** A token from a positive grant is usable when minted, due for refresh before it expires, and never outlives the grant. */
  lemma PositiveGrantIsUsable(now: int, p: Profile, resp: Response)
    requires now > 0 && Validated(p) && resp.expiresIn > 0
    ensures var r := ResultFrom(now, p, resp);
      now <= r.refreshAfter <= r.hardExpiry && now < r.hardExpiry <= now + resp.expiresIn && Usable(r, now)
  {
    HaircutNeverLengthens(resp.expiresIn, p.haircut);
  }

  /** A grant without a positive lifetime is kept as it is, and its token is over when it is minted. */
  lemma EmptyGrantIsOver(now: int, p: Profile, resp: Response)
    requires Validated(p) && resp.expiresIn <= 0
    ensures var r := ResultFrom(now, p, resp);
      r.hardExpiry == now + resp.expiresIn && r.hardExpiry <= r.refreshAfter <= now && !Usable(r, now)
  {
    assert resp.expiresIn as real * p.haircut <= 0.0;
  }

  /**
   The token of an accepted answer is usable exactly when the upstream left the lifetime out
   or the advertised seconds stay positive as int64 nanoseconds.
   */
  lemma MintedTokenIsUsableIff(now: int, p: Profile, a: Advertised, whole: int, token: string, tokenType: string)
    requires now > 0 && Validated(p) && Converts(a, whole) && GrantedLifetime(p, a, whole).Some?
    ensures var r := ResultFrom(now, p, Response(token, tokenType, GrantedLifetime(p, a, whole).value));
      Usable(r, now) <==> a.Absent? || Wrap64(whole * SECOND) > 0
  {
    var resp := Response(token, tokenType, GrantedLifetime(p, a, whole).value);
    if resp.expiresIn > 0 { PositiveGrantIsUsable(now, p, resp); } else { EmptyGrantIsOver(now, p, resp); }
  }

  /** An answer is refused exactly for an advertised time that is not positive; without one the default holds. */
  lemma LifetimeIsRefusedIff(p: Profile, a: Advertised, whole: int)
    ensures GrantedLifetime(p, a, whole).None? <==> a.Seconds? && a.x <= 0.0
    ensures a.Absent? ==> GrantedLifetime(p, a, whole) == Some(p.defaultExpiresIn)
  {
  }

  /** Between one second and two hundred and ninety-two years the lifetime is exact. */
  lemma OrdinaryLifetimesAreExact(p: Profile, x: real, whole: int)
    requires 1.0 <= x < 9_223_372_037.0 && Converts(Seconds(x), whole)
    ensures GrantedLifetime(p, Seconds(x), whole) == Some(x.Floor * SECOND) && x.Floor * SECOND > 0
  {
    WrapInRange(x.Floor * SECOND);
  }

  lemma HalfASecondMintsAnExpiredToken(now: int, p: Profile, whole: int)
    requires now > 0 && Validated(p) && Converts(Seconds(0.5), whole)
    ensures GrantedLifetime(p, Seconds(0.5), whole) == Some(0)
    ensures ResultFrom(now, p, Response("t", "Bearer", 0)).hardExpiry == now
  {
    EmptyGrantIsOver(now, p, Response("t", "Bearer", 0));
  }

  /** Ten billion seconds are accepted and wrap around to a lifetime that is long over. */
  lemma TenBillionSecondsMintAnExpiredToken(now: int, p: Profile, whole: int)
    requires now > 0 && Validated(p) && Converts(Seconds(10_000_000_000.0), whole)
    ensures var lifetime := GrantedLifetime(p, Seconds(10_000_000_000.0), whole);
      && lifetime.Some? && lifetime.value < 0
      && !Usable(ResultFrom(now, p, Response("t", "Bearer", lifetime.value)), now)
  {
    assert 10_000_000_000.0.Floor == 10_000_000_000;
    WrapInRange(whole * SECOND);
    MintedTokenIsUsableIff(now, p, Seconds(10_000_000_000.0), whole, "t", "Bearer");
  }

  // ---------- Failure backoff ----------

  datatype MintError = InvalidClient | Upstream(retryAfter: int) | OtherFailure

  function Clamp(d: int, lo: int, hi: int): int {
    if d < lo then lo
    else if hi > 0 && d > hi then hi
    else d
  }

  /** The value of the doubling loop after iterations i .. failCount - 1, with int64 wrap-around. */
  function DoubledFrom(d: int, max: int, i: int, failCount: int): int
    decreases failCount - i
  {
    if i < failCount && d < max then DoubledFrom(Wrap64(2 * d), max, i + 1, failCount) else d
  }

  /** The backoff before jitter, for failures that carry no other hint. */
  function Steps(p: Profile, failCount: int): int {
    Clamp(DoubledFrom(p.backoffBase, p.backoffMax, 1, failCount), p.backoffBase, p.backoffMax)
  }

  /** Half of the backoff is certain and the other half is spread by the draw r. */
  function Jittered(d: int, r: int): int {
    d / 2 + r
  }

  predicate IsDraw(d: int, r: int) {
    0 <= r <= d / 2
  }

  function BackoffFor(p: Profile, err: MintError, failCount: int, r: int): int {
    if err.InvalidClient? then p.authBackoff
    else if err.Upstream? && err.retryAfter > 0 then Clamp(err.retryAfter, p.backoffBase, p.backoffMax)
    else Jittered(Steps(p, failCount), r)
  }

  /** The first value the doubling reaches that is not below max, in unbounded arithmetic. */
  function Peak(d: int, max: int): int
    requires d > 0
    decreases max - d
  {
    if d < max then Peak(2 * d, max) else d
  }

  lemma {:induction false} PeakBelowTwiceMax(d: int, max: int)
    requires 0 < d <= max
    ensures max <= Peak(d, max) < 2 * max
    decreases max - d
  {
    if d < max && 2 * d <= max { PeakBelowTwiceMax(2 * d, max); }
  }

  /** Without overflow the loop computes the capped power of two. */
  lemma {:induction false} DoublingIsCapped(d: int, max: int, n: nat, i: int)
    requires 0 < d <= MAX_INT64 && 0 < max <= MAX_INT64 && Peak(d, max) <= MAX_INT64
    ensures Min(DoubledFrom(d, max, i, i + n), max) == Min(d * Pow2(n), max)
    ensures d <= DoubledFrom(d, max, i, i + n)
    decreases n
  {
    MulPow2(d, n);
    if n > 0 && d < max {
      PeakGrows(2 * d, max);
      WrapInRange(2 * d);
      DoublingIsCapped(2 * d, max, n - 1, i + 1);
    }
  }

  lemma MulPow2(d: int, n: nat)
    requires d > 0
    ensures d * Pow2(n) >= d
    ensures n == 0 ==> d * Pow2(n) == d
    ensures n > 0 ==> d * Pow2(n) == (2 * d) * Pow2(n - 1)
  {
    MulAtLeast(d, Pow2(n));
    if n > 0 {
      var k := Pow2(n - 1);
      assert Pow2(n) == 2 * k;
      assert d * (2 * k) == (2 * d) * k;
    }
  }

  /** Doubling a positive int64 is exact when it fits and otherwise comes out negative. */
  lemma WrapInRange(x: int)
    requires 0 <= x < TWO_64
    ensures Wrap64(x) == if x <= MAX_INT64 then x else x - TWO_64
  {
  }

  lemma MulAtLeast(d: int, k: int)
    requires d > 0 && k >= 1
    ensures d * k >= d
  {
    assert d * k == d + d * (k - 1);
    assert d * (k - 1) >= 0;
  }

  lemma {:induction false} PeakGrows(d: int, max: int)
    requires d > 0
    ensures d <= Peak(d, max)
    decreases max - d
  {
    if d < max { PeakGrows(2 * d, max); }
  }

  /** When the doubling overflows, some failure count falls back to a value below the base. */
  lemma {:induction false} OverflowWraps(d: int, max: int, i: int) returns (n: nat)
    requires 0 < d <= max <= MAX_INT64 && Peak(d, max) > MAX_INT64
    ensures n > 0 && DoubledFrom(d, max, i, i + n) < 0 && d * Pow2(n) > max
    decreases max - d
  {
    WrapInRange(2 * d);
    if 2 * d > MAX_INT64 {
      n := 1;
      MulPow2(2 * d, 0);
    } else {
      var m := OverflowWraps(2 * d, max, i + 1);
      n := m + 1;
    }
    MulPow2(d, n);
  }

  ghost predicate StepsAreCappedPowers(p: Profile) {
    forall failCount :: failCount >= 1 ==> Steps(p, failCount) == Min(p.backoffBase * Pow2(failCount - 1), p.backoffMax)
  }

  /** The backoff is the capped power of two for every failure count, exactly when the doubling stays within int64. */
  lemma BackoffIsExactIff(p: Profile)
    requires Validated(p)
    ensures StepsAreCappedPowers(p) <==> Peak(p.backoffBase, p.backoffMax) <= MAX_INT64
    ensures p.backoffMax <= 0x4000_0000_0000_0000 ==> StepsAreCappedPowers(p)
  {
    if p.backoffBase <= p.backoffMax { PeakBelowTwiceMax(p.backoffBase, p.backoffMax); }
    if Peak(p.backoffBase, p.backoffMax) <= MAX_INT64 {
      forall failCount | failCount >= 1
        ensures Steps(p, failCount) == Min(p.backoffBase * Pow2(failCount - 1), p.backoffMax)
      {
        DoublingIsCapped(p.backoffBase, p.backoffMax, failCount - 1, 1);
      }
    } else {
      var n := OverflowWraps(p.backoffBase, p.backoffMax, 1);
      assert Steps(p, n + 1) == p.backoffBase;
      assert p.backoffBase != p.backoffMax;
    }
  }

  /** A clamp stays within its bounds exactly when the bounds are in order; nothing in the configuration checks that. */
  lemma ClampStaysInRangeIff(lo: int, hi: int)
    requires hi > 0
    ensures (forall d :: lo <= Clamp(d, lo, hi) <= hi) <==> lo <= hi
  {
    if lo > hi { assert Clamp(lo - 1, lo, hi) == lo; }
  }

  /** The longest wait that a failure can impose, whatever the order of the bounds. */
  function LongestWait(p: Profile): int {
    Max(p.authBackoff, Max(p.backoffBase, p.backoffMax))
  }

  /**
   Every wait after a failure lies within its class's bounds. With the bounds out of order a
   hint waits the base if it is below it and the maximum otherwise.
   */
  lemma BackoffBounds(p: Profile, err: MintError, failCount: int, r: int)
    requires Validated(p) && failCount >= 1
    requires IsDraw(Steps(p, failCount), r)
    ensures var w := BackoffFor(p, err, failCount, r);
      && (err.InvalidClient? ==> w == p.authBackoff)
      && (err.Upstream? && err.retryAfter > 0 ==>
            if p.backoffBase <= p.backoffMax then p.backoffBase <= w <= p.backoffMax
            else w == if err.retryAfter < p.backoffBase then p.backoffBase else p.backoffMax)
      && (err.OtherFailure? || (err.Upstream? && err.retryAfter <= 0) ==>
            Steps(p, failCount) / 2 <= w <= Steps(p, failCount) <= p.backoffMax)
      && 0 <= w <= LongestWait(p)
  {
    if p.backoffBase > p.backoffMax { assert DoubledFrom(p.backoffBase, p.backoffMax, 1, failCount) == p.backoffBase; }
  }

  // ---------- One mint ----------

  datatype MintState = MintState(
    result: Option<Result>, lastMintAt: int, failCount: int, lastErr: Option<MintError>, nextAttemptAt: int)

  const NewState := MintState(None, 0, 0, None, 0)

  datatype Grant = Granted(resp: Response) | Refused(err: MintError)

  datatype Outcome = Token(result: Result) | InBackoff(last: Option<MintError>) | Throttled | GrantFailed(err: MintError)

  datatype Gate = ServeFresh | Closed(why: Outcome) | Open

  function GateOf(st: MintState, p: Profile, now: int): Gate {
    if st.result.Some? && Fresh(st.result.value, now) then ServeFresh
    else if now < st.nextAttemptAt then Closed(InBackoff(st.lastErr))
    else if st.lastMintAt != 0 && now - st.lastMintAt < p.minRefreshInterval then Closed(Throttled)
    else Open
  }

  /** Serve the cached token if it is still usable, else report why. */
  function Fallback(st: MintState, now: int, why: Outcome): Outcome {
    if st.result.Some? && Usable(st.result.value, now) then Token(st.result.value) else why
  }

  /** Whether this mint contacts the upstream. */
  predicate Attempts(st: MintState, p: Profile, now: int, allowed: bool) {
    GateOf(st, p, now).Open? && allowed
  }

  function Minted(st: MintState, p: Profile, now: int, allowed: bool, grant: Grant, r: int): (MintState, Outcome) {
    match GateOf(st, p, now)
    case ServeFresh => (st, if st.result.Some? then Token(st.result.value) else Throttled)
    case Closed(why) => (st, Fallback(st, now, why))
    case Open =>
      if !allowed then (st, Fallback(st, now, Throttled))
      else
        match grant
        case Refused(err) =>
          (st.(lastMintAt := now, failCount := st.failCount + 1, lastErr := Some(err),
               nextAttemptAt := now + BackoffFor(p, err, st.failCount + 1, r)),
           Fallback(st, now, GrantFailed(err)))
        case Granted(resp) =>
          var result := ResultFrom(now, p, resp);
          (MintState(Some(result), now, 0, None, 0), Token(result))
  }

  // ---------- Sweep ----------

  predicate Swept(st: MintState, p: Profile, now: int) {
    && st.lastMintAt != 0 && now - st.lastMintAt >= p.idleTTL
    && !(st.result.Some? && Usable(st.result.value, now))
  }

  // ---------- Keys ----------

  /** The text that is hashed into a map key; the hash itself is taken to be injective. */
  function CredentialKey(profile: string, clientID: string): string {
    profile + "\0" + clientID
  }

  /** The first profile name continues past a NUL as the second one. */
  predicate Shadows(p1: string, p2: string) {
    p1 + "\0" <= p2
  }

  lemma {:induction false} KeyOfLongerProfile(p1: string, c1: string, p2: string, c2: string)
    requires |p1| < |p2|
    ensures CredentialKey(p1, c1) == CredentialKey(p2, c2) <==>
            Shadows(p1, p2) && c1 == CredentialKey(p2[|p1| + 1..], c2)
  {
    var k1, k2 := CredentialKey(p1, c1), CredentialKey(p2, c2);
    assert k2[..|p1| + 1] == p2[..|p1| + 1];
    assert k2[|p1| + 1..] == CredentialKey(p2[|p1| + 1..], c2);
    assert k1[..|p1| + 1] == p1 + "\0" && k1[|p1| + 1..] == c1;
    assert k1 == k1[..|p1| + 1] + k1[|p1| + 1..] && k2 == k2[..|p1| + 1] + k2[|p1| + 1..];
  }

  /** Exactly which credentials share a key: the same one, or two whose profile names differ by a NUL continuation. */
  lemma CredentialKeysCollideIff(p1: string, c1: string, p2: string, c2: string)
    ensures CredentialKey(p1, c1) == CredentialKey(p2, c2) <==>
      || (p1 == p2 && c1 == c2)
      || (Shadows(p1, p2) && c1 == CredentialKey(p2[|p1| + 1..], c2))
      || (Shadows(p2, p1) && c2 == CredentialKey(p1[|p2| + 1..], c1))
  {
    if |p1| < |p2| {
      KeyOfLongerProfile(p1, c1, p2, c2);
    } else if |p2| < |p1| {
      KeyOfLongerProfile(p2, c2, p1, c1);
    } else {
      var k1, k2 := CredentialKey(p1, c1), CredentialKey(p2, c2);
      assert k1[..|p1|] == p1 && k2[..|p2|] == p2 && k1[|p1| + 1..] == c1 && k2[|p2| + 1..] == c2;
    }
  }

  /** Two profiles can have credentials with one key exactly when one name is the other continued past a NUL. */
  lemma ProfilesCollideIff(p1: string, p2: string)
    requires p1 != p2
    ensures (exists c1, c2 :: CredentialKey(p1, c1) == CredentialKey(p2, c2)) <==> Shadows(p1, p2) || Shadows(p2, p1)
  {
    if Shadows(p1, p2) {
      CredentialKeysCollideIff(p1, CredentialKey(p2[|p1| + 1..], ""), p2, "");
    }
    if Shadows(p2, p1) {
      CredentialKeysCollideIff(p1, "", p2, CredentialKey(p1[|p2| + 1..], ""));
    }
    forall c1, c2 | CredentialKey(p1, c1) == CredentialKey(p2, c2) ensures Shadows(p1, p2) || Shadows(p2, p1) {
      CredentialKeysCollideIff(p1, c1, p2, c2);
    }
  }

  lemma NulInAProfileNameSharesKeys()
    ensures CredentialKey("a\0b", "c") == CredentialKey("a", "b\0c")
  {
    assert CredentialKey("a\0b", "c") == "a\0b\0c" == CredentialKey("a", "b\0c");
  }

  // ---------- The object ----------

  /** One credential's entry in the state map. */
  datatype Entry = Entry(profileName: string, st: MintState)

  /** Entries that a sweep removes: idle and not usable, or of a profile that is gone. */
  predicate Droppable(profiles: map<string, Profile>, e: Entry, now: int) {
    e.profileName !in profiles || Swept(e.st, profiles[e.profileName], now)
  }

  function StateOf(state: map<string, Entry>, key: string): MintState {
    if key in state then state[key].st else NewState
  }

  function ProfileNameOf(state: map<string, Entry>, key: string, profile: string): string {
    if key in state then state[key].profileName else profile
  }

  lemma DropOne(state: map<string, Entry>, k: string)
    requires k in state
    ensures |state - {k}| == |state| - 1
  {
    var fewer := state - {k};
    assert fewer.Keys == state.Keys - {k};
  }

  class TokenMinter {
    const profiles: map<string, Profile>
    var state: map<string, Entry>

    constructor (profiles: map<string, Profile>)
      requires profiles != map[] && forall n :: n in profiles ==> Validated(profiles[n])
      ensures this.profiles == profiles && state == map[]
    {
      this.profiles, state := profiles, map[];
    }

    /** The loop of backoffFor, with the arithmetic of int64. */
    method ComputeBackoff(p: Profile, err: MintError, failCount: int, r: int) returns (wait: int)
      ensures wait == BackoffFor(p, err, failCount, r)
    {
      if err.InvalidClient? { return p.authBackoff; }
      if err.Upstream? && err.retryAfter > 0 { return Clamp(err.retryAfter, p.backoffBase, p.backoffMax); }
      var d := p.backoffBase;
      var i := 1;
      while i < failCount && d < p.backoffMax
        invariant DoubledFrom(p.backoffBase, p.backoffMax, 1, failCount) == DoubledFrom(d, p.backoffMax, i, failCount)
        decreases failCount - i
      {
        d := Wrap64(d * 2);
        i := i + 1;
      }
      d := Clamp(d, p.backoffBase, p.backoffMax);
      return d / 2 + r;
    }

    /** mintOne after stateFor: read the entry, gate, fall back, or ask the upstream and record the answer. */
    method MintOne(key: string, p: Profile, now: int, allowed: bool, grant: Grant, r: int) returns (out: Outcome)
      requires key in state
      modifies this
      ensures (StateOf(state, key), out) == Minted(old(state)[key].st, p, now, allowed, grant, r)
      ensures state == old(state)[key := Entry(old(state)[key].profileName, StateOf(state, key))]
    {
      var st := state[key].st;
      var isFresh := st.result.Some? && Fresh(st.result.value, now);
      var fallback := st.result.Some? && Usable(st.result.value, now);
      if isFresh { return Token(st.result.value); }
      var gate: Option<Outcome> := None;
      if now < st.nextAttemptAt {
        gate := Some(InBackoff(st.lastErr));
      } else if st.lastMintAt != 0 && now - st.lastMintAt < p.minRefreshInterval {
        gate := Some(Throttled);
      }
      if gate.Some? {
        if fallback { return Token(st.result.value); }
        return gate.value;
      }
      if !allowed {
        if fallback { return Token(st.result.value); }
        return Throttled;
      }
      match grant {
        case Refused(err) =>
          var failCount := st.failCount + 1;
          var wait := ComputeBackoff(p, err, failCount, r);
          var st' := st.(lastMintAt := now, failCount := failCount, lastErr := Some(err), nextAttemptAt := now + wait);
          state := state[key := state[key].(st := st')];
          if fallback { return Token(st.result.value); }
          return GrantFailed(err);
        case Granted(resp) =>
          var result := ResultFrom(now, p, resp);
          state := state[key := state[key].(st := MintState(Some(result), now, 0, None, 0))];
          return Token(result);
      }
    }

    /** An unknown profile is refused without effect; otherwise one credential is minted and no other is touched. */
    method Mint(profile: string, clientID: string, now: int, allowed: bool, grant: Grant, r: int)
      returns (known: bool, out: Outcome)
      modifies this
      ensures known <==> profile in profiles
      ensures !known ==> state == old(state)
      ensures known ==>
        var key := CredentialKey(profile, clientID);
        && (StateOf(state, key), out) == Minted(StateOf(old(state), key), profiles[profile], now, allowed, grant, r)
        && state == old(state)[key := Entry(ProfileNameOf(old(state), key, profile), StateOf(state, key))]
    {
      if profile !in profiles { return false, Throttled; }
      var key := CredentialKey(profile, clientID);
      if key !in state { state := state[key := Entry(profile, NewState)]; }
      out := MintOne(key, profiles[profile], now, allowed, grant, r);
      return true, out;
    }

    /** The sweep drops exactly the droppable entries and counts them. */
    method Sweep(now: int) returns (dropped: nat)
      modifies this
      ensures forall k :: k in state <==> k in old(state) && !Droppable(profiles, old(state)[k], now)
      ensures forall k :: k in state ==> state[k] == old(state)[k]
      ensures dropped == |old(state)| - |state|
    {
      dropped := 0;
      ghost var before := state;
      var todo := state.Keys;
      while todo != {}
        invariant todo <= state.Keys <= before.Keys
        invariant forall k :: k in state ==> state[k] == before[k]
        invariant forall k :: k in before && k !in todo ==> (k in state <==> !Droppable(profiles, before[k], now))
        invariant dropped == |before| - |state|
        decreases todo
      {
        var k :| k in todo;
        todo := todo - {k};
        if Droppable(profiles, state[k], now) {
          DropOne(state, k);
          state := state - {k};
          dropped := dropped + 1;
        }
      }
    }
  }
}
