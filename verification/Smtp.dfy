/**
 SMTP submission: the staged session of one Send against a server that may answer anything or
 vanish at any stage, and what the outcome tells the caller about the message.
 */
module Smtp {
  import opened Prelude

  datatype Stage =
    | Prepare | Connect | Deadline | ImplicitTls | Greeting | StartTlsOffered | StartTls | LoginOffered | Auth
    | Mail | Rcpt | Data | Body | EndOfData | Quit

  /**
   What becomes of one exchange: the server decides on a reply that the client reads, decides on
   one that is lost or unreadable, or never gets the request.
   */
  datatype Fate = Heard(code: int) | Unheard(code: int) | Dropped

  datatype Mode = Implicit | ExplicitTls

  /** Everything outside the client: each stage's fate, what the server offers, its n-th reply during AUTH. */
  datatype World = World(fate: Stage -> Fate, wellFormed: bool, startTls: bool, login: bool, auth: nat -> Fate)

  datatype Outcome = Retryable | Rejected | Unknown

  datatype Result = Receipt | Failed(stage: Stage, outcome: Outcome, code: int)

  /** The error of a failed exchange: a parsed reply with a code, or anything else. */
  datatype Failure = Coded(code: int) | Uncoded

  // ---------- Classification ----------

  /** smtpFailure. */
  function Classified(stage: Stage, e: Failure, mayHaveAccepted: bool): (r: Result)
    ensures r.Failed? && (r.outcome == Unknown <==> e == Uncoded && mayHaveAccepted)
  {
    match e
    case Coded(code) => Failed(stage, if 400 <= code < 500 then Retryable else Rejected, code)
    case Uncoded => Failed(stage, if mayHaveAccepted then Unknown else Retryable, 0)
  }

  /** The replies that net/smtp takes for success. Stages without a reply succeed unless the link breaks. */
  predicate Expected(stage: Stage, code: int) {
    match stage
    case Greeting => code == 220
    case StartTls => code == 220
    case Mail => code == 250
    case Rcpt => 250 <= code < 260
    case Data => code == 354
    case EndOfData => code == 250
    case Quit => code == 221
    case _ => true
  }

  function ErrorOf(stage: Stage, f: Fate): Option<Failure> {
    match f
    case Heard(code) => if Expected(stage, code) then None else Some(Coded(code))
    case _ => Some(Uncoded)
  }

  // ---------- AUTH LOGIN ----------

  const CHALLENGE := 334
  const AUTHENTICATED := 235

  /** The exchange from the server's i-th reply on: two challenges are answered, a third is an error. */
  function AuthError(auth: nat -> Fate, i: nat): Option<Failure>
    requires i <= 2
    decreases 2 - i
  {
    match auth(i)
    case Heard(code) =>
      if code == AUTHENTICATED then None
      else if code != CHALLENGE then Some(Coded(code))
      else if i == 2 then Some(Uncoded)
      else AuthError(auth, i + 1)
    case _ => Some(Uncoded)
  }

  /** Authentication succeeds exactly when at most two challenges precede the server's agreement. */
  lemma AuthSucceedsIff(auth: nat -> Fate)
    ensures AuthError(auth, 0) == None <==>
            exists n: nat :: n <= 2 && auth(n) == Heard(235) && forall m: nat :: m < n ==> auth(m) == Heard(334)
  {
    if AuthError(auth, 0) == None {
      var n: nat := if auth(0) == Heard(AUTHENTICATED) then 0 else if auth(1) == Heard(AUTHENTICATED) then 1 else 2;
      assert auth(n) == Heard(AUTHENTICATED);
    }
  }

  /** How many challenges open the dialogue, of the at most two that are answered. */
  function Challenges(auth: nat -> Fate): (n: nat)
    ensures n <= 2
  {
    if auth(0) != Heard(334) then 0 else if auth(1) != Heard(334) then 1 else 2
  }

  class LoginAuth {
    const username: string
    const password: string
    const host: string
    var step: nat

    constructor (username: string, password: string, host: string)
      ensures this.username == username && this.password == password && this.host == host && step == 0
    {
      this.username, this.password, this.host, step := username, password, host, 0;
    }

    method Start(tls: bool, name: string) returns (ok: bool)
      ensures ok <==> tls && name == host
    {
      ok := tls && name == host;
    }

    /** The answer to a challenge, None when the exchange ends, or an error. */
    method Next(more: bool) returns (answer: Option<string>, ok: bool)
      modifies this
      ensures step == old(step) + if more then 1 else 0
      ensures ok <==> !more || old(step) < 2
      ensures answer == if more && old(step) == 0 then Some(username)
                        else if more && old(step) == 1 then Some(password) else None
    {
      if !more { return None, true; }
      step := step + 1;
      if step == 1 { return Some(username), true; }
      if step == 2 { return Some(password), true; }
      return None, false;
    }

    /**
     The dialogue that net/smtp drives. What reaches the wire is a prefix of user name, password,
     and nothing at all without TLS or to a host of another name.
     */
    method Exchange(tls: bool, name: string, auth: nat -> Fate) returns (e: Option<Failure>, sent: seq<string>)
      requires step == 0
      modifies this
      ensures tls && name == host ==> e == AuthError(auth, 0)
      ensures !(tls && name == host) ==> e == Some(Uncoded) && sent == []
      ensures tls && name == host ==> sent == [username, password][..Challenges(auth)]
      ensures sent <= [username, password]
    {
      sent := [];
      var ok := Start(tls, name);
      if !ok { return Some(Uncoded), []; }
      var i := 0;
      while true
        invariant 0 <= i <= 2 && step == i == |sent| && sent == [username, password][..i]
        invariant forall m: nat :: m < i ==> auth(m) == Heard(CHALLENGE)
        invariant AuthError(auth, 0) == AuthError(auth, i)
        decreases 2 - i
      {
        if !auth(i).Heard? { return Some(Uncoded), sent; }
        var code := auth(i).code;
        if code != CHALLENGE && code != AUTHENTICATED { return Some(Coded(code)), sent; }
        var answer, fine := Next(code == CHALLENGE);
        if !fine { return Some(Uncoded), sent; }
        if answer.None? { return None, sent; }
        sent := sent + [answer.value];
        i := i + 1;
      }
    }
  }

  // ---------- The session as a first failure ----------

  /** The stages up to the final reply, in order. */
  function Stages(mode: Mode): seq<Stage> {
    [Prepare, Connect, Deadline] + (if mode.Implicit? then [ImplicitTls] else []) + [Greeting]
    + (if mode.ExplicitTls? then [StartTlsOffered, StartTls] else [])
    + [LoginOffered, Auth, Mail, Rcpt, Data, Body, EndOfData]
  }

  function Concluded(stage: Stage, e: Option<Failure>): Result {
    if e.None? then Receipt else Classified(stage, e.value, stage in {Body, EndOfData})
  }

  function ExchangeError(w: World, stage: Stage): Option<Failure> {
    if stage == Auth then AuthError(w.auth, 0) else ErrorOf(stage, w.fate(stage))
  }

  function StageResult(w: World, stage: Stage): Result {
    match stage
    case Prepare => if w.wellFormed then Receipt else Failed(stage, Rejected, 0)
    case StartTlsOffered => if w.startTls then Receipt else Failed(stage, Rejected, 0)
    case LoginOffered => if w.login then Receipt else Failed(stage, Rejected, 0)
    case _ => Concluded(stage, ExchangeError(w, stage))
  }

  /** The failure of the first stage that fails, or a receipt. */
  function FirstFailure(w: World, stages: seq<Stage>): Result {
    if stages == [] then Receipt
    else
      var r := StageResult(w, stages[0]);
      if r.Failed? then r else FirstFailure(w, stages[1..])
  }

  function Session(w: World, mode: Mode): Result {
    FirstFailure(w, Stages(mode))
  }

  lemma {:induction false} FirstFailureAppend(w: World, a: seq<Stage>, b: seq<Stage>)
    ensures FirstFailure(w, a + b) == if FirstFailure(w, a).Failed? then FirstFailure(w, a) else FirstFailure(w, b)
  {
    if a == [] {
      assert a + b == b;
    } else {
      assert (a + b)[1..] == a[1..] + b;
      FirstFailureAppend(w, a[1..], b);
    }
  }

  // ---------- What the server does with the message ----------

  /** Every stage before the end of data went well for both sides. */
  predicate BodyDelivered(w: World, mode: Mode) {
    FirstFailure(w, Stages(mode)[..|Stages(mode)| - 1]).Receipt?
  }

  /** Section 4.2.1 of RFC 5321: a server that decides on a 2yz reply to the end of data has taken the message. */
  predicate Accepts(w: World, mode: Mode) {
    BodyDelivered(w, mode) && w.fate(EndOfData) != Dropped && 200 <= w.fate(EndOfData).code < 300
  }

  /** A 2yz reply other than 250, read by the client. Section 4.3.2 of RFC 5321 lists only 250 here. */
  predicate OddSuccess(f: Fate) {
    f.Heard? && 200 <= f.code < 300 && f.code != 250
  }

  lemma SessionSplits(w: World, mode: Mode)
    ensures BodyDelivered(w, mode) ==> Session(w, mode) == StageResult(w, EndOfData)
    ensures !BodyDelivered(w, mode) ==> Session(w, mode).Failed?
  {
    var all := Stages(mode);
    var init := all[..|all| - 1];
    assert all == init + [EndOfData];
    FirstFailureAppend(w, init, [EndOfData]);
    assert FirstFailure(w, [EndOfData][1..]).Receipt?;
  }

  /**
   What the outcome says about the message. A receipt means that the server took it. Rejected or
   Retryable means that it did not, except for exactly one family of servers: those that accept
   with a 2yz reply other than 250.
   */
  lemma OutcomeIsSoundIff(w: World, mode: Mode)
    ensures var r := Session(w, mode);
      && (r.Receipt? ==> Accepts(w, mode))
      && (r.Failed? && r.outcome != Unknown && Accepts(w, mode) <==>
          BodyDelivered(w, mode) && OddSuccess(w.fate(EndOfData)))
  {
    SessionSplits(w, mode);
  }

  /** Once the body is delivered, a final 251 is an acceptance that the client reports as a rejection. */
  lemma OtherSuccessIsMisread(w: World, mode: Mode)
    requires BodyDelivered(w, mode)
    ensures var odd := Ending(w, Heard(251));
      Accepts(odd, mode) && Session(odd, mode) == Failed(EndOfData, Rejected, 251)
  {
    EarlierStagesIgnoreTheEnding(w, Heard(251), mode);
    SessionSplits(Ending(w, Heard(251)), mode);
  }

  /** Against a server that only uses 250, accepted means Receipt or Unknown, and a definite failure means not accepted. */
  lemma CompliantServersAreNeverMisread(w: World, mode: Mode)
    requires !OddSuccess(w.fate(EndOfData))
    ensures var r := Session(w, mode);
      && (Accepts(w, mode) ==> r.Receipt? || r.outcome == Unknown)
      && (r.Failed? && r.outcome != Unknown ==> !Accepts(w, mode))
  {
    OutcomeIsSoundIff(w, mode);
  }

  lemma {:induction false} SameFailure(w: World, v: World, stages: seq<Stage>)
    requires forall s :: s in stages ==> StageResult(w, s) == StageResult(v, s)
    ensures FirstFailure(w, stages) == FirstFailure(v, stages)
  {
    if stages != [] { SameFailure(w, v, stages[1..]); }
  }

  function Ending(w: World, f: Fate): World {
    w.(fate := s => if s == EndOfData then f else w.fate(s))
  }

  /** How a session ends changes nothing about the stages before. */
  lemma EarlierStagesIgnoreTheEnding(w: World, f: Fate, mode: Mode)
    ensures BodyDelivered(Ending(w, f), mode) == BodyDelivered(w, mode)
  {
    SameFailure(w, Ending(w, f), Stages(mode)[..|Stages(mode)| - 1]);
  }

  /**
   Unknown cannot be avoided: once the body is delivered, a final reply that never comes looks
   the same to the client whether the server took the message or never saw its end.
   */
  lemma UnknownIsForced(w: World, mode: Mode)
    requires BodyDelivered(w, mode)
    ensures var lost, taken := Ending(w, Dropped), Ending(w, Unheard(250));
      && Session(lost, mode) == Session(taken, mode) == Failed(EndOfData, Unknown, 0)
      && !Accepts(lost, mode) && Accepts(taken, mode)
  {
    var lost, taken := Ending(w, Dropped), Ending(w, Unheard(250));
    EarlierStagesIgnoreTheEnding(w, Dropped, mode);
    EarlierStagesIgnoreTheEnding(w, Unheard(250), mode);
    SessionSplits(lost, mode);
    SessionSplits(taken, mode);
  }

  /** Unknown is reported only for a body or final reply that broke off without a reply. */
  lemma {:induction false} UnknownMeansNoReply(w: World, stages: seq<Stage>)
    requires FirstFailure(w, stages).Failed? && FirstFailure(w, stages).outcome == Unknown
    ensures var r := FirstFailure(w, stages); r.stage in {Body, EndOfData} && !w.fate(r.stage).Heard?
  {
    if StageResult(w, stages[0]).Receipt? { UnknownMeansNoReply(w, stages[1..]); }
  }

  /** The exchange ended with a 4yz reply, or without any reply where nothing can have been accepted. */
  predicate Transient(stage: Stage, e: Option<Failure>) {
    && e.Some?
    && (e.value.Coded? ==> 400 <= e.value.code < 500)
    && (e.value.Uncoded? ==> stage !in {Body, EndOfData})
  }

  /** A failure is retryable exactly when a real exchange failed for a passing reason; its code is the server's. */
  lemma {:induction false} RetryableMeansTransient(w: World, stages: seq<Stage>)
    requires FirstFailure(w, stages).Failed?
    ensures var r := FirstFailure(w, stages);
      && r.stage in stages
      && (r.outcome == Retryable <==>
          r.stage !in {Prepare, StartTlsOffered, LoginOffered} && Transient(r.stage, ExchangeError(w, r.stage)))
      && (r.code != 0 ==> ExchangeError(w, r.stage) == Some(Coded(r.code)))
  {
    if StageResult(w, stages[0]).Receipt? { RetryableMeansTransient(w, stages[1..]); }
  }

  /** What the client reads at a stage; the login ends with the first reply after the answered challenges. */
  function ReplyAt(w: World, stage: Stage): Fate {
    if stage == Auth then w.auth(Challenges(w.auth)) else w.fate(stage)
  }

  /**
   The outcome of a failed exchange follows from what was read: a reply gives its code, retryable
   exactly for 4yz; no reply, or a challenge too many, is unknown from the body on and retryable
   before it. Checks before any exchange reject.
   */
  lemma {:induction false} FailureFollowsTheReply(w: World, stages: seq<Stage>)
    requires FirstFailure(w, stages).Failed?
    ensures var r := FirstFailure(w, stages);
      var f := ReplyAt(w, r.stage);
      if r.stage in {Prepare, StartTlsOffered, LoginOffered} then r.outcome == Rejected && r.code == 0
      else if f.Heard? && !(r.stage == Auth && f == Heard(334)) then
        r.code == f.code && r.outcome == if 400 <= f.code <= 499 then Retryable else Rejected
      else r.code == 0 && r.outcome == if r.stage in {Body, EndOfData} then Unknown else Retryable
  {
    if StageResult(w, stages[0]).Receipt? { FailureFollowsTheReply(w, stages[1..]); }
  }

  // ---------- The session as the client runs it ----------

  /** The server's side of one session: which messages it took and what it was told during AUTH. */
  class Server {
    const world: World
    var accepted: bool
    var secrets: seq<string>
    var tls: bool

    constructor (world: World)
      ensures this.world == world && !accepted && secrets == [] && !tls
    {
      this.world, accepted, secrets, tls := world, false, [], false;
    }

    /** One exchange. The server takes the message when it decides on a 2yz reply to the end of data. */
    method Do(stage: Stage) returns (e: Option<Failure>)
      modifies this
      ensures e == ErrorOf(stage, world.fate(stage))
      ensures secrets == old(secrets) && tls == (old(tls) || (stage in {ImplicitTls, StartTls} && e.None?))
      ensures accepted == (old(accepted) ||
                           (stage == EndOfData && world.fate(stage) != Dropped && 200 <= world.fate(stage).code < 300))
    {
      var f := world.fate(stage);
      if stage == EndOfData && f != Dropped && 200 <= f.code < 300 { accepted := true; }
      e := ErrorOf(stage, f);
      if stage in {ImplicitTls, StartTls} && e.None? { tls := true; }
    }
  }

  /** Running a prefix of the stages without a failure leaves the rest of the session to decide. */
  lemma Passed(w: World, stage: Stage, rest: seq<Stage>)
    ensures FirstFailure(w, [stage] + rest) ==
            if StageResult(w, stage).Failed? then StageResult(w, stage) else FirstFailure(w, rest)
  {
    assert ([stage] + rest)[1..] == rest;
  }

  /** Connection set-up until the client may authenticate. */
  method Open(mode: Mode, server: Server) returns (r: Result)
    requires !server.accepted && server.secrets == [] && !server.tls
    modifies server
    ensures r == FirstFailure(server.world, Opening(mode))
    ensures !server.accepted && server.secrets == [] && (r.Receipt? ==> server.tls)
  {
    var w := server.world;
    OpeningUnfolds(w, mode);
    if !w.wellFormed { return Failed(Prepare, Rejected, 0); }
    var e := server.Do(Connect);
    if e.Some? { return Classified(Connect, e.value, false); }
    e := server.Do(Deadline);
    if e.Some? { return Classified(Deadline, e.value, false); }
    if mode.Implicit? {
      e := server.Do(ImplicitTls);
      if e.Some? { return Classified(ImplicitTls, e.value, false); }
    }
    e := server.Do(Greeting);
    if e.Some? { return Classified(Greeting, e.value, false); }
    if mode.ExplicitTls? {
      if !w.startTls { return Failed(StartTlsOffered, Rejected, 0); }
      e := server.Do(StartTls);
      if e.Some? { return Classified(StartTls, e.value, false); }
    }
    if !w.login { return Failed(LoginOffered, Rejected, 0); }
    return Receipt;
  }

  function Opening(mode: Mode): seq<Stage> {
    if mode.Implicit? then [Prepare, Connect, Deadline, ImplicitTls, Greeting, LoginOffered]
    else [Prepare, Connect, Deadline, Greeting, StartTlsOffered, StartTls, LoginOffered]
  }

  const TRANSACTION := [Mail, Rcpt, Data, Body, EndOfData]

  /** The failing stage of the opening, without recursion. */
  lemma OpeningUnfolds(w: World, mode: Mode)
    ensures FirstFailure(w, Opening(mode)) ==
            if StageResult(w, Prepare).Failed? then StageResult(w, Prepare)
            else if StageResult(w, Connect).Failed? then StageResult(w, Connect)
            else if StageResult(w, Deadline).Failed? then StageResult(w, Deadline)
            else if mode.Implicit? && StageResult(w, ImplicitTls).Failed? then StageResult(w, ImplicitTls)
            else if StageResult(w, Greeting).Failed? then StageResult(w, Greeting)
            else if mode.ExplicitTls? && StageResult(w, StartTlsOffered).Failed? then StageResult(w, StartTlsOffered)
            else if mode.ExplicitTls? && StageResult(w, StartTls).Failed? then StageResult(w, StartTls)
            else StageResult(w, LoginOffered)
  {
    var tail := if mode.Implicit? then [ImplicitTls, Greeting, LoginOffered]
                else [Greeting, StartTlsOffered, StartTls, LoginOffered];
    assert Opening(mode) == [Prepare] + ([Connect] + ([Deadline] + tail));
    Passed(w, Prepare, [Connect] + ([Deadline] + tail));
    Passed(w, Connect, [Deadline] + tail);
    Passed(w, Deadline, tail);
    assert [LoginOffered] == [LoginOffered] + [];
    Passed(w, LoginOffered, []);
    if mode.Implicit? {
      assert tail == [ImplicitTls] + ([Greeting] + [LoginOffered]);
      Passed(w, ImplicitTls, [Greeting] + [LoginOffered]);
      Passed(w, Greeting, [LoginOffered]);
    } else {
      assert tail == [Greeting] + ([StartTlsOffered] + ([StartTls] + [LoginOffered]));
      Passed(w, Greeting, [StartTlsOffered] + ([StartTls] + [LoginOffered]));
      Passed(w, StartTlsOffered, [StartTls] + [LoginOffered]);
      Passed(w, StartTls, [LoginOffered]);
    }
  }

  /** The mail transaction. */
  method Submit(server: Server) returns (r: Result)
    requires !server.accepted
    modifies server
    ensures r == FirstFailure(server.world, TRANSACTION)
    ensures server.secrets == old(server.secrets) && server.tls == old(server.tls)
    ensures server.accepted <==>
            FirstFailure(server.world, TRANSACTION[..4]).Receipt? &&
            server.world.fate(EndOfData) != Dropped && 200 <= server.world.fate(EndOfData).code < 300
  {
    var w := server.world;
    FirstFailureAppend(w, TRANSACTION[..4], [EndOfData]);
    assert TRANSACTION == TRANSACTION[..4] + [EndOfData];
    TransactionUnfolds(w);
    var e := server.Do(Mail);
    if e.Some? { return Classified(Mail, e.value, false); }
    e := server.Do(Rcpt);
    if e.Some? { return Classified(Rcpt, e.value, false); }
    e := server.Do(Data);
    if e.Some? { return Classified(Data, e.value, false); }
    e := server.Do(Body);
    if e.Some? { return Classified(Body, e.value, true); }
    e := server.Do(EndOfData);
    if e.Some? { return Classified(EndOfData, e.value, true); }
    return Receipt;
  }

  lemma TransactionUnfolds(w: World)
    ensures FirstFailure(w, TRANSACTION[..4]) ==
            if StageResult(w, Mail).Failed? then StageResult(w, Mail)
            else if StageResult(w, Rcpt).Failed? then StageResult(w, Rcpt)
            else if StageResult(w, Data).Failed? then StageResult(w, Data)
            else StageResult(w, Body)
    ensures FirstFailure(w, [EndOfData]) == StageResult(w, EndOfData)
  {
    assert TRANSACTION[..4] == [Mail] + ([Rcpt] + ([Data] + ([Body] + [])));
    Passed(w, Mail, [Rcpt] + ([Data] + ([Body] + [])));
    Passed(w, Rcpt, [Data] + ([Body] + []));
    Passed(w, Data, [Body] + []);
    Passed(w, Body, []);
    assert [EndOfData] == [EndOfData] + [];
    Passed(w, EndOfData, []);
  }

  /** The stages are opening, authentication and transaction. */
  lemma StagesSplit(mode: Mode)
    ensures Stages(mode) == Opening(mode) + ([Auth] + TRANSACTION)
    ensures Stages(mode)[..|Stages(mode)| - 1] == Opening(mode) + ([Auth] + TRANSACTION[..4])
  {
    assert TRANSACTION[..4] == [Mail, Rcpt, Data, Body];
    if mode.Implicit? {
      assert Stages(mode) == [Prepare, Connect, Deadline, ImplicitTls, Greeting, LoginOffered, Auth, Mail, Rcpt, Data, Body, EndOfData];
    } else {
      assert Stages(mode) ==
             [Prepare, Connect, Deadline, Greeting, StartTlsOffered, StartTls, LoginOffered, Auth, Mail, Rcpt, Data, Body, EndOfData];
    }
  }

  /** And so is the session. */
  lemma SessionParts(w: World, mode: Mode)
    ensures Session(w, mode) ==
            if FirstFailure(w, Opening(mode)).Failed? then FirstFailure(w, Opening(mode))
            else if StageResult(w, Auth).Failed? then StageResult(w, Auth)
            else FirstFailure(w, TRANSACTION)
    ensures BodyDelivered(w, mode) <==>
            FirstFailure(w, Opening(mode)).Receipt? && StageResult(w, Auth).Receipt? &&
            FirstFailure(w, TRANSACTION[..4]).Receipt?
  {
    StagesSplit(mode);
    FirstFailureAppend(w, Opening(mode), [Auth] + TRANSACTION);
    Passed(w, Auth, TRANSACTION);
    FirstFailureAppend(w, Opening(mode), [Auth] + TRANSACTION[..4]);
    Passed(w, Auth, TRANSACTION[..4]);
  }

  /**
   Send. The result is that of the session, the server's final state is exactly Accepts, and a
   failing QUIT changes neither. Credentials reach the server only over TLS, user name first,
   password second, nothing more.
   */
  method Send(mode: Mode, username: string, password: string, host: string, server: Server) returns (r: Result)
    requires !server.accepted && server.secrets == [] && !server.tls
    modifies server
    ensures r == Session(server.world, mode)
    ensures server.accepted <==> Accepts(server.world, mode)
    ensures server.secrets == if FirstFailure(server.world, Opening(mode)).Failed? then []
                              else [username, password][..Challenges(server.world.auth)]
    ensures server.secrets != [] ==> server.tls
  {
    var w := server.world;
    SessionParts(w, mode);
    r := Open(mode, server);
    if r.Failed? { return; }
    var a := new LoginAuth(username, password, host);
    var e, sent := a.Exchange(server.tls, host, w.auth);
    server.secrets := sent;
    if e.Some? { return Classified(Auth, e.value, false); }
    r := Submit(server);
    if r.Failed? { return; }
    var quit := server.Do(Quit);
    return Receipt;
  }

  lemma OpeningSucceedsIff(w: World, mode: Mode)
    ensures FirstFailure(w, Opening(mode)).Receipt? <==>
      && w.wellFormed && w.fate(Connect).Heard? && w.fate(Deadline).Heard?
      && (mode.Implicit? ==> w.fate(ImplicitTls).Heard?)
      && w.fate(Greeting) == Heard(220)
      && (mode.ExplicitTls? ==> w.startTls && w.fate(StartTls) == Heard(220))
      && w.login
  {
    OpeningUnfolds(w, mode);
  }

  lemma TransactionSucceedsIff(w: World)
    ensures FirstFailure(w, TRANSACTION).Receipt? <==>
      && w.fate(Mail) == Heard(250) && w.fate(Rcpt).Heard? && 250 <= w.fate(Rcpt).code <= 259
      && w.fate(Data) == Heard(354) && w.fate(Body).Heard? && w.fate(EndOfData) == Heard(250)
  {
    TransactionUnfolds(w);
    assert TRANSACTION == TRANSACTION[..4] + [EndOfData];
    FirstFailureAppend(w, TRANSACTION[..4], [EndOfData]);
  }

  /** A receipt takes exactly these replies, stage by stage. */
  lemma ReceiptIff(w: World, mode: Mode)
    ensures Session(w, mode).Receipt? <==>
      && w.wellFormed && w.fate(Connect).Heard? && w.fate(Deadline).Heard?
      && (mode.Implicit? ==> w.fate(ImplicitTls).Heard?)
      && w.fate(Greeting) == Heard(220)
      && (mode.ExplicitTls? ==> w.startTls && w.fate(StartTls) == Heard(220))
      && w.login && AuthError(w.auth, 0) == None
      && w.fate(Mail) == Heard(250) && w.fate(Rcpt).Heard? && 250 <= w.fate(Rcpt).code <= 259
      && w.fate(Data) == Heard(354) && w.fate(Body).Heard? && w.fate(EndOfData) == Heard(250)
  {
    SessionParts(w, mode);
    OpeningSucceedsIff(w, mode);
    TransactionSucceedsIff(w);
  }

  /** A failed session reports its first failing stage: all stages before it went well. */
  lemma {:induction false} FailureIsTheFirst(w: World, stages: seq<Stage>) returns (n: nat)
    requires FirstFailure(w, stages).Failed?
    ensures n < |stages| && stages[n] == FirstFailure(w, stages).stage
    ensures StageResult(w, stages[n]) == FirstFailure(w, stages)
    ensures forall m :: 0 <= m < n ==> StageResult(w, stages[m]).Receipt?
  {
    if StageResult(w, stages[0]).Failed? {
      n := 0;
    } else {
      var m := FailureIsTheFirst(w, stages[1..]);
      n := m + 1;
    }
  }

  /** The order of the stages: TLS before the login, the login before any mail command, the body last but one. */
  lemma StagesAreOrdered(mode: Mode)
    ensures Stages(mode) ==
      if mode.Implicit? then
        [Prepare, Connect, Deadline, ImplicitTls, Greeting, LoginOffered, Auth, Mail, Rcpt, Data, Body, EndOfData]
      else
        [Prepare, Connect, Deadline, Greeting, StartTlsOffered, StartTls, LoginOffered, Auth, Mail, Rcpt, Data, Body, EndOfData]
  {
  }
}
