/**
 The migration runner: one run as a loop over a tracking table, and any number of concurrent or
 interrupted runners. A database keeps the tracking table and, as history, the migrations whose
 Up has committed, oldest first. A transaction carries its own changes to both until it commits.
 */
module Migrate {
  import opened Prelude

  ghost predicate Distinct(names: seq<string>) {
    forall i, n :: 0 <= i < n < |names| ==> names[i] != names[n]
  }

  // ---------- One run ----------

  /** How far one turn of the loop gets. A lost commit takes effect although the runner sees an error. */
  datatype Fate = CheckFails | BeginFails | UpFails | InsertFails | CommitFails | CommitLost | Succeeds

  /** The log after running names from the i-th on, and whether the runner returns nil. */
  function Ran(log: seq<string>, names: seq<string>, fate: nat -> Fate, i: nat): (seq<string>, bool)
    requires i <= |names|
    decreases |names| - i
  {
    if i == |names| then (log, true)
    else if fate(i).CheckFails? then (log, false)
    else if names[i] in log then Ran(log, names, fate, i + 1)
    else match fate(i)
      case Succeeds => Ran(log + [names[i]], names, fate, i + 1)
      case CommitLost => (log + [names[i]], false)
      case _ => (log, false)
  }

  class Database {
    var applied: seq<string>
    var table: set<string>

    ghost predicate Valid()
      reads this
    {
      forall name :: name in table <==> name in applied
    }

    constructor ()
      ensures Valid() && applied == []
    {
      applied, table := [], {};
    }

    /** Up and INSERT in one transaction; a name that is already there violates the primary key. */
    method Apply(name: string, fate: Fate) returns (ok: bool)
      requires Valid()
      modifies this
      ensures Valid()
      ensures ok <==> fate.Succeeds? && name !in old(applied)
      ensures applied == if fate in {Succeeds, CommitLost} && name !in old(applied) then old(applied) + [name] else old(applied)
    {
      if fate in {CheckFails, BeginFails} { return false; }
      var ups, rows: set<string> := [], {};
      if fate.UpFails? { return false; }
      ups := ups + [name];
      if fate.InsertFails? || name in table { return false; }
      rows := rows + {name};
      if fate.CommitFails? { return false; }
      applied, table := applied + ups, table + rows;
      return fate.Succeeds?;
    }

    method RunMigrations(names: seq<string>, fate: nat -> Fate) returns (ok: bool)
      requires Valid()
      modifies this
      ensures Valid()
      ensures (applied, ok) == Ran(old(applied), names, fate, 0)
    {
      for i := 0 to |names|
        invariant Valid()
        invariant Ran(applied, names, fate, i) == Ran(old(applied), names, fate, 0)
      {
        if fate(i).CheckFails? { return false; }
        if names[i] !in table {
          var done := Apply(names[i], fate(i));
          if !done { return false; }
        }
      }
      return true;
    }
  }

  lemma PrefixLacks(all: seq<string>, n: nat, i: nat)
    requires Distinct(all) && n <= |all| && i < |all|
    ensures all[i] in all[..n] <==> i < n
  {
    if i < n { assert all[..n][i] == all[i]; }
  }

  /**
   A run of any prefix of the list, from any prefix already applied and however interrupted,
   leaves a prefix at least as long, and one that covers its own list when it returns nil.
   */
  lemma {:induction false} RanKeepsPrefix(all: seq<string>, n: nat, m: nat, fate: nat -> Fate, i: nat)
    requires Distinct(all) && i <= n <= |all| && i <= m <= |all|
    ensures var (log, ok) := Ran(all[..n], all[..m], fate, i);
      && n <= |log| <= |all| && log == all[..|log|]
      && (ok ==> m <= |log|)
      && (ok && n <= m ==> |log| == m)
    decreases m - i
  {
    if i < m {
      PrefixLacks(all, n, i);
      if i < n {
        RanKeepsPrefix(all, n, m, fate, i + 1);
      } else {
        assert all[..n] + [all[i]] == all[..n + 1];
        RanKeepsPrefix(all, n + 1, m, fate, i + 1);
      }
    }
  }

  /** Interrupted runs can be repeated: one undisturbed run applies exactly what is missing. */
  lemma RepeatedRunCompletes(all: seq<string>, n: nat, fate: nat -> Fate)
    requires Distinct(all) && n <= |all| && forall i :: fate(i).Succeeds?
    ensures Ran(all[..n], all, fate, 0) == (all, true)
  {
    UndisturbedRunSucceeds(all[..n], all, fate, 0);
    assert all[..|all|] == all;
    RanKeepsPrefix(all, n, |all|, fate, 0);
  }

  lemma {:induction false} UndisturbedRunSucceeds(log: seq<string>, names: seq<string>, fate: nat -> Fate, i: nat)
    requires i <= |names| && forall n :: fate(n).Succeeds?
    ensures Ran(log, names, fate, i).1
    decreases |names| - i
  {
    if i < |names| {
      UndisturbedRunSucceeds(if names[i] in log then log else log + [names[i]], names, fate, i + 1);
    }
  }

  /** The runner does not get past its i-th migration, with the first n already applied. */
  predicate Stops(fate: nat -> Fate, n: nat, i: nat) {
    fate(i).CheckFails? || (i >= n && !fate(i).Succeeds?)
  }

  lemma {:induction false} RanFrom(all: seq<string>, n: nat, m: nat, fate: nat -> Fate, i: nat, k: nat)
    requires Distinct(all) && n <= |all| && i <= k <= m <= |all|
    requires (forall l :: i <= l < k ==> !Stops(fate, n, l)) && (k < m ==> Stops(fate, n, k))
    ensures Ran(all[..Max(n, i)], all[..m], fate, i) ==
      if k == m then (all[..Max(n, m)], true)
      else (all[..if k >= n && fate(k).CommitLost? then k + 1 else Max(n, k)], false)
    decreases m - i
  {
    if i < m {
      PrefixLacks(all, Max(n, i), i);
      assert all[..m][i] == all[i];
      if i >= n { assert all[..i] + [all[i]] == all[..i + 1]; }
      if i < k {
        assert !Stops(fate, n, i);
        RanFrom(all, n, m, fate, i + 1, k);
      }
    }
  }

  /**
   Exactly how far a run gets. With the first n of the list applied, it applies the others in
   order up to the first migration whose check fails or that is new and does not succeed; that
   one still takes effect if only the answer to its commit was lost.
   */
  lemma RunGoesExactlySoFar(all: seq<string>, n: nat, m: nat, fate: nat -> Fate, k: nat)
    requires Distinct(all) && n <= |all| && k <= m <= |all|
    requires (forall l :: 0 <= l < k ==> !Stops(fate, n, l)) && (k < m ==> Stops(fate, n, k))
    ensures Ran(all[..n], all[..m], fate, 0) ==
      if k == m then (all[..Max(n, m)], true)
      else (all[..if k >= n && fate(k).CommitLost? then k + 1 else Max(n, k)], false)
  {
    RanFrom(all, n, m, fate, 0, k);
  }

  // ---------- Concurrent runners ----------

  /** Where a runner is with its i-th migration. */
  datatype Phase = Checking | Opening | Applying | Inserting | Holding | Returned(ok: bool)

  /** The uncommitted changes of a transaction: what it has run and which rows it has inserted. */
  datatype Tx = Tx(ups: seq<string>, rows: set<string>)

  const NO_TX := Tx([], {})

  /** A runner knows the first `count` migrations of the list. */
  datatype Runner = Runner(count: nat, i: nat, phase: Phase, tx: Tx)

  /** `table` holds the recorded names and `effects` the Ups that have taken effect, in order. */
  datatype State = State(all: seq<string>, table: set<string>, effects: seq<string>, runners: map<nat, Runner>)

  /** Steps of runner r: each is one statement. Fails is any error or crash; an open transaction is rolled back. */
  datatype Step =
    | Start(r: nat, count: nat)
    | Check(r: nat)
    | Begin(r: nat)
    | Up(r: nat)
    | Insert(r: nat)
    | Commit(r: nat, lost: bool)
    | Fails(r: nat)

  ghost predicate Init(s: State) {
    Distinct(s.all) && s.table == {} && s.effects == [] && s.runners == map[]
  }

  /** Some open transaction has inserted the name; another insert of it waits for that transaction's end. */
  ghost predicate Held(s: State, name: string) {
    exists r :: r in s.runners && name in s.runners[r].tx.rows
  }

  ghost predicate Enabled(s: State, e: Step) {
    if e.Start? then e.r !in s.runners && e.count <= |s.all|
    else
      && e.r in s.runners
      && var me := s.runners[e.r];
      match e
      case Check(_) => me.phase.Checking?
      case Begin(_) => me.phase.Opening?
      case Up(_) => me.phase.Applying?
      case Insert(_) => me.phase.Inserting? && me.i < |s.all| && !Held(s, s.all[me.i])
      case Commit(_, _) => me.phase.Holding?
      case _ => !me.phase.Returned?
  }

  function NameAt(all: seq<string>, i: nat): string {
    if i < |all| then all[i] else ""
  }

  /** Leave the migration with an error; an open transaction is rolled back. */
  function GivenUp(me: Runner): Runner {
    me.(phase := Returned(false), tx := NO_TX)
  }

  function Next(all: seq<string>, table: set<string>, me: Runner, e: Step): Runner {
    var name := NameAt(all, me.i);
    match e
    case Start(_, count) => Runner(count, 0, Checking, NO_TX)
    case Check(_) =>
      if me.i >= me.count then me.(phase := Returned(true))
      else if name in table then me.(i := me.i + 1)
      else me.(phase := Opening)
    case Begin(_) => me.(phase := Applying, tx := NO_TX)
    case Up(_) => me.(phase := Inserting, tx := me.tx.(ups := me.tx.ups + [name]))
    case Insert(_) => if name in table then GivenUp(me) else me.(phase := Holding, tx := me.tx.(rows := me.tx.rows + {name}))
    case Commit(_, lost) => if lost then GivenUp(me) else Runner(me.count, me.i + 1, Checking, NO_TX)
    case Fails(_) => GivenUp(me)
  }

  ghost function Apply(s: State, e: Step): State
    requires Enabled(s, e)
  {
    var me := if e.r in s.runners then s.runners[e.r] else Runner(0, 0, Checking, NO_TX);
    var tx := if e.Commit? then me.tx else NO_TX;
    State(s.all, s.table + tx.rows, s.effects + tx.ups, s.runners[e.r := Next(s.all, s.table, me, e)])
  }

  ghost predicate Run(tr: seq<State>, es: seq<Step>) {
    && |tr| == |es| + 1
    && Init(tr[0])
    && forall i {:trigger es[i]} :: 0 <= i < |es| ==> Enabled(tr[i], es[i]) && tr[i + 1] == Apply(tr[i], es[i])
  }

  predicate Working(p: Phase) {
    p.Opening? || p.Applying? || p.Inserting? || p.Holding?
  }

  /** A transaction holds exactly the changes for its runner's own migration that its phase has made. */
  ghost predicate TxSound(all: seq<string>, me: Runner) {
    var name := NameAt(all, me.i);
    me.tx == Tx(if me.phase.Inserting? || me.phase.Holding? then [name] else [],
                if me.phase.Holding? then {name} else {})
  }

  ghost predicate RunnerSound(all: seq<string>, effects: seq<string>, me: Runner) {
    && me.count <= |all| && me.i <= me.count && me.i <= |effects|
    && (Working(me.phase) ==> me.i < me.count)
    && (me.phase.Holding? ==> me.i == |effects|)
    && (me.phase == Returned(true) ==> me.i == me.count)
    && TxSound(all, me)
  }

  ghost predicate IsPrefix(all: seq<string>, effects: seq<string>) {
    Distinct(all) && |effects| <= |all| && effects == all[..|effects|]
  }

  /** The names in the tracking table are those of the Ups that have taken effect. */
  ghost predicate Agrees(table: set<string>, effects: seq<string>) {
    forall name :: name in table <==> name in effects
  }

  ghost predicate Inv(s: State) {
    && IsPrefix(s.all, s.effects) && Agrees(s.table, s.effects)
    && (forall r :: r in s.runners ==> RunnerSound(s.all, s.effects, s.runners[r]))
    && (forall r, q :: r in s.runners && q in s.runners && r != q ==>
          !(s.runners[r].phase.Holding? && s.runners[q].phase.Holding?))
  }

  /** A runner in front of an unrecorded name stands exactly at the end of what has taken effect. */
  lemma RecordedIff(all: seq<string>, table: set<string>, effects: seq<string>, i: nat)
    requires IsPrefix(all, effects) && Agrees(table, effects) && i < |all|
    ensures all[i] in table <==> i < |effects|
  {
    PrefixLacks(all, |effects|, i);
  }

  /** A commit extends table and effects alike, by the next migration of the list. */
  lemma CommitExtends(s: State, e: Step)
    requires Inv(s) && Enabled(s, e) && e.Commit?
    ensures var s', n := Apply(s, e), |s.effects|;
      n < |s.all| && s'.effects == s.effects + [s.all[n]] && s'.table == s.table + {s.all[n]}
    ensures IsPrefix(s.all, Apply(s, e).effects) && Agrees(Apply(s, e).table, Apply(s, e).effects)
  {
    assert RunnerSound(s.all, s.effects, s.runners[e.r]);
  }

  lemma NoCommitKeepsData(s: State, e: Step)
    requires Enabled(s, e) && !e.Commit?
    ensures Apply(s, e).table == s.table && Apply(s, e).effects == s.effects
  {
    assert s.effects + [] == s.effects;
  }

  /** A step keeps every other runner sound. */
  lemma OthersStaySound(s: State, e: Step, q: nat)
    requires Inv(s) && Enabled(s, e) && q in s.runners && q != e.r
    ensures var s' := Apply(s, e); RunnerSound(s'.all, s'.effects, s'.runners[q])
  {
    if e.Commit? {
      CommitExtends(s, e);
      assert s.runners[e.r].phase.Holding?;
    } else {
      NoCommitKeepsData(s, e);
    }
  }

  lemma ActorStaysSound(s: State, e: Step)
    requires Inv(s) && Enabled(s, e)
    ensures var s' := Apply(s, e); RunnerSound(s'.all, s'.effects, s'.runners[e.r])
  {
    if e.Commit? { CommitExtends(s, e); } else { NoCommitKeepsData(s, e); }
    if !e.Start? {
      var me := s.runners[e.r];
      assert RunnerSound(s.all, s.effects, me);
      if me.i < |s.all| { RecordedIff(s.all, s.table, s.effects, me.i); }
    }
  }

  /** Whoever holds an insert stands at the end of the effects, so an insert there waits for it. */
  lemma OneHolder(s: State, e: Step, q: nat)
    requires Inv(s) && Enabled(s, e) && q in s.runners && q != e.r
    ensures var s' := Apply(s, e); !(s'.runners[e.r].phase.Holding? && s'.runners[q].phase.Holding?)
  {
    if e.Insert? {
      var me := s.runners[e.r];
      RecordedIff(s.all, s.table, s.effects, me.i);
      assert RunnerSound(s.all, s.effects, s.runners[q]);
      assert s.all[me.i] !in s.runners[q].tx.rows;
    }
  }

  lemma StepKeepsInv(s: State, e: Step)
    requires Inv(s) && Enabled(s, e)
    ensures Inv(Apply(s, e))
  {
    if e.Commit? { CommitExtends(s, e); } else { NoCommitKeepsData(s, e); }
    ActorStaysSound(s, e);
    forall q | q in s.runners && q != e.r { OthersStaySound(s, e, q); }
    forall q | q in s.runners && q != e.r { OneHolder(s, e, q); }
  }

  lemma {:induction false} RunKeepsInv(tr: seq<State>, es: seq<Step>, i: nat)
    requires Run(tr, es) && i < |tr|
    ensures Inv(tr[i]) && tr[i].all == tr[0].all
  {
    if i > 0 {
      RunKeepsInv(tr, es, i - 1);
      StepKeepsInv(tr[i - 1], es[i - 1]);
    }
  }

  /**
   In every interleaving: the recorded names are exactly those of the Ups that have taken
   effect, which are a prefix of the list, in its order and each once, and a runner that has
   returned nil has left all of its own recorded.
   */
  lemma CommittedIsAPrefix(tr: seq<State>, es: seq<Step>, i: nat)
    requires Run(tr, es) && i < |tr|
    ensures var s := tr[i];
      && Agrees(s.table, s.effects)
      && |s.effects| <= |s.all| && s.effects == s.all[..|s.effects|] && Distinct(s.effects)
      && forall r, n :: r in s.runners && s.runners[r].phase == Returned(true) && 0 <= n < s.runners[r].count ==>
           n < |s.all| && s.all[n] in s.table
  {
    RunKeepsInv(tr, es, i);
    var s := tr[i];
    forall r, n | r in s.runners && s.runners[r].phase == Returned(true) && 0 <= n < s.runners[r].count
      ensures n < |s.all| && s.all[n] in s.table
    {
      assert RunnerSound(s.all, s.effects, s.runners[r]);
      RecordedIff(s.all, s.table, s.effects, n);
    }
  }

  /** What has taken effect stays, and so does its record. */
  lemma {:induction false} EffectsAreFinal(tr: seq<State>, es: seq<Step>, i: nat, n: nat)
    requires Run(tr, es) && i <= n < |tr|
    ensures tr[i].effects <= tr[n].effects && tr[i].table <= tr[n].table
    decreases n
  {
    if i < n {
      EffectsAreFinal(tr, es, i, n - 1);
      assert tr[n] == Apply(tr[n - 1], es[n - 1]);
    }
  }

  /** A commit takes effect for the runner's own migration, which was neither applied nor recorded before. */
  lemma EachCommitIsNew(tr: seq<State>, es: seq<Step>, i: nat)
    requires Run(tr, es) && i < |es| && es[i].Commit?
    ensures var s, me := tr[i], tr[i].runners[es[i].r];
      && me.i == |s.effects| < |s.all| && s.all[me.i] !in s.effects && s.all[me.i] !in s.table
      && tr[i + 1].effects == s.effects + [s.all[me.i]] && tr[i + 1].table == s.table + {s.all[me.i]}
  {
    RunKeepsInv(tr, es, i);
    var s := tr[i];
    assert RunnerSound(s.all, s.effects, s.runners[es[i].r]);
    CommitExtends(s, es[i]);
    RecordedIff(s.all, s.table, s.effects, |s.effects|);
  }

  // ---------- Any runner can finish ----------

  ghost predicate Reaches(s: State, es: seq<Step>, end: State)
    decreases |es|
  {
    if es == [] then s == end else Enabled(s, es[0]) && Reaches(Apply(s, es[0]), es[1..], end)
  }

  lemma ReachesFirst(s: State, e: Step, es: seq<Step>, end: State)
    requires Enabled(s, e) && Reaches(Apply(s, e), es, end)
    ensures Reaches(s, [e] + es, end)
  {
    assert ([e] + es)[1..] == es;
  }

  /** No transaction has an insert open. */
  ghost predicate Quiet(s: State) {
    forall r :: r in s.runners ==> !s.runners[r].phase.Holding?
  }

  ghost predicate ReadyToCheck(s: State, r: nat) {
    Inv(s) && Quiet(s) && r in s.runners && s.runners[r].phase.Checking?
  }

  /** Applying one new migration: the five statements of one turn of the loop. */
  lemma OneTurn(s: State, r: nat) returns (end: State)
    requires ReadyToCheck(s, r) && s.runners[r].i < s.runners[r].count && s.runners[r].i == |s.effects|
    ensures Reaches(s, [Check(r), Begin(r), Up(r), Insert(r), Commit(r, false)], end)
    ensures ReadyToCheck(end, r) && end.all == s.all && end.effects == s.effects + [s.all[s.runners[r].i]]
    ensures end.runners[r] == Runner(s.runners[r].count, s.runners[r].i + 1, Checking, NO_TX)
  {
    var me := s.runners[r];
    assert RunnerSound(s.all, s.effects, me);
    RecordedIff(s.all, s.table, s.effects, me.i);
    var s1 := Apply(s, Check(r));
    StepKeepsInv(s, Check(r));
    NoCommitKeepsData(s, Check(r));
    assert s1.runners[r] == me.(phase := Opening);
    end := Transacted(s1, r);
    var rest := [Begin(r), Up(r), Insert(r)] + [Commit(r, false)];
    ReachesFirst(s, Check(r), rest, end);
    assert [Check(r)] + rest == [Check(r), Begin(r), Up(r), Insert(r), Commit(r, false)];
  }

  /** The whole transaction. */
  lemma Transacted(s: State, r: nat) returns (end: State)
    requires Inv(s) && Quiet(s) && r in s.runners && s.runners[r].phase.Opening? && s.runners[r].i == |s.effects|
    ensures Reaches(s, [Begin(r), Up(r), Insert(r)] + [Commit(r, false)], end) && s.runners[r].i < |s.all|
    ensures ReadyToCheck(end, r) && end.all == s.all && end.effects == s.effects + [s.all[s.runners[r].i]]
    ensures end.runners[r] == Runner(s.runners[r].count, s.runners[r].i + 1, Checking, NO_TX)
  {
    var s3 := Prepared(s, r);
    end := Apply(s3, Commit(r, false));
    StepKeepsInv(s3, Commit(r, false));
    CommitExtends(s3, Commit(r, false));
    assert Reaches(end, [], end);
    ReachesFirst(s3, Commit(r, false), [], end);
    assert [Commit(r, false)] + [] == [Commit(r, false)];
    ThreeSteps(s, r, s3, [Commit(r, false)], end);
  }

  /** The transaction up to its insert. */
  lemma Prepared(s: State, r: nat) returns (s3: State)
    requires Inv(s) && Quiet(s) && r in s.runners && s.runners[r].phase.Opening? && s.runners[r].i == |s.effects|
    ensures Enabled(s, Begin(r)) && Enabled(Apply(s, Begin(r)), Up(r)) && Enabled(Apply(Apply(s, Begin(r)), Up(r)), Insert(r))
    ensures s3 == Apply(Apply(Apply(s, Begin(r)), Up(r)), Insert(r))
    ensures Inv(s3) && s3.all == s.all && s3.effects == s.effects && s3.table == s.table
    ensures r in s3.runners && s3.runners[r].phase.Holding?
    ensures s3.runners[r].i == s.runners[r].i && s3.runners[r].count == s.runners[r].count
    ensures forall q :: q in s3.runners && q != r ==> !s3.runners[q].phase.Holding?
  {
    var s1 := Apply(s, Begin(r));
    StepKeepsInv(s, Begin(r));
    NoCommitKeepsData(s, Begin(r));
    var s2 := Apply(s1, Up(r));
    StepKeepsInv(s1, Up(r));
    NoCommitKeepsData(s1, Up(r));
    assert RunnerSound(s2.all, s2.effects, s2.runners[r]);
    RecordedIff(s2.all, s2.table, s2.effects, s2.runners[r].i);
    forall q | q in s2.runners ensures s2.runners[q].tx.rows == {} { assert RunnerSound(s2.all, s2.effects, s2.runners[q]); }
    s3 := Apply(s2, Insert(r));
    StepKeepsInv(s2, Insert(r));
    NoCommitKeepsData(s2, Insert(r));
  }

  lemma ThreeSteps(s: State, r: nat, s3: State, es: seq<Step>, end: State)
    requires Enabled(s, Begin(r)) && Enabled(Apply(s, Begin(r)), Up(r)) && Enabled(Apply(Apply(s, Begin(r)), Up(r)), Insert(r))
    requires s3 == Apply(Apply(Apply(s, Begin(r)), Up(r)), Insert(r)) && Reaches(s3, es, end)
    ensures Reaches(s, [Begin(r), Up(r), Insert(r)] + es, end)
  {
    var s1 := Apply(s, Begin(r));
    ReachesFirst(Apply(s1, Up(r)), Insert(r), es, end);
    ReachesFirst(s1, Up(r), [Insert(r)] + es, end);
    ReachesFirst(s, Begin(r), [Up(r)] + ([Insert(r)] + es), end);
    assert [Begin(r)] + ([Up(r)] + ([Insert(r)] + es)) == [Begin(r), Up(r), Insert(r)] + es;
  }

  lemma {:induction false} ReachesAppend(s: State, a: seq<Step>, mid: State, b: seq<Step>, end: State)
    requires Reaches(s, a, mid) && Reaches(mid, b, end)
    ensures Reaches(s, a + b, end)
    decreases |a|
  {
    if a == [] {
      assert a + b == b;
    } else {
      ReachesAppend(Apply(s, a[0]), a[1..], mid, b, end);
      ReachesFirst(s, a[0], a[1..] + b, end);
      assert a + b == [a[0]] + (a[1..] + b);
    }
  }

  /**
   No state of the runners is a dead end: from any moment without an open insert, a runner that
   is left alone returns nil and leaves exactly the prefix that covers its list.
   */
  lemma {:induction false} RunnerCanFinish(s: State, r: nat) returns (es: seq<Step>, end: State)
    requires ReadyToCheck(s, r)
    ensures Reaches(s, es, end) && r in end.runners && end.runners[r].phase == Returned(true)
    ensures end.all == s.all && end.effects == s.all[..Max(|s.effects|, s.runners[r].count)]
    decreases s.runners[r].count - s.runners[r].i
  {
    var me := s.runners[r];
    assert RunnerSound(s.all, s.effects, me);
    if me.i == me.count {
      end := Apply(s, Check(r));
      NoCommitKeepsData(s, Check(r));
      ReachesFirst(s, Check(r), [], end);
      return [Check(r)] + [], end;
    }
    RecordedIff(s.all, s.table, s.effects, me.i);
    if me.i < |s.effects| {
      var next := Apply(s, Check(r));
      StepKeepsInv(s, Check(r));
      NoCommitKeepsData(s, Check(r));
      var rest;
      rest, end := RunnerCanFinish(next, r);
      ReachesFirst(s, Check(r), rest, end);
      es := [Check(r)] + rest;
    } else {
      var next := OneTurn(s, r);
      var rest;
      rest, end := RunnerCanFinish(next, r);
      ReachesAppend(s, [Check(r), Begin(r), Up(r), Insert(r), Commit(r, false)], next, rest, end);
      es := [Check(r), Begin(r), Up(r), Insert(r), Commit(r, false)] + rest;
    }
  }
}
