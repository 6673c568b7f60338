/**
 Whole runs of one account manager: any requests, in any order, with storage
 failing at any commit, a clock that does not run backwards and fresh tokens.
 */
module AuthRuns {

  import opened Basics
  import opened AuthStore
  import opened AuthManager

  datatype Op =
    | Create(name: string, role: Role, secret: nat)
    | Assign(name: string, role: Role)
    | Delete(name: string)
    | Switch(name: string, disabled: bool)
    | Reset(name: string, secret: nat)
    | Change(name: string, matches: bool, differs: bool, secret: nat, token: Key)
    | Enter(name: string, matches: bool, rehashed: Option<nat>, token: Key)
    | Validate(key: Key)
    | Leave(key: Key)

  datatype Request = Request(op: Op, now: real, commits: bool)

  /** The token a request would hand out. */
  function Offered(op: Op): set<Key> {
    if op.Change? || op.Enter? then {op.token} else {}
  }

  // ---------------------------------------------------------------- what a request does to a lock

  /** A login that is not going to be let in, whose failure the database takes down. */
  predicate WrongTry(r: Request, db: Db, name: string)
    requires name in db.users
  {
    r.op.Enter? && r.op.name == name && r.commits && (db.users[name].disabled || !r.op.matches)
  }

  /** A login as this account, a new password for it, or its being made anew or enabled. */
  predicate Resets(r: Request, accepted: bool, name: string) {
    && accepted && !r.op.Validate? && !r.op.Leave? && r.op.name == name
    && !r.op.Assign? && !(r.op.Switch? && r.op.disabled)
  }

  /** A password is checked, and found wrong, unless the account is locked. */
  predicate FailedCheck(r: Request, db: Db, name: string)
    requires name in db.users
  {
    WrongTry(r, db, name) && !Lockout.IsLocked(db.users[name].lock.lockedUntil, r.now)
  }

  /** A reset clears the lock, a failed check raises it, and nothing else changes it. */
  ghost predicate LockRule(a: Db, b: Db, r: Request, accepted: bool) {
    && (forall name :: name in b.users && Resets(r, accepted, name) ==> b.users[name].lock == Lockout.Account(0, None))
    && (forall name :: name in a.users && !Resets(r, accepted, name) ==>
          && name in b.users
          && b.users[name].lock ==
               if FailedCheck(r, a, name) then Lockout.FailedOnce(a.users[name].lock, r.now) else a.users[name].lock)
  }

  // ---------------------------------------------------------------- serving one request

  /** An administrator adds an account. */
  method Enroll(m: Manager, r: Request) returns (accepted: bool)
    requires m.Inv() && r.op.Create?
    modifies m`db, m`disk
    ensures m.Inv() && Evolves(m.limits, old(m.db), m.db, r.now, {})
    ensures LockRule(old(m.db), m.db, r, accepted)
  {
    var outcome := m.CreateUser(r.op.name, r.op.role, r.op.secret, r.now, r.commits);
    accepted := outcome.Done?;
  }

  /** An administrator removes one. */
  method Dismiss(m: Manager, r: Request) returns (accepted: bool)
    requires m.Inv() && r.op.Delete?
    modifies m`db, m`disk
    ensures m.Inv() && Evolves(m.limits, old(m.db), m.db, r.now, {})
    ensures LockRule(old(m.db), m.db, r, accepted)
  {
    var outcome := m.DeleteUser(r.op.name, r.now, r.commits);
    accepted := outcome.Done?;
  }

  /** Requests of an administrator that change one account. */
  method Administer(m: Manager, r: Request) returns (accepted: bool)
    requires m.Inv() && (r.op.Assign? || r.op.Switch? || r.op.Reset?)
    modifies m`db, m`disk
    ensures m.Inv() && Evolves(m.limits, old(m.db), m.db, r.now, {})
    ensures LockRule(old(m.db), m.db, r, accepted)
  {
    var outcome;
    if r.op.Assign? {
      outcome := m.SetRole(r.op.name, r.op.role, r.now, r.commits);
    } else if r.op.Switch? {
      outcome := m.SetDisabled(r.op.name, r.op.disabled, r.now, r.commits);
    } else {
      outcome := m.SetPassword(r.op.name, r.op.secret, r.now, r.commits);
    }
    accepted := outcome.Done?;
  }

  /** A request that changes one account, whose own lock is as it should be. */
  lemma OneLock(a: Db, b: Db, r: Request, accepted: bool, name: string, u: User)
    requires !r.op.Validate? && !r.op.Leave? && r.op.name == name && name in a.users && b.users == a.users[name := u]
    requires u.lock ==
      if Resets(r, accepted, name) then Lockout.Account(0, None)
      else if FailedCheck(r, a, name) then Lockout.FailedOnce(a.users[name].lock, r.now) else a.users[name].lock
    ensures LockRule(a, b, r, accepted)
  {
  }

  lemma SameLocks(a: Db, r: Request)
    requires forall name :: name in a.users ==> !FailedCheck(r, a, name)
    ensures LockRule(a, a, r, false)
  {
  }

  /** A password change hands out a token when it succeeds. */
  method NewPassword(m: Manager, r: Request) returns (accepted: bool)
    requires m.Inv() && r.op.Change? && r.op.token !in m.issued
    modifies m
    ensures m.Inv() && Evolves(m.limits, old(m.db), m.db, r.now, if accepted then {r.op.token} else {})
    ensures m.issued == old(m.issued) + if accepted then {r.op.token} else {}
    ensures LockRule(old(m.db), m.db, r, accepted)
  {
    ghost var before := m.db;
    var outcome := m.ChangePassword(r.op.name, r.op.matches, r.op.differs, r.op.secret, r.now, r.op.token, r.commits);
    accepted := outcome.Done?;
    if accepted {
      OneLock(before, m.db, r, accepted, r.op.name, m.db.users[r.op.name]);
    } else {
      SameLocks(before, r);
    }
  }

  /** So does a login. */
  method SignIn(m: Manager, r: Request) returns (accepted: bool)
    requires m.Inv() && r.op.Enter? && r.op.token !in m.issued
    modifies m
    ensures m.Inv() && Evolves(m.limits, old(m.db), m.db, r.now, if accepted then {r.op.token} else {})
    ensures m.issued == old(m.issued) + if accepted then {r.op.token} else {}
    ensures LockRule(old(m.db), m.db, r, accepted)
  {
    ghost var before := m.db;
    var outcome := m.Login(r.op.name, r.op.matches, r.op.rehashed, r.now, r.op.token, r.commits);
    accepted := outcome.Done?;
    if accepted || (outcome == Failed(LoginFailed) && r.op.name in before.users) {
      OneLock(before, m.db, r, accepted, r.op.name, m.db.users[r.op.name]);
    } else {
      SameLocks(before, r);
    }
  }

  /** Requests that present a token. */
  method Present(m: Manager, r: Request) returns (accepted: bool)
    requires m.Inv() && (r.op.Validate? || r.op.Leave?)
    modifies m`db, m`disk
    ensures m.Inv() && Evolves(m.limits, old(m.db), m.db, r.now, {})
    ensures r.op.Validate? && accepted ==> Live(m.limits, old(m.db), r.op.key, r.now)
    ensures r.op.Validate? && r.commits && Live(m.limits, old(m.db), r.op.key, r.now) ==> accepted
    ensures LockRule(old(m.db), m.db, r, accepted)
  {
    if r.op.Validate? {
      accepted := m.ValidateSession(r.op.key, r.now, r.commits);
    } else {
      var outcome, hit := m.Logout(r.op.key, r.now, r.commits);
      accepted := outcome.Done? && hit;
    }
  }

  method Perform(m: Manager, r: Request) returns (accepted: bool, ghost given: set<Key>)
    requires m.Inv() && Offered(r.op) !! m.issued
    modifies m
    ensures m.Inv() && Evolves(m.limits, old(m.db), m.db, r.now, given)
    ensures given <= Offered(r.op) && m.issued == old(m.issued) + given
    ensures r.op.Validate? && accepted ==> Live(m.limits, old(m.db), r.op.key, r.now)
    ensures r.op.Validate? && r.commits && Live(m.limits, old(m.db), r.op.key, r.now) ==> accepted
    ensures LockRule(old(m.db), m.db, r, accepted)
  {
    given := {};
    if r.op.Create? {
      accepted := Enroll(m, r);
    } else if r.op.Delete? {
      accepted := Dismiss(m, r);
    } else if r.op.Assign? || r.op.Switch? || r.op.Reset? {
      accepted := Administer(m, r);
    } else if r.op.Change? {
      accepted := NewPassword(m, r);
      given := if accepted then {r.op.token} else {};
    } else if r.op.Enter? {
      accepted := SignIn(m, r);
      given := if accepted then {r.op.token} else {};
    } else {
      accepted := Present(m, r);
    }
  }

  /** Requests in the order they are made, whose tokens are new and all different. */
  ghost predicate Proper(rs: seq<Request>, issued: set<Key>) {
    InOrder(rs) && AllDifferent(rs) && FreshFrom(rs, 0, issued)
  }

  ghost predicate InOrder(rs: seq<Request>) {
    forall i, j :: 0 <= i < j < |rs| ==> rs[i].now <= rs[j].now
  }

  ghost predicate AllDifferent(rs: seq<Request>) {
    forall i, j :: 0 <= i < j < |rs| ==> Offered(rs[i].op) !! Offered(rs[j].op)
  }

  ghost predicate FreshFrom(rs: seq<Request>, n: nat, issued: set<Key>) {
    forall i :: n <= i < |rs| ==> Offered(rs[i].op) !! issued
  }

  lemma StillFresh(rs: seq<Request>, n: nat, issued: set<Key>, issued': set<Key>)
    requires n < |rs| && AllDifferent(rs) && FreshFrom(rs, n, issued) && issued' <= issued + Offered(rs[n].op)
    ensures FreshFrom(rs, n + 1, issued')
  {
    forall i | n + 1 <= i < |rs| ensures Offered(rs[i].op) !! issued' {
      assert Offered(rs[n].op) !! Offered(rs[i].op);
    }
  }

  /** One request served: the store before and after, the tokens given out, and the answer. */
  datatype Moment = Moment(before: Db, r: Request, given: set<Key>, answer: bool, after: Db)

  ghost predicate Faithful(l: Limits, m: Moment) {
    && Valid(m.before) && Evolves(l, m.before, m.after, m.r.now, m.given) && m.given <= Offered(m.r.op)
    && (m.r.op.Validate? && m.answer ==> Live(l, m.before, m.r.op.key, m.r.now))
    && (m.r.op.Validate? && m.r.commits && Live(l, m.before, m.r.op.key, m.r.now) ==> m.answer)
    && LockRule(m.before, m.after, m.r, m.answer)
  }

  ghost function IsFaithful(l: Limits): Moment -> bool { m => Faithful(l, m) }

  ghost predicate All<T(!new)>(run: seq<T>, ok: T -> bool) {
    forall i {:trigger ok(run[i])} :: 0 <= i < |run| ==> ok(run[i])
  }

  lemma AllOfOneMore<T(!new)>(run: seq<T>, m: T, ok: T -> bool)
    requires All(run, ok) && ok(m)
    ensures All(run + [m], ok)
  {
    forall i | 0 <= i < |run| + 1 ensures ok((run + [m])[i]) {
      assert i < |run| ==> ok(run[i]);
    }
  }

  /** Each request is served on what the one before it left, at the same time or later. */
  ghost predicate Chained(run: seq<Moment>) {
    && (forall i :: 0 < i < |run| ==> run[i].before == run[i - 1].after)
    && (forall i, j :: 0 <= i < j < |run| ==> run[i].r.now <= run[j].r.now)
  }

  ghost predicate IsRun(l: Limits, run: seq<Moment>) {
    Chained(run) && All(run, IsFaithful(l))
  }

  lemma InRun(l: Limits, run: seq<Moment>, i: nat)
    requires IsRun(l, run) && i < |run|
    ensures Faithful(l, run[i])
  {
    assert IsFaithful(l)(run[i]);
  }

  lemma GoneAtNext(l: Limits, m: Moment, next: Moment, key: Key)
    requires Sane(l) && Faithful(l, m) && next.before == m.after && m.r.now <= next.r.now
    requires key !in m.given && !Kept(l, m.before, key, m.r.now)
    ensures !Kept(l, next.before, key, next.r.now)
  {
    GoneStaysGone(l, m.before, m.after, key, m.r.now, next.r.now, m.given);
  }

  /**
   Over every run: a token that is revoked, expired or deleted at some request is so
   at every later one, unless it is given out anew, which fresh tokens never are.
   */
  lemma {:induction false} DeathIsPermanent(l: Limits, run: seq<Moment>, key: Key, i: nat, j: nat)
    requires Sane(l) && IsRun(l, run) && i <= j < |run|
    requires !Kept(l, run[i].before, key, run[i].r.now)
    requires forall n :: i <= n < j ==> key !in run[n].given
    ensures !Kept(l, run[j].before, key, run[j].r.now)
    decreases j - i
  {
    if i < j {
      InRun(l, run, i);
      GoneAtNext(l, run[i], run[i + 1], key);
      DeathIsPermanent(l, run, key, i + 1, j);
    }
  }

  /**
   A token that is not accepted at some request, and not merely dormant, is refused
   by every later one that presents it.
   */
  lemma RefusedForGood(l: Limits, run: seq<Moment>, key: Key, i: nat, j: nat)
    requires Sane(l) && IsRun(l, run) && i <= j < |run|
    requires !Live(l, run[i].before, key, run[i].r.now) && !Dormant(l, run[i].before, key, run[i].r.now)
    requires forall n :: i <= n < j ==> key !in Offered(run[n].r.op)
    ensures run[j].r.op == Validate(key) ==> !run[j].answer
  {
    forall n | i <= n < j ensures key !in run[n].given {
      InRun(l, run, n);
    }
    DeathIsPermanent(l, run, key, i, j);
    InRun(l, run, j);
  }

  /** The condition is exact: a dormant token is accepted again after one request. */
  lemma DormantComesBack(l: Limits, db: Db, key: Key, now: real) returns (m: Moment)
    requires Valid(db) && Dormant(l, db, key, now)
    ensures IsRun(l, [m]) && m.before == db && m.r.now == now && m.given == {}
    ensures !Live(l, m.before, key, now) && Live(l, m.after, key, now)
  {
    var name := db.sessions[key].username;
    var after := AuthManager.Enabled(db, name);
    OneAccountEvolves(l, db, after, name, now);
    m := Moment(db, Request(Switch(name, false), now, true), {}, true, after);
    assert IsFaithful(l)(m);
  }

  lemma GoodAtNext(l: Limits, m: Moment, next: Moment)
    requires Faithful(l, m) && Good(m.before) && next.before == m.after
    ensures Good(next.before)
  {
  }

  /** In a run that starts from a good store there is no such token, and every refusal is for good. */
  lemma {:induction false} GoodRunsStayGood(l: Limits, run: seq<Moment>, i: nat)
    requires IsRun(l, run) && i < |run| && Good(run[0].before)
    ensures Good(run[i].before)
  {
    if i > 0 {
      GoodRunsStayGood(l, run, i - 1);
      InRun(l, run, i - 1);
      GoodAtNext(l, run[i - 1], run[i]);
    }
  }

  lemma RefusedForGoodInGoodRuns(l: Limits, run: seq<Moment>, key: Key, i: nat, j: nat)
    requires Sane(l) && IsRun(l, run) && i <= j < |run| && Good(run[0].before)
    requires !Live(l, run[i].before, key, run[i].r.now)
    requires forall n :: i <= n < j ==> key !in Offered(run[n].r.op)
    ensures run[j].r.op == Validate(key) ==> !run[j].answer
  {
    GoodRunsStayGood(l, run, i);
    NothingDormant(l, run[i].before, key, run[i].r.now);
    RefusedForGood(l, run, key, i, j);
  }

  // ---------------------------------------------------------------- the rate limit

  /** From request `i` up to `j` the account is there, starts unlocked with no failure counted, and is not reset. */
  ghost predicate SinceReset(run: seq<Moment>, name: string, i: nat, j: nat) {
    && i <= j <= |run| && (i < |run| ==> name in run[i].before.users && run[i].before.users[name].lock == Lockout.Account(0, None))
    && forall n :: i <= n < j ==> !Resets(run[n].r, run[n].answer, name)
  }

  /** When wrong logins as `name` were tried. */
  ghost function Tries(run: seq<Moment>, name: string, i: nat, j: nat): seq<real>
    requires i <= j <= |run|
  {
    if i == j then []
    else
      Tries(run, name, i, j - 1) +
      if name in run[j - 1].before.users && WrongTry(run[j - 1].r, run[j - 1].before, name) then [run[j - 1].r.now] else []
  }

  /** When a login as `name` was checked and found wrong. */
  ghost function FailedChecks(run: seq<Moment>, name: string, i: nat, j: nat): seq<real>
    requires i <= j <= |run|
  {
    if i == j then []
    else
      FailedChecks(run, name, i, j - 1) +
      if name in run[j - 1].before.users && FailedCheck(run[j - 1].r, run[j - 1].before, name) then [run[j - 1].r.now] else []
  }

  /** The account's lock in the store, at the end of these requests. */
  ghost predicate LockIs(run: seq<Moment>, name: string, j: nat, lock: Lockout.Account) {
    j < |run| ==> name in run[j].before.users && run[j].before.users[name].lock == lock
  }

  /** The lock that a request leaves to the next one. */
  lemma LockAtNext(l: Limits, run: seq<Moment>, name: string, n: nat)
    requires IsRun(l, run) && n < |run| && name in run[n].before.users && !Resets(run[n].r, run[n].answer, name)
    ensures LockIs(run, name, n + 1,
                   if FailedCheck(run[n].r, run[n].before, name)
                   then Lockout.FailedOnce(run[n].before.users[name].lock, run[n].r.now) else run[n].before.users[name].lock)
  {
    InRun(l, run, n);
    assert LockRule(run[n].before, run[n].after, run[n].r, run[n].answer);
  }

  /** Between resets the stored lock, and the checks made, are those of the tries alone. */
  lemma {:induction false} LockFollowsTries(l: Limits, run: seq<Moment>, name: string, i: nat, j: nat)
    requires IsRun(l, run) && SinceReset(run, name, i, j)
    ensures LockIs(run, name, j, Lockout.Attacked(Lockout.Account(0, None), Tries(run, name, i, j)).0)
    ensures FailedChecks(run, name, i, j) == Lockout.Attacked(Lockout.Account(0, None), Tries(run, name, i, j)).1
    decreases j
  {
    if i < j {
      LockFollowsTries(l, run, name, i, j - 1);
      var m, tries := run[j - 1], Tries(run, name, i, j - 1);
      var (lock, checks) := Lockout.Attacked(Lockout.Account(0, None), tries);
      assert LockIs(run, name, j - 1, lock);
      LockAtNext(l, run, name, j - 1);
      if WrongTry(m.r, m.before, name) {
        Lockout.OneMoreAttempt(Lockout.Account(0, None), tries, m.r.now);
      } else {
        assert Tries(run, name, i, j) == tries + [] == tries;
        assert FailedChecks(run, name, i, j) == checks + [] == checks;
      }
    }
  }

  lemma {:induction false} TriesAreOrdered(l: Limits, run: seq<Moment>, name: string, i: nat, j: nat)
    requires IsRun(l, run) && i <= j <= |run| && forall n :: i <= n < j ==> run[n].r.now >= 0.0
    ensures Lockout.Ordered(Tries(run, name, i, j))
    ensures j > i ==> forall k :: 0 <= k < |Tries(run, name, i, j)| ==> Tries(run, name, i, j)[k] <= run[j - 1].r.now
    decreases j
  {
    if i < j {
      TriesAreOrdered(l, run, name, i, j - 1);
    }
  }

  /**
   The rate limit over every run of requests: between resets of an account, failed
   login check number `m` comes no earlier than the first plus all the delays between.
   */
  lemma FailedChecksAreSpacedOut(l: Limits, run: seq<Moment>, name: string, i: nat, j: nat, m: nat)
    requires IsRun(l, run) && SinceReset(run, name, i, j) && forall n :: i <= n < j ==> run[n].r.now >= 0.0
    requires m < |FailedChecks(run, name, i, j)|
    ensures FailedChecks(run, name, i, j)[m] >= FailedChecks(run, name, i, j)[0] + Lockout.DelaySum(m)
  {
    LockFollowsTries(l, run, name, i, j);
    TriesAreOrdered(l, run, name, i, j);
    Lockout.ChecksAreSpacedOut(Tries(run, name, i, j), m);
  }

  /**
   The limit is on logins only.  A password change checks the current password too,
   locked or not, and counts nothing: any number of guesses can be made at one instant.
   */
  method GuessByChanging(m: Manager, name: string, secret: nat, now: real, token: Key, guesses: nat)
    requires m.Inv() && name in m.db.users && !m.db.users[name].disabled && token !in m.issued
    modifies m
    ensures m.Inv() && m.checks == old(m.checks) + guesses && m.db == old(m.db) && m.issued == old(m.issued)
  {
    for n := 0 to guesses
      invariant m.Inv() && m.checks == old(m.checks) + n && m.db == old(m.db) && m.issued == old(m.issued)
    {
      var outcome := m.ChangePassword(name, false, true, secret, now, token, true);
    }
  }

  // ---------------------------------------------------------------- serving them all

  lemma OneMore(l: Limits, run: seq<Moment>, m: Moment)
    requires IsRun(l, run) && IsFaithful(l)(m) && Chained(run + [m])
    ensures IsRun(l, run + [m])
  {
    AllOfOneMore(run, m, IsFaithful(l));
  }

  /** `run` is what these requests came to, from `first` to `last`. */
  ghost predicate Serves(run: seq<Moment>, rs: seq<Request>, n: nat, answers: seq<bool>, first: Db, last: Db) {
    && n <= |rs| && |run| == |answers| == n
    && (forall i :: 0 <= i < n ==> run[i].r == rs[i] && run[i].answer == answers[i])
    && (if n == 0 then first == last else run[0].before == first && run[n - 1].after == last)
  }

  lemma ServesOneMore(run: seq<Moment>, rs: seq<Request>, n: nat, answers: seq<bool>, first: Db, m: Moment)
    requires n < |rs| && Serves(run, rs, n, answers, first, m.before) && m.r == rs[n]
    ensures Serves(run + [m], rs, n + 1, answers + [m.answer], first, m.after)
    ensures InOrder(rs) && Chained(run) ==> Chained(run + [m])
  {
  }

  /** Any requests at all: the store keeps its invariant, and the run is one to which the lemmas above apply. */
  method Serve(m: Manager, rs: seq<Request>) returns (answers: seq<bool>, ghost run: seq<Moment>)
    requires m.Inv() && Proper(rs, m.issued)
    modifies m
    ensures m.Inv() && IsRun(m.limits, run) && Serves(run, rs, |rs|, answers, old(m.db), m.db)
    ensures Good(old(m.db)) ==> Good(m.db)
  {
    answers, run := [], [];
    for n := 0 to |rs|
      invariant m.Inv() && IsRun(m.limits, run) && Serves(run, rs, n, answers, old(m.db), m.db)
      invariant FreshFrom(rs, n, m.issued) && (Good(old(m.db)) ==> Good(m.db))
    {
      var answer;
      ghost var moment;
      ghost var before := m.issued;
      answer, moment := ServeOne(m, rs[n]);
      StillFresh(rs, n, before, m.issued);
      ServesOneMore(run, rs, n, answers, old(m.db), moment);
      OneMore(m.limits, run, moment);
      answers, run := answers + [answer], run + [moment];
    }
  }

  method ServeOne(m: Manager, r: Request) returns (answer: bool, ghost moment: Moment)
    requires m.Inv() && Offered(r.op) !! m.issued
    modifies m
    ensures m.Inv() && m.issued <= old(m.issued) + Offered(r.op)
    ensures IsFaithful(m.limits)(moment) && moment.before == old(m.db) && moment.after == m.db
    ensures moment.r == r && moment.answer == answer && (Good(old(m.db)) ==> Good(m.db))
  {
    ghost var before := m.db;
    ghost var given;
    answer, given := Perform(m, r);
    moment := Moment(before, r, given, answer, m.db);
  }
}
