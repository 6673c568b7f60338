/**
 The account manager itself: a database connection and an in-memory snapshot.
 Password checks, hashes and tokens come from outside as their results.
 */
module AuthManager {
  import opened Basics
  import opened AuthStore
  import IdleWindow
  import Lockout

  datatype Fault =
    | UserExists | NoSuchUser | LastAdmin | LimitReached
    | LoginFailed | AccountLocked | SamePassword
    | StorageFailed | InvalidStore

  datatype Outcome = Done | Failed(fault: Fault)

  class Manager {
    const limits: Limits
    var db: Db
    var disk: Db
    /** Every token ever handed out; a new one is never among them. */
    ghost var issued: set<Key>
    /** How many password checks have been made. */
    var checks: nat

    ghost predicate Inv()
      reads this
    {
      Sane(limits) && db == disk && Valid(db) && db.sessions.Keys <= issued
    }

    /** A refused operation leaves no trace in memory, on disk or among the tokens. */
    twostate predicate Untouched()
      reads this
    {
      db == old(db) && disk == old(disk) && issued == old(issued)
    }

    constructor (limits: Limits, db: Db)
      requires Sane(limits) && Valid(db)
      ensures Inv() && this.limits == limits && this.db == db && checks == 0
    {
      this.limits, this.db, this.disk, this.issued, checks := limits, db, db, db.sessions.Keys, 0;
    }

    /** Validate, commit, then show; `commits` says whether the database takes the transaction. */
    method Persist(next: Db, commits: bool) returns (outcome: Outcome)
      modifies this`db, this`disk
      ensures outcome.Done? ==> db == next && disk == next
      ensures outcome.Failed? ==> db == old(db) && disk == old(disk)
      ensures outcome == Failed(InvalidStore) <==> !Valid(next)
      ensures outcome.Done? <==> Valid(next) && commits
      ensures outcome.Done? || outcome == Failed(InvalidStore) || outcome == Failed(StorageFailed)
    {
      if !Valid(next) {
        return Failed(InvalidStore);
      }
      if !commits {
        return Failed(StorageFailed);
      }
      disk := next;
      db := next;
      outcome := Done;
    }

    method CreateUser(name: string, role: Role, secret: nat, ghost now: real, commits: bool) returns (outcome: Outcome)
      requires Inv()
      modifies this`db, this`disk
      ensures Inv() && Evolves(limits, old(db), db, now, {})
      ensures outcome.Failed? ==> Untouched() && outcome.fault != InvalidStore
      ensures outcome == Failed(UserExists) <==> |old(db.users)| < MAX_USERS && name in old(db.users)
      ensures outcome == Failed(LimitReached) <==> |old(db.users)| >= 128
      ensures outcome.Done? <==> commits && |old(db.users)| < MAX_USERS && name !in old(db.users)
      ensures outcome.Done? ==>
                db == old(db).(users := old(db.users)[name := User(secret, false, false, None, Lockout.Account(0, None), role)])
    {
      NothingEvolves(limits, db, now);
      if |db.users| >= MAX_USERS {
        return Failed(LimitReached);
      }
      if name in db.users {
        return Failed(UserExists);
      }
      var next := db.(users := db.users[name := NewUser(role, secret)]);
      CreationEvolves(limits, db, next, name, NewUser(role, secret), now);
      outcome := Persist(next, commits);
    }

    method SetRole(name: string, role: Role, ghost now: real, commits: bool) returns (outcome: Outcome)
      requires Inv()
      modifies this`db, this`disk
      ensures Inv() && Evolves(limits, old(db), db, now, {})
      ensures outcome.Failed? ==> Untouched() && outcome.fault != InvalidStore
      ensures outcome == Failed(NoSuchUser) <==> name !in old(db.users)
      ensures outcome == Failed(LastAdmin) <==> !role.Admin? && IsLastEnabledAdmin(old(db), name)
      ensures outcome.Done? <==> commits && name in old(db.users) && (role.Admin? || !IsLastEnabledAdmin(old(db), name))
      ensures outcome.Done? ==>
                && name in old(db.users)
                && db == Db(old(db.users)[name := old(db.users[name]).(role := role)], Revoked(old(db.sessions), name))
    {
      NothingEvolves(limits, db, now);
      if name !in db.users {
        return Failed(NoSuchUser);
      }
      if !role.Admin? && IsLastEnabledAdmin(db, name) {
        return Failed(LastAdmin);
      }
      var next := Db(db.users[name := db.users[name].(role := role)], Revoked(db.sessions, name));
      OneAccountEvolves(limits, db, next, name, now);
      outcome := Persist(next, commits);
    }

    method DeleteUser(name: string, ghost now: real, commits: bool) returns (outcome: Outcome)
      requires Inv()
      modifies this`db, this`disk
      ensures Inv() && Evolves(limits, old(db), db, now, {})
      ensures outcome.Failed? ==> Untouched() && outcome.fault != InvalidStore
      ensures outcome == Failed(NoSuchUser) <==> name !in old(db.users)
      ensures outcome == Failed(LastAdmin) <==> IsLastEnabledAdmin(old(db), name)
      ensures outcome.Done? <==> commits && name in old(db.users) && !IsLastEnabledAdmin(old(db), name)
      ensures outcome.Done? ==> db == Db(old(db.users) - {name}, Without(old(db.sessions), name))
    {
      NothingEvolves(limits, db, now);
      if name !in db.users {
        return Failed(NoSuchUser);
      }
      if IsLastEnabledAdmin(db, name) {
        return Failed(LastAdmin);
      }
      var next := Db(db.users - {name}, Without(db.sessions, name));
      DeletionEvolves(limits, db, next, name, now);
      outcome := Persist(next, commits);
    }

    method SetDisabled(name: string, disabled: bool, ghost now: real, commits: bool) returns (outcome: Outcome)
      requires Inv()
      modifies this`db, this`disk
      ensures Inv() && Evolves(limits, old(db), db, now, {})
      ensures outcome.Failed? ==> Untouched() && outcome.fault != InvalidStore
      ensures outcome == Failed(NoSuchUser) <==> name !in old(db.users)
      ensures outcome == Failed(LastAdmin) <==> disabled && IsLastEnabledAdmin(old(db), name)
      ensures outcome.Done? <==> commits && name in old(db.users) && !(disabled && IsLastEnabledAdmin(old(db), name))
      ensures outcome.Done? ==>
                && SwitchedTo(old(db.users), db.users, name, disabled)
                && db.sessions == if disabled then Revoked(old(db.sessions), name) else old(db.sessions)
    {
      NothingEvolves(limits, db, now);
      if name !in db.users {
        return Failed(NoSuchUser);
      }
      if disabled && IsLastEnabledAdmin(db, name) {
        return Failed(LastAdmin);
      }
      var next := Db(db.users[name := Switched(db.users[name], disabled)],
                     if disabled then Revoked(db.sessions, name) else db.sessions);
      OneAccountEvolves(limits, db, next, name, now);
      outcome := Persist(next, commits);
    }

    method SetPassword(name: string, secret: nat, ghost now: real, commits: bool) returns (outcome: Outcome)
      requires Inv()
      modifies this`db, this`disk
      ensures Inv() && Evolves(limits, old(db), db, now, {})
      ensures outcome.Failed? ==> Untouched() && outcome.fault != InvalidStore
      ensures outcome == Failed(NoSuchUser) <==> name !in old(db.users)
      ensures outcome.Done? <==> commits && name in old(db.users)
      ensures outcome.Done? ==>
                && name in old(db.users)
                && NewSecret(old(db.users), db.users, name, secret) && db.sessions == Revoked(old(db.sessions), name)
    {
      NothingEvolves(limits, db, now);
      if name !in db.users {
        return Failed(NoSuchUser);
      }
      var next := Restarted(db, name, secret);
      OneAccountEvolves(limits, db, next, name, now);
      outcome := Persist(next, commits);
    }

    /** `matches`: the current password verifies.  `differs`: the new one is another. */
    method ChangePassword(name: string, matches: bool, differs: bool, secret: nat, now: real, key: Key, commits: bool) returns (outcome: Outcome)
      requires Inv() && key !in issued
      modifies this
      ensures Inv() && Evolves(limits, old(db), db, now, if outcome.Done? then {key} else {})
      ensures outcome.Failed? ==> Untouched() && outcome.fault != InvalidStore
      ensures outcome == Failed(LoginFailed) <==> name !in old(db.users) || old(db.users[name].disabled) || !matches
      // The password is checked whether or not the account is locked.
      ensures checks == old(checks) + if name in old(db.users) && !old(db.users[name].disabled) then 1 else 0
      ensures outcome == Failed(SamePassword) <==> name in old(db.users) && !old(db.users[name].disabled) && matches && !differs
      ensures outcome.Done? <==>
                && commits && name in old(db.users) && !old(db.users[name].disabled) && matches && differs
                && |Pruned(Revoked(old(db.sessions), name), limits.idle, now)| < MAX_SESSIONS
      ensures outcome.Done? ==> issued == old(issued) + {key} && Live(limits, db, key, now)
      ensures outcome.Done? ==> NewSecret(old(db.users), db.users, name, secret)
      // Every older session of the account is gone; the others stay if they are still good.
      ensures outcome.Done? ==> forall k :: k in db.sessions && k != key ==> db.sessions[k].username != name
      ensures outcome.Done? ==> RowAdded(limits, Revoked(old(db.sessions), name), db.sessions, key, name, false, now)
    {
      NothingEvolves(limits, db, now);
      if name !in db.users {
        return Failed(LoginFailed);
      }
      if db.users[name].disabled {
        return Failed(LoginFailed);
      }
      checks := checks + 1;
      if !matches {
        return Failed(LoginFailed);
      }
      if !differs {
        return Failed(SamePassword);
      }
      var changed := Restarted(db, name, secret);
      RestartTouchesOneAccount(db, name, secret);
      outcome := Enter(changed, name, key, now, commits);
      if outcome.Done? {
        NoOlderSession(old(db.sessions), db.sessions, name, key, limits.idle, now);
      }
    }

    /** Open a session in an already changed snapshot and commit both at once. */
    method Enter(changed: Db, name: string, key: Key, now: real, commits: bool) returns (outcome: Outcome)
      requires Inv() && key !in issued && OneAccount(db, changed, name) && !changed.users[name].disabled
      requires EnabledAdmin(db, name) ==> EnabledAdmin(changed, name)
      modifies this`db, this`disk, this`issued
      ensures Inv() && Evolves(limits, old(db), db, now, if outcome.Done? then {key} else {})
      ensures outcome.Failed? ==> Untouched() && (outcome.fault == LimitReached || outcome.fault == StorageFailed)
      ensures outcome.Done? <==> commits && |Pruned(changed.sessions, limits.idle, now)| < 4096
      ensures outcome.Done? ==> issued == old(issued) + {key} && Live(limits, db, key, now)
      ensures outcome.Done? ==> db.users == changed.users && db.sessions.Keys == Pruned(changed.sessions, limits.idle, now).Keys + {key}
      ensures outcome.Done? ==> forall k :: k in db.sessions && k != key ==> db.sessions[k] == changed.sessions[k]
      ensures outcome.Done? ==> RowAdded(limits, changed.sessions, db.sessions, key, name, changed.users[name].mustChange, now)
    {
      NothingEvolves(limits, db, now);
      var next := OpenSession(limits, db, changed, name, key, now);
      if next.None? {
        return Failed(LimitReached);
      }
      assert next.value.sessions.Keys <= issued + {key};
      outcome := Persist(next.value, commits);
      if outcome.Done? {
        issued := issued + {key};
      }
    }

    method Login(name: string, matches: bool, rehashed: Option<nat>, now: real, key: Key, commits: bool) returns (outcome: Outcome)
      requires Inv() && key !in issued
      modifies this
      ensures Inv() && Evolves(limits, old(db), db, now, if outcome.Done? then {key} else {})
      ensures outcome.Failed? ==> outcome.fault != InvalidStore && issued == old(issued)
      ensures outcome.Failed? && outcome.fault != LoginFailed ==> Untouched()
      ensures name !in old(db.users) ==> outcome == Failed(LoginFailed) && Untouched()
      // While locked, no password is checked and nothing changes.
      ensures outcome == Failed(AccountLocked) <==> name in old(db.users) && Waits(old(db.users[name].lock.lockedUntil), now)
      ensures checks == old(checks) + if outcome == Failed(AccountLocked) then 0 else 1
      // A checked failure counts, whether the password or the account is the reason.
      ensures outcome == Failed(LoginFailed) && name in old(db.users) ==>
                && db.sessions == old(db.sessions) && CountedMiss(old(db.users), db.users, name, now)
                && db.users[name] == Missed(old(db.users[name]), now)
      ensures outcome == Failed(LoginFailed) <==>
                || name !in old(db.users)
                || (commits && !Waits(old(db.users[name].lock.lockedUntil), now) && (old(db.users[name].disabled) || !matches))
      ensures outcome.Done? <==>
                && commits && name in old(db.users) && !Waits(old(db.users[name].lock.lockedUntil), now)
                && !old(db.users[name].disabled) && matches && |Pruned(old(db.sessions), limits.idle, now)| < MAX_SESSIONS
      // A success resets the count, and adds one row to those that are still good.
      ensures outcome.Done? ==> issued == old(issued) + {key} && Live(limits, db, key, now)
      ensures outcome.Done? ==> LetIn(old(db.users), db.users, name, rehashed, now)
      ensures outcome.Done? ==> RowAdded(limits, old(db.sessions), db.sessions, key, name, old(db.users[name].mustChange), now)
    {
      NothingEvolves(limits, db, now);
      if name !in db.users {
        checks := checks + 1;
        return Failed(LoginFailed);
      }
      var user := db.users[name];
      if Lockout.IsLocked(user.lock.lockedUntil, now) {
        return Failed(AccountLocked);
      }
      checks := checks + 1;
      if user.disabled || !matches {
        outcome := CountMiss(name, now, commits);
        return outcome;
      }
      outcome := Admit(name, rehashed, key, now, commits);
    }

    /** The failed check is recorded, or the login ends in a storage error. */
    method CountMiss(name: string, now: real, commits: bool) returns (outcome: Outcome)
      requires Inv() && name in db.users
      modifies this`db, this`disk
      ensures Inv() && Evolves(limits, old(db), db, now, {})
      ensures outcome == if commits then Failed(LoginFailed) else Failed(StorageFailed)
      ensures !commits ==> Untouched()
      ensures commits ==> db.sessions == old(db.sessions) && CountedMiss(old(db.users), db.users, name, now)
      ensures commits ==> db.users[name] == Missed(old(db.users[name]), now)
    {
      NothingEvolves(limits, db, now);
      var next := db.(users := db.users[name := Missed(db.users[name], now)]);
      MissCounts(db.users, name, now);
      OneAccountEvolves(limits, db, next, name, now);
      outcome := Persist(next, commits);
      if outcome.Done? {
        outcome := Failed(LoginFailed);
      }
    }

    /** The account's failures are forgotten and a session is opened, both at once. */
    method Admit(name: string, rehashed: Option<nat>, key: Key, now: real, commits: bool) returns (outcome: Outcome)
      requires Inv() && key !in issued && name in db.users && !db.users[name].disabled
      modifies this`db, this`disk, this`issued
      ensures Inv() && Evolves(limits, old(db), db, now, if outcome.Done? then {key} else {})
      ensures outcome.Failed? ==> Untouched() && (outcome.fault == LimitReached || outcome.fault == StorageFailed)
      ensures outcome.Done? <==> commits && |Pruned(old(db.sessions), limits.idle, now)| < 4096
      ensures outcome.Done? ==> issued == old(issued) + {key} && Live(limits, db, key, now)
      ensures outcome.Done? ==> LetIn(old(db.users), db.users, name, rehashed, now)
      ensures outcome.Done? ==> RowAdded(limits, old(db.sessions), db.sessions, key, name, old(db.users[name].mustChange), now)
    {
      var changed := db.(users := db.users[name := Welcomed(db.users[name], rehashed, now)]);
      WelcomeLetsIn(db.users, name, rehashed, now);
      outcome := Enter(changed, name, key, now, commits);
    }

    /** `validate_session`: accepted exactly when live, unless a write it needs fails. */
    method ValidateSession(key: Key, now: real, commits: bool) returns (accepted: bool)
      requires Inv()
      modifies this`db, this`disk
      ensures Inv() && Evolves(limits, old(db), db, now, {})
      ensures accepted <==>
                Live(limits, old(db), key, now) && (commits || Visited(limits, old(db), key, now) == old(db.sessions[key]))
      // The same field by field: an account that must change its password has the restricted limits.
      ensures accepted <==>
                && key in old(db.sessions) && !old(db.sessions[key].revoked)
                && !old(db.users[db.sessions[key].username].disabled)
                && now < old(db.sessions[key].expires)
                && (old(db.users[db.sessions[key].username].mustChange) ==>
                      && now < old(db.sessions[key].created) + limits.restrictedAbsolute
                      && now < old(db.sessions[key].lastSeen) + limits.restrictedIdle
                      && (commits || !Due(now - old(db.sessions[key].lastSeen), limits.restrictedIdle)))
                && (!old(db.users[db.sessions[key].username].mustChange) ==>
                      && now < old(db.sessions[key].created) + limits.absolute
                      && now < old(db.sessions[key].lastSeen) + limits.idle
                      && (commits || !Due(now - old(db.sessions[key].lastSeen), limits.idle)))
      ensures db == if commits && key in old(db.sessions) && !old(db.sessions[key].revoked)
                    then old(db).(sessions := old(db.sessions)[key := Visited(limits, old(db), key, now)]) else old(db)
    {
      NothingEvolves(limits, db, now);
      if key !in db.sessions || db.sessions[key].revoked {
        return false;
      }
      var row := db.sessions[key];
      var user := db.users[row.username];
      var expired := Expired(limits, row, user.mustChange, now);
      assert db.sessions[key := row] == db.sessions;
      if expired || now - row.lastSeen >= IdleWindow.TouchInterval(IdleOf(limits, user.mustChange)) {
        var touched := if expired then row.(revoked := true) else row.(lastSeen := now);
        if !commits {
          TouchMoves(limits, db, key, now);
          return false;
        }
        OneRowEvolves(limits, db, db.(sessions := db.sessions[key := touched]), key, touched, now);
        disk := disk.(sessions := disk.sessions[key := touched]);
        db := db.(sessions := db.sessions[key := touched]);
      }
      accepted := !expired && !user.disabled;
    }

    method Logout(key: Key, ghost now: real, commits: bool) returns (outcome: Outcome, hit: bool)
      requires Inv()
      modifies this`db, this`disk
      ensures Inv() && Evolves(limits, old(db), db, now, {})
      ensures outcome.Failed? ==> Untouched() && outcome.fault == StorageFailed
      ensures hit <==> key in old(db.sessions) && !old(db.sessions[key].revoked)
      ensures outcome.Done? <==> commits || !hit
      ensures outcome.Done? && hit ==> !Live(limits, db, key, now)
      ensures outcome.Done? ==> db == if hit then old(db).(sessions := old(db.sessions)[key := old(db.sessions[key]).(revoked := true)])
                                      else old(db)
    {
      NothingEvolves(limits, db, now);
      outcome := Done;
      hit := key in db.sessions && !db.sessions[key].revoked;
      if hit {
        var next := db.(sessions := db.sessions[key := db.sessions[key].(revoked := true)]);
        OneRowEvolves(limits, db, next, key, next.sessions[key], now);
        outcome := Persist(next, commits);
      }
    }
  }

  /** `create_session` on the changed snapshot. */
  method OpenSession(l: Limits, ghost a: Db, changed: Db, name: string, key: Key, now: real) returns (next: Option<Db>)
    requires Sane(l) && Valid(a) && OneAccount(a, changed, name) && !changed.users[name].disabled && key !in a.sessions
    requires EnabledAdmin(a, name) ==> EnabledAdmin(changed, name)
    ensures next.None? <==> |Pruned(changed.sessions, l.idle, now)| >= MAX_SESSIONS
    ensures next.Some? ==>
              && Valid(next.value) && Evolves(l, a, next.value, now, {key}) && Live(l, next.value, key, now)
              && next.value.users == changed.users
              && next.value.sessions.Keys == Pruned(changed.sessions, l.idle, now).Keys + {key}
              && (forall k :: k in next.value.sessions && k != key ==> next.value.sessions[k] == changed.sessions[k])
              && RowAdded(l, changed.sessions, next.value.sessions, key, name, changed.users[name].mustChange, now)
  {
    next := WithSession(l, changed, name, key, now);
    if next.Some? {
      SessionEvolves(l, a, changed, next.value, name, key, now);
      SessionRows(l, changed, next.value, name, key, now);
    }
  }

  /** The lock is set and has not run out. */
  ghost predicate Waits(lockedUntil: Option<real>, now: real) {
    lockedUntil != None && 0.0 < lockedUntil.value && now < lockedUntil.value
  }

  /** A failed check: the count goes up, and the account waits for the delay that count imposes. */
  ghost predicate CountedMiss(before: map<string, User>, after: map<string, User>, name: string, now: real) {
    && name in before && name in after && after == before[name := after[name]]
    && var u, v := before[name], after[name];
       && v.(lock := u.lock) == u && v.lock.lockedUntil == Some(now + Lockout.DelaySec(v.lock.failed))
       && v.lock.failed == if u.lock.failed < 0xFFFF_FFFF then u.lock.failed + 1 else u.lock.failed
  }

  /** A successful login: no failures, no lock. */
  ghost predicate LetIn(before: map<string, User>, after: map<string, User>, name: string, rehashed: Option<nat>, now: real) {
    && name in before && name in after && after == before[name := after[name]]
    && var u, v := before[name], after[name];
       && v.(lock := u.lock, lastLogin := u.lastLogin, secret := u.secret) == u
       && v.lock == Lockout.Account(0, None) && v.lastLogin == Some(now)
       && v.secret == if rehashed.Some? then rehashed.value else u.secret
  }

  /** The account is switched and nothing else about it changes, but that enabling it clears the lock. */
  ghost predicate SwitchedTo(before: map<string, User>, after: map<string, User>, name: string, disabled: bool) {
    && name in before && name in after && after == before[name := after[name]]
    && var u, v := before[name], after[name];
       && v.(disabled := u.disabled, lock := u.lock) == u && v.disabled == disabled
       && v.lock == if disabled then u.lock else Lockout.Account(0, None)
  }

  /** The account has this credential, need not change it and is not locked; all else is as it was. */
  ghost predicate NewSecret(before: map<string, User>, after: map<string, User>, name: string, secret: nat) {
    && name in before && name in after && after == before[name := after[name]]
    && var u, v := before[name], after[name];
       && v.(secret := u.secret, mustChange := u.mustChange, lock := u.lock) == u
       && v.secret == secret && !v.mustChange && v.lock == Lockout.Account(0, None)
  }

  /** Activity is written once a hundredth of the idle limit or a minute has passed. */
  ghost predicate Due(since: real, idle: real) {
    100.0 * since >= idle || since >= 60.0
  }

  function NewUser(role: Role, secret: nat): User {
    User(secret, false, false, None, Lockout.Account(0, None), role)
  }

  function Switched(u: User, disabled: bool): User {
    if disabled then u.(disabled := true) else u.(disabled := false, lock := Lockout.Account(0, None))
  }

  /** The store after an account is enabled again. */
  function Enabled(db: Db, name: string): Db
    requires name in db.users
  {
    db.(users := db.users[name := Switched(db.users[name], false)])
  }

  /** A session that is refused only because its account is disabled is accepted as soon as that is enabled. */
  lemma DormantRevives(l: Limits, db: Db, key: Key, now: real)
    requires Dormant(l, db, key, now)
    ensures !Live(l, db, key, now) && Live(l, Enabled(db, db.sessions[key].username), key, now)
  {
  }

  /** A store with such a session passes every check made on loading. */
  lemma DormantStoreLoads(l: Limits) returns (db: Db, key: Key)
    requires Sane(l)
    ensures Valid(db) && Dormant(l, db, key, 0.0)
  {
    key := "token";
    db := Db(map["admin" := NewUser(Admin, 0), "user" := NewUser(Operator, 0).(disabled := true)],
             map[key := Session("user", 0.0, 0.0, l.absolute, false)]);
    assert "admin" in Admins(db);
  }

  function Renewed(u: User, secret: nat): User {
    u.(secret := secret, mustChange := false, lock := Lockout.Account(0, None))
  }

  /** A new password, and every session of the account revoked. */
  function Restarted(db: Db, name: string, secret: nat): Db
    requires name in db.users
  {
    Db(db.users[name := Renewed(db.users[name], secret)], Revoked(db.sessions, name))
  }

  lemma RestartTouchesOneAccount(db: Db, name: string, secret: nat)
    requires name in db.users
    ensures OneAccount(db, Restarted(db, name, secret), name)
    ensures EnabledAdmin(db, name) ==> EnabledAdmin(Restarted(db, name, secret), name)
  {
  }

  lemma NoOlderSession(before: map<Key, Session>, after: map<Key, Session>, name: string, key: Key, idle: real, now: real)
    requires after.Keys == Pruned(Revoked(before, name), idle, now).Keys + {key}
    requires forall k :: k in after && k != key ==> k in before && after[k] == Revoked(before, name)[k]
    ensures forall k :: k in after && k != key ==> after[k].username != name
  {
    RevokedArePruned(before, name, idle, now);
    forall k | k in after && k != key ensures after[k].username != name {
      assert k in Pruned(Revoked(before, name), idle, now);
    }
  }

  function Missed(u: User, now: real): User { u.(lock := Lockout.FailedOnce(u.lock, now)) }

  function Welcomed(u: User, rehashed: Option<nat>, now: real): User {
    u.(lock := Lockout.Account(0, None), lastLogin := Some(now),
       secret := if rehashed.Some? then rehashed.value else u.secret)
  }

  /** A wrong password is counted. */
  lemma MissCounts(users: map<string, User>, name: string, now: real)
    requires name in users
    ensures CountedMiss(users, users[name := Missed(users[name], now)], name, now)
  {
  }

  lemma WelcomeLetsIn(users: map<string, User>, name: string, rehashed: Option<nat>, now: real)
    requires name in users
    ensures LetIn(users, users[name := Welcomed(users[name], rehashed, now)], name, rehashed, now)
  {
  }

  /** The row after a lookup: revoked on expiry, slid once per touch interval, otherwise as it was. */
  function Visited(l: Limits, db: Db, key: Key, now: real): (visited: Session)
    requires key in db.sessions && db.sessions[key].username in db.users
    ensures var row, mustChange := db.sessions[key], db.users[db.sessions[key].username].mustChange;
      && visited.(lastSeen := row.lastSeen, revoked := row.revoked) == row
      && (visited.revoked <==> row.revoked || !Within(l, row, mustChange, now))
      && var slides := Within(l, row, mustChange, now) && Due(now - row.lastSeen, if mustChange then l.restrictedIdle else l.idle);
         visited.lastSeen == if slides then now else row.lastSeen
  {
    var row, mustChange := db.sessions[key], db.users[db.sessions[key].username].mustChange;
    if Expired(l, row, mustChange, now) then row.(revoked := true)
    else if now - row.lastSeen >= IdleWindow.TouchInterval(IdleOf(l, mustChange)) then row.(lastSeen := now)
    else row
  }

  /** A slide that is due really moves the row, since the touch interval is positive. */
  lemma TouchMoves(l: Limits, db: Db, key: Key, now: real)
    requires Sane(l) && key in db.sessions && db.sessions[key].username in db.users && !db.sessions[key].revoked
    requires var row, mustChange := db.sessions[key], db.users[db.sessions[key].username].mustChange;
      Expired(l, row, mustChange, now) || now - row.lastSeen >= IdleWindow.TouchInterval(IdleOf(l, mustChange))
    ensures Visited(l, db, key, now) != db.sessions[key]
  {
  }

  /** The stored row follows the throttled idle window, whose deadline is the session's absolute expiry. */
  lemma VisitedIsThrottled(l: Limits, db: Db, key: Key, now: real)
    requires key in db.sessions && db.sessions[key].username in db.users && !db.sessions[key].revoked
    ensures var row, mustChange := db.sessions[key], db.users[db.sessions[key].username].mustChange;
            var absolute := row.created + AbsoluteOf(l, mustChange);
            var deadline := if row.expires <= absolute then row.expires else absolute;
            var visited := Visited(l, db, key, now);
            IdleWindow.Throttled(IdleWindow.Open(row.lastSeen), IdleOf(l, mustChange), deadline, now) ==
            if visited.revoked then IdleWindow.Dead else IdleWindow.Open(visited.lastSeen)
  {
  }
}
