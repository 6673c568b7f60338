/**
 Accounts and sessions.  Every change is committed to the database before the
 in-memory snapshot shows it, and the database may refuse any commit.  Times are
 real seconds; a session is known by the hash of its token.
 */
module AuthStore {
  import opened Basics
  import Lockout

  const MAX_USERS: nat := 128
  const MAX_SESSIONS: nat := 4096

  type Key = string

  datatype Role = Admin | Operator | Audit | PortalAuditor

  datatype User = User(secret: nat, mustChange: bool, disabled: bool, lastLogin: Option<real>,
                       lock: Lockout.Account, role: Role)

  datatype Session = Session(username: string, created: real, lastSeen: real, expires: real, revoked: bool)

  datatype Db = Db(users: map<string, User>, sessions: map<Key, Session>)

  /** Configured timeouts: the restricted ones are never longer than the normal ones. */
  datatype Limits = Limits(idle: real, absolute: real, restrictedIdle: real, restrictedAbsolute: real)

  predicate Sane(l: Limits) {
    0.0 < l.restrictedIdle <= l.idle && 0.0 < l.restrictedAbsolute <= l.absolute
  }

  function IdleOf(l: Limits, mustChange: bool): real { if mustChange then l.restrictedIdle else l.idle }

  function AbsoluteOf(l: Limits, mustChange: bool): real { if mustChange then l.restrictedAbsolute else l.absolute }

  // ---------------------------------------------------------------- the committed invariant

  predicate EnabledAdmin(db: Db, name: string) {
    name in db.users && db.users[name].role.Admin? && !db.users[name].disabled
  }

  function Admins(db: Db): set<string> {
    set name | name in db.users && EnabledAdmin(db, name)
  }

  /** `validate`: what every committed database satisfies. */
  predicate Valid(db: Db) {
    && 0 < |db.users| <= MAX_USERS && |db.sessions| <= MAX_SESSIONS
    && Admins(db) != {}
    && forall k :: k in db.sessions ==> db.sessions[k].username in db.users
  }

  /** No session of a disabled account is unrevoked.  Loading a database does not check this. */
  ghost predicate DisabledHaveNone(db: Db) {
    forall k :: k in db.sessions && db.sessions[k].username in db.users && db.users[db.sessions[k].username].disabled ==>
      db.sessions[k].revoked
  }

  ghost predicate Good(db: Db) {
    Valid(db) && DisabledHaveNone(db)
  }

  // ---------------------------------------------------------------- sessions, dead and alive

  /** Within all three windows; an account that must change its password has the restricted ones. */
  ghost predicate Within(l: Limits, row: Session, mustChange: bool, now: real) {
    && now < row.expires
    && (mustChange ==> now < row.created + l.restrictedAbsolute && now < row.lastSeen + l.restrictedIdle)
    && (!mustChange ==> now < row.created + l.absolute && now < row.lastSeen + l.idle)
  }

  predicate Expired(l: Limits, row: Session, mustChange: bool, now: real)
    ensures Expired(l, row, mustChange, now) <==> !Within(l, row, mustChange, now)
  {
    now >= row.expires || now >= row.created + AbsoluteOf(l, mustChange) || now >= row.lastSeen + IdleOf(l, mustChange)
  }

  /** The session is there, not revoked and not expired. */
  predicate Kept(l: Limits, db: Db, key: Key, now: real) {
    && key in db.sessions && !db.sessions[key].revoked && db.sessions[key].username in db.users
    && !Expired(l, db.sessions[key], db.users[db.sessions[key].username].mustChange, now)
  }

  /** The session would be accepted now, storage permitting. */
  predicate Live(l: Limits, db: Db, key: Key, now: real) {
    Kept(l, db, key, now) && !db.users[db.sessions[key].username].disabled
  }

  /** The session is refused only because its account is disabled. */
  predicate Dormant(l: Limits, db: Db, key: Key, now: real) {
    Kept(l, db, key, now) && db.users[db.sessions[key].username].disabled
  }

  /**
   What one operation at time `now` may do to the sessions that existed before it:
   no revoked one comes back, only a kept one is slid, and an account whose
   restriction is lifted keeps none.
   */
  ghost predicate Evolves(l: Limits, a: Db, b: Db, now: real, issued: set<Key>) {
    && Valid(b) && (DisabledHaveNone(a) ==> DisabledHaveNone(b))
    && forall k :: k in b.sessions && k !in issued ==> k in a.sessions && Inherits(l, a, b, k, now)
  }

  /** The account no longer has to change its password. */
  predicate Lifted(a: Db, b: Db, name: string) {
    name in a.users && name in b.users && a.users[name].mustChange && !b.users[name].mustChange
  }

  ghost predicate Inherits(l: Limits, a: Db, b: Db, k: Key, now: real)
    requires k in a.sessions && k in b.sessions
  {
    var r, r' := a.sessions[k], b.sessions[k];
    && r'.username == r.username && r'.created == r.created && r'.expires == r.expires
    && (r.revoked ==> r'.revoked)
    && (r'.lastSeen == r.lastSeen || (r'.lastSeen == now && Kept(l, a, k, now)))
    && (Lifted(a, b, r.username) ==> r'.revoked)
  }

  /** A session that is revoked, expired or gone stays so, through any operation and at any later time. */
  lemma GoneStaysGone(l: Limits, a: Db, b: Db, k: Key, now: real, later: real, issued: set<Key>)
    requires Sane(l) && Valid(a) && Evolves(l, a, b, now, issued) && k !in issued && now <= later
    requires !Kept(l, a, k, now)
    ensures !Kept(l, b, k, later)
  {
    if k in b.sessions {
      assert Inherits(l, a, b, k, now);
    }
  }

  /** In a store in which disabling has always revoked, nothing is dormant: dead means gone. */
  lemma NothingDormant(l: Limits, db: Db, k: Key, now: real)
    requires DisabledHaveNone(db)
    ensures !Dormant(l, db, k, now)
  {
  }

  // ---------------------------------------------------------------- sizes and administrators

  lemma SubsetSize<T>(a: set<T>, b: set<T>)
    requires a <= b
    ensures |a| <= |b|
  {
    assert b == a + (b - a);
  }

  /** Nobody else could administer the store. */
  ghost predicate OnlyAdmin(db: Db, name: string) {
    && name in db.users && db.users[name].role == Admin && !db.users[name].disabled
    && forall other :: other in db.users && other != name ==> db.users[other].role != Admin || db.users[other].disabled
  }

  lemma LastMeansOnly(db: Db, name: string)
    ensures EnabledAdmin(db, name) && |Admins(db)| <= 1 <==> OnlyAdmin(db, name)
  {
    if OnlyAdmin(db, name) {
      assert Admins(db) == {name};
    }
    if EnabledAdmin(db, name) && |Admins(db)| <= 1 {
      forall other | other in db.users && other != name ensures !EnabledAdmin(db, other) {
        if EnabledAdmin(db, other) {
          SubsetSize({name, other}, Admins(db));
        }
      }
    }
  }

  predicate IsLastEnabledAdmin(db: Db, name: string)
    ensures IsLastEnabledAdmin(db, name) <==> OnlyAdmin(db, name)
  {
    LastMeansOnly(db, name);
    EnabledAdmin(db, name) && |Admins(db)| <= 1
  }

  /** When the guard does not stop the change, somebody else is still an enabled administrator. */
  lemma AnotherAdmin(db: Db, name: string) returns (other: string)
    requires Admins(db) != {} && !IsLastEnabledAdmin(db, name)
    ensures other != name && other in Admins(db)
  {
    if name in Admins(db) {
      var rest := Admins(db) - {name};
      assert Admins(db) == rest + {name};
      other :| other in rest;
    } else {
      other :| other in Admins(db);
    }
  }

  /** `revoke_sessions_for`. */
  function Revoked(sessions: map<Key, Session>, name: string): (r: map<Key, Session>)
    ensures r.Keys == sessions.Keys
    // The account's rows are revoked and otherwise as they were; everybody else's are untouched.
    ensures forall k :: k in sessions && sessions[k].username == name ==> r[k].revoked && r[k].(revoked := sessions[k].revoked) == sessions[k]
    ensures forall k :: k in sessions && sessions[k].username != name ==> r[k] == sessions[k]
  {
    map k | k in sessions :: if sessions[k].username == name then sessions[k].(revoked := true) else sessions[k]
  }

  function Without(sessions: map<Key, Session>, name: string): (r: map<Key, Session>)
    ensures forall k :: k in sessions && sessions[k].username != name ==> k in r && r[k] == sessions[k]
    ensures forall k :: k in r ==> k in sessions && r[k].username != name
  {
    map k | k in sessions && sessions[k].username != name :: sessions[k]
  }

  /** The pruning of `create_session`. */
  function Pruned(sessions: map<Key, Session>, idle: real, now: real): (r: map<Key, Session>)
    ensures forall k :: k in sessions ==>
              (k !in r <==> sessions[k].revoked || now >= sessions[k].expires || now >= sessions[k].lastSeen + idle)
    ensures forall k :: k in r ==> k in sessions && r[k] == sessions[k]
  {
    map k | k in sessions && !sessions[k].revoked && sessions[k].expires > now && sessions[k].lastSeen + idle > now :: sessions[k]
  }

  /** Pruning never drops a session that would still be accepted. */
  lemma PruningKeepsLive(l: Limits, db: Db, k: Key, now: real)
    requires Sane(l) && Live(l, db, k, now)
    ensures k in Pruned(db.sessions, l.idle, now)
  {
  }

  /** The row of a session opened now: it lives for the absolute limit that the account's state allows. */
  ghost predicate NewRow(l: Limits, row: Session, name: string, mustChange: bool, now: real) {
    && row.username == name && row.created == now && row.lastSeen == now && !row.revoked
    && (mustChange ==> row.expires == now + l.restrictedAbsolute)
    && (!mustChange ==> row.expires == now + l.absolute)
  }

  /** Opening a session drops the row, whoever it belongs to. */
  ghost predicate Stale(l: Limits, row: Session, now: real) {
    row.revoked || now >= row.expires || now >= row.lastSeen + l.idle
  }

  /** One row more, and of the others exactly those that are not stale. */
  ghost predicate RowAdded(l: Limits, before: map<Key, Session>, after: map<Key, Session>, key: Key, name: string, mustChange: bool,
                           now: real) {
    && key in after && NewRow(l, after[key], name, mustChange, now)
    && (forall k :: k in after && k != key ==> k in before && after[k] == before[k])
    && (forall k :: k in before && k != key ==> (k !in after <==> Stale(l, before[k], now)))
  }

  function WithSession(l: Limits, db: Db, name: string, key: Key, now: real): (next: Option<Db>)
    requires name in db.users
    ensures next.Some? ==> key in next.value.sessions && NewRow(l, next.value.sessions[key], name, db.users[name].mustChange, now)
  {
    var kept := Pruned(db.sessions, l.idle, now);
    if |kept| >= MAX_SESSIONS then None
    else
      var expires := now + AbsoluteOf(l, db.users[name].mustChange);
      Some(db.(sessions := kept[key := Session(name, now, now, expires, false)]))
  }

  // ---------------------------------------------------------------- each kind of change keeps the store good

  /** `b` changes one account, keeps or revokes its sessions, and touches nothing else. */
  ghost predicate OneAccount(a: Db, b: Db, name: string) {
    && name in a.users && b.users.Keys == a.users.Keys
    && (forall u :: u in a.users && u != name ==> b.users[u] == a.users[u])
    && (b.sessions == a.sessions || b.sessions == Revoked(a.sessions, name))
    && (b.users[name].disabled && !a.users[name].disabled ==> b.sessions == Revoked(a.sessions, name))
    && (Lifted(a, b, name) ==> b.sessions == Revoked(a.sessions, name))
  }

  lemma OneAccountEvolves(l: Limits, a: Db, b: Db, name: string, now: real)
    requires Valid(a) && OneAccount(a, b, name)
    requires EnabledAdmin(a, name) ==> EnabledAdmin(b, name) || !IsLastEnabledAdmin(a, name)
    ensures Valid(b) && Evolves(l, a, b, now, {})
  {
    OneAccountIsValid(a, b, name);
    OneAccountInherits(l, a, b, name, now);
  }

  lemma OneAccountIsValid(a: Db, b: Db, name: string)
    requires Valid(a) && OneAccount(a, b, name)
    requires EnabledAdmin(a, name) ==> EnabledAdmin(b, name) || !IsLastEnabledAdmin(a, name)
    ensures Valid(b)
  {
    assert |b.users.Keys| == |a.users.Keys|;
    assert b.sessions.Keys == a.sessions.Keys;
    assert |b.sessions.Keys| == |a.sessions.Keys|;
    if IsLastEnabledAdmin(a, name) {
      assert name in Admins(b);
    } else {
      var other := AnotherAdmin(a, name);
      assert other in Admins(b);
    }
  }

  lemma OneAccountInherits(l: Limits, a: Db, b: Db, name: string, now: real)
    requires Valid(a) && OneAccount(a, b, name)
    ensures DisabledHaveNone(a) ==> DisabledHaveNone(b)
    ensures forall k :: k in b.sessions ==> k in a.sessions && Inherits(l, a, b, k, now)
  {
    assert b.sessions.Keys == a.sessions.Keys;
  }

  lemma CreationEvolves(l: Limits, a: Db, b: Db, name: string, user: User, now: real)
    requires Valid(a) && name !in a.users && |a.users| < MAX_USERS && b == a.(users := a.users[name := user])
    ensures Valid(b) && Evolves(l, a, b, now, {})
  {
    var admin :| admin in Admins(a);
    assert admin in Admins(b);
  }

  lemma DeletionEvolves(l: Limits, a: Db, b: Db, name: string, now: real)
    requires Valid(a) && name in a.users && !IsLastEnabledAdmin(a, name)
    requires b == Db(a.users - {name}, Without(a.sessions, name))
    ensures Valid(b) && Evolves(l, a, b, now, {})
  {
    var other := AnotherAdmin(a, name);
    assert other in Admins(b) && other in b.users.Keys;
    SubsetSize(b.users.Keys, a.users.Keys);
    SubsetSize(b.sessions.Keys, a.sessions.Keys);
  }

  lemma SessionIsValid(l: Limits, mid: Db, b: Db, name: string, key: Key, now: real)
    requires Sane(l) && Valid(mid) && name in mid.users && !mid.users[name].disabled
    requires WithSession(l, mid, name, key, now) == Some(b)
    ensures Valid(b) && Live(l, b, key, now)
  {
    assert Admins(b) == Admins(mid);
  }

  /** Opening a session for an enabled account after a change to that account alone. */
  lemma SessionEvolves(l: Limits, a: Db, mid: Db, b: Db, name: string, key: Key, now: real)
    requires Sane(l) && Valid(a) && OneAccount(a, mid, name) && !mid.users[name].disabled && key !in a.sessions
    requires EnabledAdmin(a, name) ==> EnabledAdmin(mid, name)
    requires WithSession(l, mid, name, key, now) == Some(b)
    ensures Valid(b) && Evolves(l, a, b, now, {key}) && Live(l, b, key, now)
  {
    OneAccountEvolves(l, a, mid, name, now);
    SessionIsValid(l, mid, b, name, key, now);
    SessionRows(l, mid, b, name, key, now);
    FewerRowsEvolve(l, a, mid, b, key, now);
  }

  /** Dropping rows and adding one for an enabled account keeps everything inherited. */
  lemma FewerRowsEvolve(l: Limits, a: Db, mid: Db, b: Db, key: Key, now: real)
    requires Evolves(l, a, mid, now, {}) && Valid(b) && b.users == mid.users
    requires forall k :: k in b.sessions && k != key ==> k in mid.sessions && b.sessions[k] == mid.sessions[k]
    requires key in b.sessions && b.sessions[key].username in b.users && !b.users[b.sessions[key].username].disabled
    ensures Evolves(l, a, b, now, {key})
  {
    forall k | k in b.sessions && k != key ensures k in a.sessions && Inherits(l, a, b, k, now) {
      assert Inherits(l, a, mid, k, now);
    }
  }

  /** A revoked session does not survive the pruning. */
  lemma RevokedArePruned(sessions: map<Key, Session>, name: string, idle: real, now: real)
    ensures forall k :: k in Pruned(Revoked(sessions, name), idle, now) ==> sessions[k].username != name
  {
  }

  lemma SessionRows(l: Limits, mid: Db, b: Db, name: string, key: Key, now: real)
    requires name in mid.users && WithSession(l, mid, name, key, now) == Some(b)
    ensures b.users == mid.users && b.sessions.Keys == Pruned(mid.sessions, l.idle, now).Keys + {key}
    ensures forall k :: k in b.sessions && k != key ==> k in mid.sessions && b.sessions[k] == mid.sessions[k]
    ensures RowAdded(l, mid.sessions, b.sessions, key, name, mid.users[name].mustChange, now)
  {
  }

  /** One row changes: it is revoked, or slid forward while it is kept. */
  lemma OneRowEvolves(l: Limits, a: Db, b: Db, key: Key, row: Session, now: real)
    requires Valid(a) && key in a.sessions && b == a.(sessions := a.sessions[key := row])
    requires row == a.sessions[key].(revoked := true) || (row == a.sessions[key].(lastSeen := now) && Kept(l, a, key, now))
    ensures Valid(b) && Evolves(l, a, b, now, {})
  {
    assert b.sessions.Keys == a.sessions.Keys;
    assert |b.sessions.Keys| == |a.sessions.Keys|;
    assert Admins(b) == Admins(a);
  }

  lemma NothingEvolves(l: Limits, a: Db, now: real)
    requires Valid(a)
    ensures Evolves(l, a, a, now, {})
  {
  }

  // ---------------------------------------------------------------- every store this program writes

  /** A store as it is created or migrated holds no session. */
  lemma NewStoreIsGood(db: Db)
    requires Valid(db) && db.sessions == map[]
    ensures Good(db)
  {
  }

  /** Opening again rotates a shipped credential to a setup code; the store stays good. */
  lemma RotationEvolves(l: Limits, a: Db, b: Db, name: string, secret: nat, now: real)
    requires Valid(a) && name in a.users
    requires b == Db(a.users[name := a.users[name].(secret := secret, mustChange := true, lock := Lockout.Account(0, None))],
                     Revoked(a.sessions, name))
    ensures Evolves(l, a, b, now, {})
  {
    OneAccountEvolves(l, a, b, name, now);
  }

  /**
   From a new store on, through any operations, rotations and reopenings (which
   start from what was committed), no session of a disabled account is unrevoked.
   */
  lemma {:induction false} StoresStayGood(ls: seq<Limits>, dbs: seq<Db>, times: seq<real>, issued: seq<set<Key>>, i: nat)
    requires i < |dbs| == |times| + 1 && |issued| == |ls| == |times|
    requires Valid(dbs[0]) && dbs[0].sessions == map[]
    requires forall n :: 0 <= n < |times| ==> Evolves(ls[n], dbs[n], dbs[n + 1], times[n], issued[n])
    ensures Good(dbs[i])
  {
    if i == 0 {
      NewStoreIsGood(dbs[0]);
    } else {
      StoresStayGood(ls, dbs, times, issued, i - 1);
      assert Evolves(ls[i - 1], dbs[i - 1], dbs[i], times[i - 1], issued[i - 1]);
    }
  }
}
