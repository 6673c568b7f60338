/**
 The skills-registry lock: mutual exclusion by directory creation, stale locks
 reclaimed behind a guard directory, and under the lock a read-modify-write of
 a versioned registry.

 Every step is one file-system call of one process.  Processes interleave
 freely, crash at any point and never come back under the same PID; time passes
 between any two steps.
 */
module RegistryLock {

  import opened Basics

  const STALE: int := 60

  type Pid = nat

  datatype Commit = Commit(version: nat, author: Pid)

  datatype Registry = Registry(version: nat, history: seq<Commit>)

  /** The lock directory: who made it (not recorded on disk), which incarnation, its mtime and owner token. */
  datatype Lock = NoLock | Lock(owner: Pid, born: nat, mtime: int, token: Option<Pid>)

  datatype Pc =
    | Idle
    | MakeToken(reclaimed: bool)  // the directory was created; write owner.json
    | MakeGuard                   // the directory existed; create the reclaim guard
    | Stat                        // under the guard: metadata of the lock directory
    | ReadClock                   // compute its age
    | ReadToken                   // read owner.json and, for a recorded PID, probe the process
    | DropToken                   // remove_dir_all: the token, then the directory
    | DropDir
    | Remake                      // create the directory again
    | LeaveGuard(won: bool)
    | Load                        // holding: read the registry
    | Store                       // holding: replace the registry
    | CheckOwner                  // release: token absent or ours?
    | RemoveToken
    | RemoveDir

  datatype Proc = Proc(alive: bool, pc: Pc, seenBorn: nat, seenMtime: int, age: int, snapshot: Registry)

  datatype State = State(now: int, procs: map<Pid, Proc>, lock: Lock, guard: Option<Pid>, nextBorn: nat,
                         registry: Registry, commits: nat)

  datatype Step = Act(p: Pid) | Abort(p: Pid) | Crash(p: Pid) | Tick(elapsed: nat)

  predicate Holding(pc: Pc) {
    pc.MakeToken? || pc == LeaveGuard(true) || pc.Load? || pc.Store? || pc.CheckOwner? || pc.RemoveToken? || pc.RemoveDir?
  }

  predicate InGuard(pc: Pc) {
    || pc.Stat? || pc.ReadClock? || pc.ReadToken? || pc.DropToken? || pc.DropDir? || pc.Remake?
    || pc.LeaveGuard? || pc == MakeToken(true)
  }

  predicate Alive(s: State, p: Pid) { p in s.procs && s.procs[p].alive }

  function Goto(s: State, p: Pid, pc: Pc): State
    requires p in s.procs
  {
    s.(procs := s.procs[p := s.procs[p].(pc := pc)])
  }

  function MakeDir(s: State, p: Pid): State {
    s.(lock := Lock(p, s.nextBorn, s.now, None), nextBorn := s.nextBorn + 1)
  }

  /** Creating or removing an entry refreshes the directory's mtime; rewriting a file does not. */
  function WithToken(s: State, token: Option<Pid>): State
    requires s.lock.Lock?
  {
    s.(lock := s.lock.(token := token, mtime := if s.lock.token.Some? == token.Some? then s.lock.mtime else s.now))
  }

  /** The reclaimer finds no token, or the token of a process that is gone. */
  predicate Condemns(s: State, p: Pid) {
    && Alive(s, p) && s.procs[p].pc.ReadToken? && s.procs[p].age > STALE
    && (s.lock.NoLock? || s.lock.token.None? || !Alive(s, s.lock.token.value))
  }

  function Committed(r: Registry, p: Pid): Registry {
    Registry(r.version + 1, r.history + [Commit(r.version + 1, p)])
  }

  function ActOf(s: State, p: Pid): State
    requires Alive(s, p)
  {
    var me := s.procs[p];
    match me.pc
    case Idle =>
      if s.lock.NoLock? then Goto(MakeDir(s, p), p, MakeToken(false)) else Goto(s, p, MakeGuard)
    case MakeToken(reclaimed) =>
      Goto(if s.lock.Lock? then WithToken(s, Some(p)) else s, p, if reclaimed then LeaveGuard(true) else Load)
    case MakeGuard =>
      if s.guard.None? then Goto(s.(guard := Some(p)), p, Stat) else Goto(s, p, Idle)
    case Stat =>
      if s.lock.NoLock? then Goto(s, p, Remake)
      else s.(procs := s.procs[p := me.(pc := ReadClock, seenBorn := s.lock.born, seenMtime := s.lock.mtime)])
    case ReadClock =>
      s.(procs := s.procs[p := me.(pc := ReadToken, age := s.now - me.seenMtime)])
    case ReadToken =>
      if Condemns(s, p) then Goto(s, p, DropToken) else Goto(s, p, LeaveGuard(false))
    case DropToken =>
      Goto(if s.lock.Lock? then WithToken(s, None) else s, p, DropDir)
    case DropDir =>
      Goto(if s.lock.Lock? && s.lock.token.None? then s.(lock := NoLock) else s, p, Remake)
    case Remake =>
      if s.lock.NoLock? then Goto(MakeDir(s, p), p, MakeToken(true)) else Goto(s, p, LeaveGuard(false))
    case LeaveGuard(won) =>
      Goto(s.(guard := None), p, if won then Load else Idle)
    case Load =>
      s.(procs := s.procs[p := me.(pc := Store, snapshot := s.registry)])
    case Store =>
      Goto(s.(registry := Committed(me.snapshot, p), commits := s.commits + 1), p, CheckOwner)
    case CheckOwner =>
      Goto(s, p, if s.lock.NoLock? || s.lock.token.None? || s.lock.token == Some(p) then RemoveToken else Idle)
    case RemoveToken =>
      Goto(if s.lock.Lock? then WithToken(s, None) else s, p, RemoveDir)
    case RemoveDir =>
      Goto(if s.lock.Lock? && s.lock.token.None? then s.(lock := NoLock) else s, p, Idle)
  }

  predicate Enabled(s: State, e: Step) {
    match e
    case Act(p) => Alive(s, p)
    case Abort(p) => Alive(s, p) && (s.procs[p].pc.Load? || s.procs[p].pc.Store?)
    case Crash(p) => Alive(s, p)
    case Tick(_) => true
  }

  function Next(s: State, e: Step): State
    requires Enabled(s, e)
  {
    match e
    case Act(p) => ActOf(s, p)
    case Abort(p) => Goto(s, p, CheckOwner)
    case Crash(p) => s.(procs := s.procs[p := s.procs[p].(alive := false)])
    case Tick(elapsed) => s.(now := s.now + elapsed)
  }

  predicate Init(s: State) {
    && (forall p :: p in s.procs ==> s.procs[p].alive && s.procs[p].pc.Idle?)
    && s.lock.NoLock? && s.guard.None? && s.registry == Registry(0, []) && s.commits == 0
  }

  // ---------------------------------------------------------------- what is promised

  ghost predicate MutualExclusion(s: State) {
    forall p, q :: Alive(s, p) && Alive(s, q) && Holding(s.procs[p].pc) && Holding(s.procs[q].pc) ==> p == q
  }

  /** One version and one history entry per committed apply. */
  ghost predicate NothingLost(s: State) {
    && s.registry.version == s.commits == |s.registry.history|
    && forall i :: 0 <= i < |s.registry.history| ==> s.registry.history[i].version == i + 1
  }

  /** The lock judged stale really belongs to a dead process. */
  predicate SoundlyCondemned(s: State) {
    s.lock.Lock? && s.lock.owner in s.procs && !s.procs[s.lock.owner].alive
  }

  // ---------------------------------------------------------------- invariant

  ghost predicate ProcInv(s: State, p: Pid)
    requires p in s.procs
  {
    var me := s.procs[p];
    me.alive ==>
      && (Holding(me.pc) ==> s.lock.Lock? && s.lock.owner == p)
      && (Holding(me.pc) ==> s.lock.token == if me.pc.MakeToken? || me.pc.RemoveDir? then None else Some(p))
      && (InGuard(me.pc) ==> s.guard == Some(p))
      && (me.pc.DropToken? || me.pc.DropDir? ==> SoundlyCondemned(s))
      && (me.pc.DropDir? ==> s.lock.token.None?)
      && (me.pc.Store? ==> me.snapshot == s.registry)
      && (me.pc.ReadToken? ==> me.age <= s.now - me.seenMtime)
  }

  ghost predicate LockInv(s: State) {
    s.lock.Lock? ==>
      && s.lock.owner in s.procs
      && (s.lock.token.Some? ==> s.lock.token == Some(s.lock.owner))
      && (s.procs[s.lock.owner].alive ==> Holding(s.procs[s.lock.owner].pc))
  }

  ghost predicate Inv(s: State) {
    && (forall p :: p in s.procs ==> ProcInv(s, p))
    && LockInv(s) && NothingLost(s)
  }

  lemma InvGivesExclusion(s: State)
    requires Inv(s)
    ensures MutualExclusion(s)
  {
    forall p, q | Alive(s, p) && Alive(s, q) && Holding(s.procs[p].pc) && Holding(s.procs[q].pc) ensures p == q {
      assert ProcInv(s, p) && ProcInv(s, q);
    }
  }

  /** A step is a false judgement when it condemns a lock whose owner is not dead. */
  predicate FalseJudgement(s: State, e: Step) {
    e.Act? && Condemns(s, e.p) && !SoundlyCondemned(s)
  }

  lemma ActKeepsOthers(s: State, p: Pid)
    requires Inv(s) && Alive(s, p) && !FalseJudgement(s, Act(p))
    ensures forall q :: q in s.procs && q != p ==> ProcInv(ActOf(s, p), q)
  {
    assert ProcInv(s, p);
    forall q | q in s.procs && q != p ensures ProcInv(ActOf(s, p), q) {
      assert ProcInv(s, q);
    }
  }

  lemma ActKeepsSelf(s: State, p: Pid)
    requires Inv(s) && Alive(s, p) && !FalseJudgement(s, Act(p))
    ensures ProcInv(ActOf(s, p), p)
  {
    assert ProcInv(s, p);
  }

  lemma ActKeepsShared(s: State, p: Pid)
    requires Inv(s) && Alive(s, p) && !FalseJudgement(s, Act(p))
    ensures LockInv(ActOf(s, p)) && NothingLost(ActOf(s, p)) && ActOf(s, p).procs.Keys == s.procs.Keys
  {
    assert ProcInv(s, p);
  }

  lemma AbortKeepsInv(s: State, p: Pid)
    requires Inv(s) && Enabled(s, Abort(p))
    ensures Inv(Next(s, Abort(p)))
  {
    forall q | q in s.procs ensures ProcInv(Next(s, Abort(p)), q) {
      assert ProcInv(s, q);
    }
  }

  lemma CrashKeepsInv(s: State, p: Pid)
    requires Inv(s) && Enabled(s, Crash(p))
    ensures Inv(Next(s, Crash(p)))
  {
    forall q | q in s.procs ensures ProcInv(Next(s, Crash(p)), q) {
      assert ProcInv(s, q);
    }
  }

  lemma TickKeepsInv(s: State, elapsed: nat)
    requires Inv(s)
    ensures Inv(Next(s, Tick(elapsed)))
  {
    forall q | q in s.procs ensures ProcInv(Next(s, Tick(elapsed)), q) {
      assert ProcInv(s, q);
    }
  }

  lemma ActKeepsInv(s: State, p: Pid)
    requires Inv(s) && Alive(s, p) && !FalseJudgement(s, Act(p))
    ensures Inv(ActOf(s, p))
  {
    ActKeepsOthers(s, p);
    ActKeepsSelf(s, p);
    ActKeepsShared(s, p);
    var t := ActOf(s, p);
    forall q | q in t.procs ensures ProcInv(t, q) {
      assert q in s.procs.Keys;
    }
  }

  lemma StepKeepsInv(s: State, e: Step)
    requires Inv(s) && Enabled(s, e) && !FalseJudgement(s, e)
    ensures Inv(Next(s, e))
  {
    match e
    case Act(p) => ActKeepsInv(s, p);
    case Abort(p) => AbortKeepsInv(s, p);
    case Crash(p) => CrashKeepsInv(s, p);
    case Tick(elapsed) => TickKeepsInv(s, elapsed);
  }

  // ---------------------------------------------------------------- runs

  /** `steps` lead from `s` to `t`, and each of them satisfies `ok` in the state it is taken. */
  ghost predicate Runs(s: State, steps: seq<Step>, t: State, ok: (State, Step) -> bool)
    decreases |steps|
  {
    if steps == [] then s == t
    else
      var n := |steps| - 1;
      exists mid :: Runs(s, steps[..n], mid, ok) && ok(mid, steps[n]) && Enabled(mid, steps[n]) && t == Next(mid, steps[n])
  }

  lemma Then(s: State, steps: seq<Step>, mid: State, ok: (State, Step) -> bool, e: Step)
    requires Runs(s, steps, mid, ok) && Enabled(mid, e) && ok(mid, e)
    ensures Runs(s, steps + [e], Next(mid, e), ok)
  {
    assert (steps + [e])[..|steps|] == steps;
  }

  /** Without a false judgement the lock excludes and no committed apply is lost, in every run. */
  lemma {:induction false} SoundRunsExclude(s: State, steps: seq<Step>, t: State)
    requires Init(s) && Runs(s, steps, t, (m, e) => !FalseJudgement(m, e))
    ensures Inv(t) && MutualExclusion(t) && NothingLost(t)
    decreases |steps|
  {
    if steps != [] {
      var n := |steps| - 1;
      var mid :| Runs(s, steps[..n], mid, (m, e) => !FalseJudgement(m, e))
                 && !FalseJudgement(mid, steps[n]) && Enabled(mid, steps[n]) && t == Next(mid, steps[n]);
      SoundRunsExclude(s, steps[..n], mid);
      StepKeepsInv(mid, steps[n]);
    }
    InvGivesExclusion(t);
  }

  // ---------------------------------------------------------------- timing

  /** Token writes and releases finish inside the stale window. */
  predicate Prompt(s: State) {
    s.lock.Lock? && Alive(s, s.lock.owner) && Pending(s.procs[s.lock.owner].pc) ==> s.now - s.lock.mtime <= STALE
  }

  predicate Pending(pc: Pc) { pc.MakeToken? || pc.RemoveDir? }

  /** A reclaimer that is about to read the token still faces the directory it took the age of. */
  ghost predicate Unchanged(s: State, p: Pid) {
    Alive(s, p) && s.procs[p].pc.ReadToken? ==>
      s.lock.Lock? && s.lock.born == s.procs[p].seenBorn && s.lock.mtime == s.procs[p].seenMtime
  }

  lemma TimelyJudgementIsSound(s: State, p: Pid)
    requires Inv(s) && Prompt(s) && Condemns(s, p) && Unchanged(s, p)
    ensures SoundlyCondemned(s)
  {
    var o := s.lock.owner;
    assert ProcInv(s, p) && ProcInv(s, o);
  }

  /**
   The working condition: prompt token writes and releases, and a reclaimer that
   condemns still faces the lock directory it took the age of.
   */
  ghost predicate Timely(m: State, e: Step) {
    Prompt(m) && (e.Act? && Condemns(m, e.p) ==> Unchanged(m, e.p))
  }

  lemma {:induction false} TimelyRunsAreSound(s: State, steps: seq<Step>, t: State)
    requires Init(s) && Runs(s, steps, t, (m, e) => Timely(m, e))
    ensures Runs(s, steps, t, (m, e) => !FalseJudgement(m, e))
    decreases |steps|
  {
    if steps != [] {
      var n := |steps| - 1;
      var mid :| Runs(s, steps[..n], mid, (m, e) => Timely(m, e))
                 && Timely(mid, steps[n]) && Enabled(mid, steps[n]) && t == Next(mid, steps[n]);
      TimelyRunsAreSound(s, steps[..n], mid);
      SoundRunsExclude(s, steps[..n], mid);
      if FalseJudgement(mid, steps[n]) {
        TimelyJudgementIsSound(mid, steps[n].p);
      }
      assert !FalseJudgement(mid, steps[n]);
    }
  }

  lemma TimelyRunsExclude(s: State, steps: seq<Step>, t: State)
    requires Init(s) && Runs(s, steps, t, (m, e) => Timely(m, e))
    ensures MutualExclusion(t) && NothingLost(t)
  {
    TimelyRunsAreSound(s, steps, t);
    SoundRunsExclude(s, steps, t);
  }

  // ---------------------------------------------------------------- the condition is needed

  ghost predicate BothInside(t: State, p: Pid, q: Pid) {
    p != q && Alive(t, p) && Alive(t, q) && t.procs[p].pc.Load? && t.procs[q].pc.Load?
  }

  /** `steps` lead from `s` to `t`, whatever they are. */
  ghost predicate Reaches(s: State, steps: seq<Step>, t: State) {
    Runs(s, steps, t, (m, e) => true)
  }

  lemma Do(s: State, steps: seq<Step>, mid: State, p: Pid) returns (steps': seq<Step>, t: State)
    requires Reaches(s, steps, mid) && Alive(mid, p)
    ensures t == ActOf(mid, p) && Reaches(s, steps', t)
  {
    t := Next(mid, Act(p));
    steps' := steps + [Act(p)];
    Then(s, steps, mid, (m, e) => true, Act(p));
  }

  /** After condemning, the reclaimer empties the path and takes the lock for itself. */
  lemma TakeOver(s: State, steps: seq<Step>, mid: State, r: Pid) returns (steps': seq<Step>, t: State)
    requires Reaches(s, steps, mid) && Alive(mid, r) && mid.procs[r].pc.DropToken?
    ensures Reaches(s, steps', t)
    ensures t.lock == Lock(r, mid.nextBorn, mid.now, None)
    ensures t.procs == mid.procs[r := mid.procs[r].(pc := MakeToken(true))]
  {
    var a, b := Do(s, steps, mid, r);
    a, b := Do(s, a, b, r);
    steps', t := Do(s, a, b, r);
  }

  /** A victim that has just created the lock walks in beside the reclaimer. */
  lemma MeetInside(s: State, steps: seq<Step>, mid: State, r: Pid, o: Pid) returns (steps': seq<Step>, t: State)
    requires Reaches(s, steps, mid) && o != r && Alive(mid, r) && Alive(mid, o)
    requires mid.procs[r].pc == MakeToken(true) && mid.procs[o].pc == MakeToken(false)
    ensures Reaches(s, steps', t) && BothInside(t, r, o)
  {
    var a, b := Do(s, steps, mid, o);
    a, b := Do(s, a, b, r);
    steps', t := Do(s, a, b, r);
  }

  /**
   Every false judgement against a live owner can end with two live processes
   inside: the owner is between creating the directory and writing its token, or
   between removing its token and the directory.
   */
  lemma FalseJudgementIsFatal(s: State, r: Pid) returns (steps: seq<Step>, t: State)
    requires Inv(s) && Condemns(s, r) && s.lock.Lock? && !SoundlyCondemned(s)
    ensures Reaches(s, steps, t) && BothInside(t, r, s.lock.owner) && !MutualExclusion(t)
  {
    var o := s.lock.owner;
    assert ProcInv(s, o) && ProcInv(s, r);
    var a, b := Do(s, [], s, r);
    a, b := TakeOver(s, a, b, r);
    if s.procs[o].pc.RemoveDir? {
      a, b := Do(s, a, b, o);
      a, b := Do(s, a, b, o);
    }
    steps, t := MeetInside(s, a, b, r, o);
    assert Holding(t.procs[r].pc) && Holding(t.procs[o].pc);
  }

  /** Condemning a path that has become free is as fatal once any other process takes it. */
  lemma CondemningAFreePathIsFatal(s: State, r: Pid, q: Pid) returns (steps: seq<Step>, t: State)
    requires Inv(s) && Condemns(s, r) && s.lock.NoLock?
    requires q != r && Alive(s, q) && s.procs[q].pc.Idle?
    ensures Reaches(s, steps, t) && BothInside(t, r, q) && !MutualExclusion(t)
  {
    var a, b := Do(s, [], s, r);
    a, b := Do(s, a, b, q);
    a, b := TakeOver(s, a, b, r);
    steps, t := MeetInside(s, a, b, r, q);
    assert Holding(t.procs[r].pc) && Holding(t.procs[q].pc);
  }

  // ---------------------------------------------------------------- progress

  /** Only `q` acts, and no time passes. */
  predicate Alone(steps: seq<Step>, q: Pid) {
    forall i :: 0 <= i < |steps| ==> steps[i] == Act(q)
  }

  predicate At(s: State, q: Pid, pc: Pc) { Alive(s, q) && s.procs[q].pc == pc }

  /** Nothing but `q` and the lock differs. */
  ghost predicate Elsewhere(s: State, t: State, q: Pid) {
    && t.now == s.now && t.registry == s.registry && t.commits == s.commits && t.procs.Keys == s.procs.Keys
    && forall p :: p in s.procs && p != q ==> t.procs[p] == s.procs[p]
  }

  lemma DoAlone(s: State, steps: seq<Step>, mid: State, q: Pid) returns (steps': seq<Step>, t: State)
    requires Reaches(s, steps, mid) && Alone(steps, q) && Alive(mid, q)
    ensures t == ActOf(mid, q) && Reaches(s, steps', t) && Alone(steps', q) && |steps'| == |steps| + 1
  {
    t := Next(mid, Act(q));
    steps' := steps + [Act(q)];
    Then(s, steps, mid, (m, e) => true, Act(q));
  }

  /** The lock is old, and nobody alive has put a token into it. */
  predicate Abandoned(s: State) {
    s.lock.Lock? && s.now - s.lock.mtime > 60 && (s.lock.token == None || !Alive(s, s.lock.token.value))
  }

  lemma LooksAtLock(s: State, q: Pid) returns (steps: seq<Step>, t: State)
    requires At(s, q, Idle) && s.guard.None? && s.lock.Lock?
    ensures Reaches(s, steps, t) && Alone(steps, q) && Elsewhere(s, t, q)
    ensures At(t, q, ReadClock) && t.procs[q].seenMtime == s.lock.mtime
    ensures t.lock == s.lock && t.guard == Some(q) && t.nextBorn == s.nextBorn
  {
    steps, t := DoAlone(s, [], s, q);
    steps, t := DoAlone(s, steps, t, q);
    steps, t := DoAlone(s, steps, t, q);
  }

  lemma FindsItAbandoned(s: State, steps: seq<Step>, mid: State, q: Pid) returns (steps': seq<Step>, t: State)
    requires Reaches(s, steps, mid) && Alone(steps, q) && Abandoned(mid)
    requires At(mid, q, ReadClock) && mid.procs[q].seenMtime == mid.lock.mtime
    ensures Reaches(s, steps', t) && Alone(steps', q) && Elsewhere(mid, t, q)
    ensures At(t, q, DropToken) && t.lock == mid.lock && t.guard == mid.guard && t.nextBorn == mid.nextBorn
  {
    steps', t := DoAlone(s, steps, mid, q);
    steps', t := DoAlone(s, steps', t, q);
  }

  lemma ClearsThePath(s: State, steps: seq<Step>, mid: State, q: Pid) returns (steps': seq<Step>, t: State)
    requires Reaches(s, steps, mid) && Alone(steps, q) && At(mid, q, DropToken) && mid.lock.Lock?
    ensures Reaches(s, steps', t) && Alone(steps', q) && Elsewhere(mid, t, q)
    ensures At(t, q, Remake) && t.lock.NoLock? && t.guard == mid.guard && t.nextBorn == mid.nextBorn
  {
    steps', t := DoAlone(s, steps, mid, q);
    steps', t := DoAlone(s, steps', t, q);
  }

  lemma TakesThePath(s: State, steps: seq<Step>, mid: State, q: Pid) returns (steps': seq<Step>, t: State)
    requires Reaches(s, steps, mid) && Alone(steps, q) && At(mid, q, Remake) && mid.lock.NoLock?
    ensures Reaches(s, steps', t) && Alone(steps', q) && Elsewhere(mid, t, q)
    ensures At(t, q, Load) && t.lock == Lock(q, mid.nextBorn, mid.now, Some(q)) && t.guard.None?
  {
    steps', t := DoAlone(s, steps, mid, q);
    steps', t := DoAlone(s, steps', t, q);
    steps', t := DoAlone(s, steps', t, q);
  }

  /** With the guard free, a process by itself takes over an abandoned lock, and leaves everything else alone. */
  lemma AbandonedLockIsReclaimed(s: State, q: Pid) returns (steps: seq<Step>, t: State)
    requires At(s, q, Idle) && s.guard.None? && Abandoned(s)
    ensures Reaches(s, steps, t) && Alone(steps, q) && Elsewhere(s, t, q)
    ensures At(t, q, Load) && t.lock == Lock(q, s.nextBorn, s.now, Some(q)) && t.guard.None?
  {
    steps, t := LooksAtLock(s, q);
    steps, t := FindsItAbandoned(s, steps, t, q);
    steps, t := ClearsThePath(s, steps, t, q);
    steps, t := TakesThePath(s, steps, t, q);
  }

  /** So a process that dies holding the lock blocks nobody for longer than the stale window. */
  lemma DeadOwnersLockIsReclaimed(s: State, q: Pid) returns (steps: seq<Step>, t: State)
    requires Inv(s) && s.lock.Lock? && !Alive(s, s.lock.owner) && s.now - s.lock.mtime > 60
    requires At(s, q, Idle) && s.guard.None?
    ensures Reaches(s, steps, t) && Alone(steps, q) && Elsewhere(s, t, q)
    ensures At(t, q, Load) && t.lock.Lock? && t.lock.owner == q && t.lock.token == Some(q)
  {
    steps, t := AbandonedLockIsReclaimed(s, q);
  }

  /** A free lock is taken at once. */
  lemma FreeLockIsTaken(s: State, q: Pid) returns (steps: seq<Step>, t: State)
    requires At(s, q, Idle) && s.lock.NoLock?
    ensures Reaches(s, steps, t) && Alone(steps, q) && |steps| == 2 && Elsewhere(s, t, q)
    ensures At(t, q, Load) && t.lock == Lock(q, s.nextBorn, s.now, Some(q)) && t.guard == s.guard
  {
    steps, t := DoAlone(s, [], s, q);
    steps, t := DoAlone(s, steps, t, q);
  }

  lemma HolderApplies(s: State, q: Pid) returns (steps: seq<Step>, t: State)
    requires At(s, q, Load) && s.lock.Lock? && s.lock.token == Some(q)
    ensures Reaches(s, steps, t) && Alone(steps, q) && At(t, q, RemoveToken) && t.lock == s.lock
    ensures t.commits == s.commits + 1
    ensures t.registry.version == s.registry.version + 1
    ensures t.registry.history == s.registry.history + [Commit(s.registry.version + 1, q)]
  {
    steps, t := DoAlone(s, [], s, q);
    steps, t := DoAlone(s, steps, t, q);
    steps, t := DoAlone(s, steps, t, q);
  }

  /** A holder left to itself adds one version with one history entry, and frees the lock. */
  lemma HolderAppliesAndReleases(s: State, q: Pid) returns (steps: seq<Step>, t: State)
    requires At(s, q, Load) && s.lock.Lock? && s.lock.token == Some(q)
    ensures Reaches(s, steps, t) && Alone(steps, q) && At(t, q, Idle) && t.lock.NoLock?
    ensures t.commits == s.commits + 1
    ensures t.registry.version == s.registry.version + 1
    ensures t.registry.history == s.registry.history + [Commit(s.registry.version + 1, q)]
  {
    steps, t := HolderApplies(s, q);
    steps, t := DoAlone(s, steps, t, q);
    steps, t := DoAlone(s, steps, t, q);
  }

  /** A process whose lock was taken from it leaves the new owner's alone. */
  lemma ReleaseSparesOthers(s: State, q: Pid)
    requires At(s, q, CheckOwner) && s.lock.Lock? && s.lock.token.Some? && s.lock.token.value != q
    ensures var t := Next(s, Act(q)); At(t, q, Idle) && t.lock == s.lock && Elsewhere(s, t, q)
  {
  }

  /** Writing a first token and removing one make the directory young again; writing over one does not. */
  lemma TokenRefreshesDirectory(s: State, q: Pid)
    requires Alive(s, q) && s.lock.Lock? && Next(s, Act(q)).lock.Lock?
    ensures var pc, was, lock := s.procs[q].pc, s.lock, Next(s, Act(q)).lock;
      && lock.owner == was.owner && lock.born == was.born
      && (pc.MakeToken? ==> lock.token == Some(q) && lock.mtime == if was.token.None? then s.now else was.mtime)
      && (pc.RemoveToken? || pc.DropToken? ==> lock.token == None && lock.mtime == if was.token.Some? then s.now else was.mtime)
      && (!pc.MakeToken? && !pc.RemoveToken? && !pc.DropToken? ==> lock == was)
  {
  }

  /** `q` has found the lock taken and is on its way in or back; what it has seen is the lock that is there. */
  ghost predicate KeptOut(s: State, t: State, q: Pid) {
    && t.lock == s.lock && t.registry == s.registry && t.commits == s.commits && t.now >= s.now && t.procs.Keys == s.procs.Keys
    && (forall p :: p in s.procs && p != q ==> t.procs[p] == s.procs[p])
    && q in t.procs && t.procs[q].alive && t.lock.Lock?
    && var me := t.procs[q];
       && (me.pc.Idle? || me.pc.MakeGuard? || me.pc.Stat? || me.pc.ReadClock? || me.pc.ReadToken? || me.pc == LeaveGuard(false))
       && (me.pc.ReadClock? || me.pc.ReadToken? ==> me.seenMtime == t.lock.mtime)
       && (me.pc.ReadToken? ==> me.age <= t.now - t.lock.mtime)
  }

  /** The owner that wrote its token is alive, or the lock is young. */
  predicate Kept(s: State) {
    s.lock.Lock? && ((s.lock.token.Some? && Alive(s, s.lock.token.value)) || s.now - s.lock.mtime <= 60)
  }

  lemma StaysKeptOut(s: State, mid: State, q: Pid, e: Step)
    requires KeptOut(s, mid, q) && Kept(mid) && (e == Act(q) || e.Tick?)
    ensures Enabled(mid, e) && KeptOut(s, Next(mid, e), q)
  {
  }

  /**
   However often `q` tries and however long it waits: a lock with the token of a live owner, or one that is
   still young at the end, is not taken from its owner and not touched.
   */
  lemma {:induction false} KeptLockIsLeftAlone(s: State, q: Pid, steps: seq<Step>, t: State)
    requires At(s, q, Idle) && s.lock.Lock? && Reaches(s, steps, t)
    requires forall i :: 0 <= i < |steps| ==> steps[i] == Act(q) || steps[i].Tick?
    requires (s.lock.token.Some? && Alive(s, s.lock.token.value)) || t.now - s.lock.mtime <= 60
    ensures KeptOut(s, t, q)
    decreases |steps|
  {
    if steps != [] {
      var n := |steps| - 1;
      var mid :| Reaches(s, steps[..n], mid) && Enabled(mid, steps[n]) && t == Next(mid, steps[n]);
      KeptLockIsLeftAlone(s, q, steps[..n], mid);
      StaysKeptOut(s, mid, q, steps[n]);
    }
  }

  /** The reclaimer `g` died behind its guard, and the lock is a dead process's too. */
  predicate Stuck(s: State, g: Pid) {
    s.guard == Some(g) && !Alive(s, g) && s.lock.Lock? && !Alive(s, s.lock.owner)
  }

  lemma StaysStuck(s: State, g: Pid, e: Step)
    requires Inv(s) && Stuck(s, g) && Enabled(s, e)
    ensures Inv(Next(s, e)) && Stuck(Next(s, e), g)
    ensures Next(s, e).lock == s.lock && Next(s, e).registry == s.registry
  {
    if !e.Tick? {
      assert ProcInv(s, e.p);
    }
    StepKeepsInv(s, e);
  }

  /**
   The guard must be free for that: a reclaimer that dies behind its guard leaves the registry locked for
   good, whatever anybody does and however long it lasts.
   */
  lemma {:induction false} DeadGuardLocksForGood(s: State, g: Pid, steps: seq<Step>, t: State)
    requires Inv(s) && Stuck(s, g) && Reaches(s, steps, t)
    ensures Inv(t) && Stuck(t, g) && t.lock == s.lock && t.registry == s.registry
    ensures forall p :: Alive(t, p) ==> !Holding(t.procs[p].pc)
    decreases |steps|
  {
    if steps != [] {
      var n := |steps| - 1;
      var mid :| Reaches(s, steps[..n], mid) && Enabled(mid, steps[n]) && t == Next(mid, steps[n]);
      DeadGuardLocksForGood(s, g, steps[..n], mid);
      StaysStuck(mid, g, steps[n]);
    }
    forall p | Alive(t, p) ensures !Holding(t.procs[p].pc) {
      assert ProcInv(t, p);
    }
  }

  // ---------------------------------------------------------------- promptness alone is not enough

  function Fresh(): Proc { Proc(true, Idle, 0, 0, 0, Registry(0, [])) }

  lemma Timed(s: State, steps: seq<Step>, mid: State, e: Step) returns (steps': seq<Step>, t: State)
    requires Runs(s, steps, mid, (m, e) => Prompt(m)) && Prompt(mid) && Enabled(mid, e)
    ensures t == Next(mid, e) && Runs(s, steps', t, (m, e) => Prompt(m))
  {
    t := Next(mid, e);
    steps' := steps + [e];
    Then(s, steps, mid, (m, e) => Prompt(m), e);
  }

  /** A prompt run from the three fresh processes below to `t`. */
  ghost predicate Told(steps: seq<Step>, t: State) {
    Runs(Start(), steps, t, (m, e) => Prompt(m))
  }

  function Start(): State {
    State(0, map[1 := Fresh(), 2 := Fresh(), 3 := Fresh()], NoLock, None, 0, Registry(0, []), 0)
  }

  function Scene(now: int, one: Proc, two: Proc, three: Proc, lock: Lock, guard: Option<Pid>, born: nat, r: Registry, n: nat): State {
    State(now, map[1 := one, 2 := two, 3 := three], lock, guard, born, r, n)
  }

  const Ready := Proc(true, ReadToken, 0, 0, 70, Registry(0, []))
  const Once := Registry(1, [Commit(1, 1)])

  lemma HolderWaits() returns (steps: seq<Step>)
    ensures Told(steps, Scene(70, Fresh().(pc := Load), Fresh(), Fresh(), Lock(1, 0, 0, Some(1)), None, 1, Registry(0, []), 0))
  {
    var s := Start();
    var a, b := Timed(s, [], s, Act(1));
    a, b := Timed(s, a, b, Act(1));
    steps, b := Timed(s, a, b, Tick(70));
    assert b.procs == map[1 := Fresh().(pc := Load), 2 := Fresh(), 3 := Fresh()];
  }

  lemma ReclaimerGuards() returns (steps: seq<Step>)
    ensures Told(steps, Scene(70, Fresh().(pc := Load), Fresh().(pc := Stat), Fresh(), Lock(1, 0, 0, Some(1)), Some(2), 1,
                              Registry(0, []), 0))
  {
    var s := Start();
    steps := HolderWaits();
    var b := Scene(70, Fresh().(pc := Load), Fresh(), Fresh(), Lock(1, 0, 0, Some(1)), None, 1, Registry(0, []), 0);
    steps, b := Timed(s, steps, b, Act(2));
    steps, b := Timed(s, steps, b, Act(2));
    assert b.procs == map[1 := Fresh().(pc := Load), 2 := Fresh().(pc := Stat), 3 := Fresh()];
  }

  /** Process 1 holds the lock for long; process 2 takes the directory's age and pauses before the token. */
  lemma ReclaimerLooks() returns (steps: seq<Step>)
    ensures Told(steps, Scene(70, Fresh().(pc := Load), Ready, Fresh(), Lock(1, 0, 0, Some(1)), Some(2), 1, Registry(0, []), 0))
  {
    var s := Start();
    steps := ReclaimerGuards();
    var b := Scene(70, Fresh().(pc := Load), Fresh().(pc := Stat), Fresh(), Lock(1, 0, 0, Some(1)), Some(2), 1,
                   Registry(0, []), 0);
    steps, b := Timed(s, steps, b, Act(2));
    steps, b := Timed(s, steps, b, Act(2));
    assert b.procs == map[1 := Fresh().(pc := Load), 2 := Ready, 3 := Fresh()];
  }

  lemma HolderLoads() returns (steps: seq<Step>)
    ensures Told(steps, Scene(70, Fresh().(pc := Store), Ready, Fresh(), Lock(1, 0, 0, Some(1)), Some(2), 1, Registry(0, []), 0))
  {
    var s := Start();
    steps := ReclaimerLooks();
    var b := Scene(70, Fresh().(pc := Load), Ready, Fresh(), Lock(1, 0, 0, Some(1)), Some(2), 1, Registry(0, []), 0);
    steps, b := Timed(s, steps, b, Act(1));
    assert b.procs == map[1 := Fresh().(pc := Store), 2 := Ready, 3 := Fresh()];
  }

  lemma HolderStores() returns (steps: seq<Step>)
    ensures Told(steps, Scene(70, Fresh().(pc := CheckOwner), Ready, Fresh(), Lock(1, 0, 0, Some(1)), Some(2), 1, Once, 1))
  {
    var s := Start();
    steps := HolderLoads();
    var b := Scene(70, Fresh().(pc := Store), Ready, Fresh(), Lock(1, 0, 0, Some(1)), Some(2), 1, Registry(0, []), 0);
    steps, b := Timed(s, steps, b, Act(1));
    assert b.procs == map[1 := Fresh().(pc := CheckOwner), 2 := Ready, 3 := Fresh()];
  }

  lemma HolderCommits() returns (steps: seq<Step>)
    ensures Told(steps, Scene(70, Fresh().(pc := RemoveToken), Ready, Fresh(), Lock(1, 0, 0, Some(1)), Some(2), 1, Once, 1))
  {
    var s := Start();
    steps := HolderStores();
    var b := Scene(70, Fresh().(pc := CheckOwner), Ready, Fresh(), Lock(1, 0, 0, Some(1)), Some(2), 1, Once, 1);
    steps, b := Timed(s, steps, b, Act(1));
    assert b.procs == map[1 := Fresh().(pc := RemoveToken), 2 := Ready, 3 := Fresh()];
  }

  lemma HolderReleases() returns (steps: seq<Step>)
    ensures Told(steps, Scene(70, Fresh(), Ready, Fresh(), NoLock, Some(2), 1, Once, 1))
  {
    var s := Start();
    steps := HolderCommits();
    var b := Scene(70, Fresh().(pc := RemoveToken), Ready, Fresh(), Lock(1, 0, 0, Some(1)), Some(2), 1, Once, 1);
    steps, b := Timed(s, steps, b, Act(1));
    steps, b := Timed(s, steps, b, Act(1));
    assert b.procs == map[1 := Fresh(), 2 := Ready, 3 := Fresh()];
  }

  /** Process 1 releases; process 3 has just created the directory anew. */
  lemma ChangeOfHands() returns (steps: seq<Step>)
    ensures Told(steps, Scene(70, Fresh(), Ready, Fresh().(pc := MakeToken(false)), Lock(3, 1, 70, None), Some(2), 2, Once, 1))
  {
    var s := Start();
    steps := HolderReleases();
    var b := Scene(70, Fresh(), Ready, Fresh(), NoLock, Some(2), 1, Once, 1);
    steps, b := Timed(s, steps, b, Act(3));
    assert b.procs == map[1 := Fresh(), 2 := Ready, 3 := Fresh().(pc := MakeToken(false))];
  }

  lemma OldAgeCondemns() returns (steps: seq<Step>)
    ensures Told(steps, Scene(70, Fresh(), Ready.(pc := DropDir), Fresh().(pc := MakeToken(false)), Lock(3, 1, 70, None), Some(2), 2,
                              Once, 1))
  {
    var s := Start();
    steps := ChangeOfHands();
    var b := Scene(70, Fresh(), Ready, Fresh().(pc := MakeToken(false)), Lock(3, 1, 70, None), Some(2), 2, Once, 1);
    steps, b := Timed(s, steps, b, Act(2));
    steps, b := Timed(s, steps, b, Act(2));
    assert b.procs == map[1 := Fresh(), 2 := Ready.(pc := DropDir), 3 := Fresh().(pc := MakeToken(false))];
  }

  /** Process 2 reads no token and applies the old age to the new directory. */
  lemma WrongLockDropped() returns (steps: seq<Step>)
    ensures Told(steps, Scene(70, Fresh(), Ready.(pc := MakeToken(true)), Fresh().(pc := MakeToken(false)),
                              Lock(2, 2, 70, None), Some(2), 3, Once, 1))
  {
    var s := Start();
    steps := OldAgeCondemns();
    var b := Scene(70, Fresh(), Ready.(pc := DropDir), Fresh().(pc := MakeToken(false)), Lock(3, 1, 70, None), Some(2), 2, Once, 1);
    steps, b := Timed(s, steps, b, Act(2));
    steps, b := Timed(s, steps, b, Act(2));
    assert b.procs == map[1 := Fresh(), 2 := Ready.(pc := MakeToken(true)), 3 := Fresh().(pc := MakeToken(false))];
  }

  lemma BothGoIn() returns (steps: seq<Step>)
    ensures Told(steps, Scene(70, Fresh(), Ready.(pc := Load), Fresh().(pc := Load), Lock(2, 2, 70, Some(3)), None, 3, Once, 1))
  {
    var s := Start();
    steps := WrongLockDropped();
    var b := Scene(70, Fresh(), Ready.(pc := MakeToken(true)), Fresh().(pc := MakeToken(false)),
                   Lock(2, 2, 70, None), Some(2), 3, Once, 1);
    steps, b := Timed(s, steps, b, Act(2));
    steps, b := Timed(s, steps, b, Act(2));
    steps, b := Timed(s, steps, b, Act(3));
    assert b.procs == map[1 := Fresh(), 2 := Ready.(pc := Load), 3 := Fresh().(pc := Load)];
  }

  /**
   Prompt token writes and releases do not suffice: this run has both, yet two
   live processes hold the lock and one of three committed applies disappears.
   */
  lemma PromptnessAloneFails() returns (steps: seq<Step>, inside: State, steps': seq<Step>, lost: State)
    ensures Init(Start())
    ensures Told(steps, inside) && !MutualExclusion(inside)
    ensures Told(steps', lost) && lost.commits == 3 && lost.registry.version == 2
  {
    var s := Start();
    steps := BothGoIn();
    inside := Scene(70, Fresh(), Ready.(pc := Load), Fresh().(pc := Load), Lock(2, 2, 70, Some(3)), None, 3, Once, 1);
    assert Alive(inside, 2) && Alive(inside, 3) && Holding(inside.procs[2].pc) && Holding(inside.procs[3].pc);
    var b := inside;
    steps', b := Timed(s, steps, b, Act(2));
    steps', b := Timed(s, steps', b, Act(3));
    steps', b := Timed(s, steps', b, Act(2));
    steps', lost := Timed(s, steps', b, Act(3));
  }
}
