/**
 One real-repo run as its commands see it: a JSON record replaced atomically, and
 a lease that its holder keeps until it exits.  The worker, the reconciler and
 the decide, push, publish and discard commands are separate processes whose
 file and network calls interleave; any of them may crash between two calls,
 which releases its lease.
 */
module RunLifecycle {

  import opened Basics

  type Pid = nat
  type Oid = string
  type Url = string

  const INDETERMINATE: Url := "INDETERMINATE: gh pr create outcome unknown; verify on GitHub before retrying"

  datatype Status = Running | Pending | Approved | Rejected | Exhausted | Failed | Interrupted | Discarded

  /**
   `candidate` stands for the branch, message, file list and digest that an
   accepted loop records; `saves` counts the saves that led to this record.
   */
  datatype Record = Record(status: Status, candidate: Option<nat>, approved: Option<Oid>, pushed: bool,
                           prUrl: Option<Url>, saves: nat)

  datatype Cmd = Approve | Reject | Push | Publish | Discard

  datatype Pc =
    | WorkerLease | WorkerCreate | WorkerLoop | WorkerSave
    | Peek(discarding: bool)             // reconcile_run: read the record without the lease
    | ReconcileLease(discarding: bool)
    | ReconcileReload(discarding: bool)
    | ReconcileSave(discarding: bool)
    | Open(cmd: Cmd)                     // lease_settled_run: first read
    | TakeLease(cmd: Cmd)
    | Reload(cmd: Cmd)                   // second read, under the lease, and the require_* guard
    | Outside(cmd: Cmd)                  // the git or gh call
    | Save(cmd: Cmd)
    | Done

  datatype Proc = Proc(alive: bool, pc: Pc, rec: Record)

  /** What left the machine: an object pushed, a pull request opened. */
  datatype Effect = PushedObject(oid: Oid) | OpenedPull

  /** `phantom`: the marker recorded, or about to be, stands for a call that opened no pull request. */
  datatype State = State(disk: Option<Record>, lease: Option<Pid>, leaseFile: bool, procs: map<Pid, Proc>,
                         effects: seq<Effect>, saved: nat, phantom: bool)

  /**
   How the outside world answers a step.  `Refusal` is any error reported before an
   effect.  A call may end in an error, or without a known outcome, whether or not
   it `took` effect.
   */
  datatype Answer = Fine | Refusal | Accepted(candidate: nat) | OutOfTries | LoopError | Committed(oid: Oid)
                  | UrlGiven(url: Url) | ExitError(took: bool) | Unknown(took: bool)

  datatype Step = Act(p: Pid, answer: Answer) | Crash(p: Pid)

  // ---------------------------------------------------------------- guards and updates

  predicate RequirePending(r: Record) { r.status.Pending? && r.candidate.Some? }

  predicate RequireApprovedForPush(r: Record) { r.status.Approved? && !r.pushed && r.candidate.Some? }

  predicate RequirePushedForPublish(r: Record) {
    r.status.Approved? && r.pushed && r.prUrl.None? && r.candidate.Some?
  }

  predicate Guard(cmd: Cmd, r: Record) {
    match cmd
    case Approve | Reject => RequirePending(r)
    case Push => RequireApprovedForPush(r)
    case Publish => RequirePushedForPublish(r)
    case Discard => !r.status.Pending?
  }

  predicate HoldsLease(pc: Pc) {
    || pc.WorkerCreate? || pc.WorkerLoop? || pc.WorkerSave?
    || pc.ReconcileReload? || pc.ReconcileSave? || pc.Reload? || pc.Outside? || pc.Save?
  }

  function RecordedUrl(answer: Answer): Option<Url> {
    match answer
    case UrlGiven(url) => if url == "" then None else Some(url)
    case Unknown(_) => Some(INDETERMINATE)
    case _ => None
  }

  /** The call did what it was asked to: for a publish, only a URL says so for certain. */
  predicate TookEffect(answer: Answer) {
    answer.Fine? || answer.UrlGiven? || ((answer.ExitError? || answer.Unknown?) && answer.took)
  }

  // ---------------------------------------------------------------- steps

  function Put(s: State, p: Pid, pc: Pc, rec: Record): State
    requires p in s.procs
  {
    s.(procs := s.procs[p := s.procs[p].(pc := pc, rec := rec)])
  }

  /** The command returns; its lease goes with it. */
  function Exit(s: State, p: Pid): State
    requires p in s.procs
  {
    Put(s, p, Done, s.procs[p].rec).(lease := if s.lease == Some(p) then None else s.lease)
  }

  /** After reconciliation the lease is released and a discard goes on to its own. */
  function Reconciled(s: State, p: Pid, discarding: bool): State
    requires p in s.procs
  {
    var t := s.(lease := if s.lease == Some(p) then None else s.lease);
    Put(t, p, if discarding then Open(Discard) else Done, s.procs[p].rec)
  }

  /** The atomic replacement of the record: it happens or it does not. */
  function SaveRecord(s: State, p: Pid): State
    requires p in s.procs
  {
    s.(disk := Some(s.procs[p].rec.(saves := s.procs[p].rec.saves + 1)), saved := s.saved + 1)
  }

  predicate Alive(s: State, p: Pid) { p in s.procs && s.procs[p].alive }

  function WorkerAct(s: State, p: Pid, a: Answer): State
    requires Alive(s, p)
  {
    var me := s.procs[p];
    match me.pc
    case WorkerLease =>
      if s.lease.None? && a.Fine? then Put(s.(lease := Some(p), leaseFile := true), p, WorkerCreate, me.rec) else Exit(s, p)
    case WorkerCreate =>
      var first := Record(Running, None, None, false, None, 0);
      if a.Fine? then
        var t := SaveRecord(Put(s, p, WorkerLoop, first), p);
        Put(t, p, WorkerLoop, t.disk.value)
      else Exit(s, p)
    case WorkerLoop =>
      if a.Accepted? then Put(s, p, WorkerSave, me.rec.(status := Pending, candidate := Some(a.candidate)))
      else if a.OutOfTries? then Put(s, p, WorkerSave, me.rec.(status := Exhausted))
      else if a.LoopError? then Put(s, p, WorkerSave, me.rec.(status := Failed))
      else Exit(s, p)
    case WorkerSave =>
      if a.Fine? then Exit(SaveRecord(s, p), p) else Exit(s, p)
    case _ => s
  }

  function ReconcileAct(s: State, p: Pid, a: Answer): State
    requires Alive(s, p)
  {
    var me := s.procs[p];
    match me.pc
    case Peek(d) =>
      if s.disk.None? || a.Refusal? then Exit(s, p)
      else if s.disk.value.status.Running? then Put(s, p, ReconcileLease(d), s.disk.value)
      else Reconciled(s, p, d)
    case ReconcileLease(d) =>
      // create = false: without a lease file there is no ownership evidence
      if s.lease.None? && s.leaseFile && a.Fine? then Put(s.(lease := Some(p)), p, ReconcileReload(d), me.rec)
      else Exit(s, p)
    case ReconcileReload(d) =>
      if s.disk.None? || a.Refusal? then Exit(s, p)
      else if s.disk.value.status.Running? then Put(s, p, ReconcileSave(d), s.disk.value.(status := Interrupted))
      else Reconciled(s, p, d)
    case ReconcileSave(d) =>
      if a.Fine? then Reconciled(SaveRecord(s, p), p, d) else Exit(s, p)
    case _ => s
  }

  /** The call outside: what it did, and what the command will now record. */
  function OutsideAct(s: State, p: Pid, cmd: Cmd, a: Answer): State
    requires Alive(s, p)
  {
    var r := s.procs[p].rec;
    match cmd
    case Approve =>
      if a.Committed? then Put(s, p, Save(cmd), r.(status := Status.Approved, approved := Some(a.oid))) else Exit(s, p)
    case Reject =>
      if a.Refusal? then Exit(s, p) else Put(s, p, Save(cmd), r.(status := Rejected, approved := None))
    case Push =>
      var oid := if r.approved.Some? then r.approved.value else "";
      Put(s.(effects := s.effects + if TookEffect(a) then [PushedObject(oid)] else []), p, Save(cmd),
          if a.Fine? then r.(pushed := true) else r)
    case Publish =>
      if a.LoopError? then Exit(s, p)
      else
        var opens, url := TookEffect(a) && !a.Fine?, RecordedUrl(a);
        Put(s.(effects := s.effects + if opens then [OpenedPull] else [],
               phantom := s.phantom || (url.Some? && !opens)), p,
            Save(cmd), if a.UrlGiven? || a.Unknown? then r.(prUrl := url) else r)
    case Discard =>
      if a.Refusal? then Exit(s, p) else Put(s, p, Save(cmd), r.(status := Discarded))
  }

  function CommandAct(s: State, p: Pid, a: Answer): State
    requires Alive(s, p)
  {
    var me := s.procs[p];
    match me.pc
    case Open(cmd) =>
      if s.disk.None? || a.Refusal? || s.disk.value.status.Running? then Exit(s, p) else Put(s, p, TakeLease(cmd), me.rec)
    case TakeLease(cmd) =>
      if s.lease.None? && a.Fine? then Put(s.(lease := Some(p), leaseFile := true), p, Reload(cmd), me.rec) else Exit(s, p)
    case Reload(cmd) =>
      if s.disk.None? || a.Refusal? || !Guard(cmd, s.disk.value) then Exit(s, p) else Put(s, p, Outside(cmd), s.disk.value)
    case Outside(cmd) => OutsideAct(s, p, cmd, a)
    case Save(cmd) =>
      if a.Fine? then Exit(SaveRecord(s, p), p) else Exit(Forgotten(s, p), p)
    case _ => s
  }

  /** An outcome in hand never reaches the record; if it was a marker for nothing, so be it. */
  function Forgotten(s: State, p: Pid): State
    requires p in s.procs
  {
    if s.procs[p].pc == Save(Publish) && s.procs[p].rec.prUrl.Some? then s.(phantom := false) else s
  }

  predicate IsWorker(pc: Pc) { pc.WorkerLease? || pc.WorkerCreate? || pc.WorkerLoop? || pc.WorkerSave? }

  predicate IsReconcile(pc: Pc) { pc.Peek? || pc.ReconcileLease? || pc.ReconcileReload? || pc.ReconcileSave? }

  predicate Enabled(s: State, e: Step) { Alive(s, e.p) && !s.procs[e.p].pc.Done? }

  function Next(s: State, e: Step): State
    requires Enabled(s, e)
  {
    match e
    case Act(p, a) =>
      if IsWorker(s.procs[p].pc) then WorkerAct(s, p, a)
      else if IsReconcile(s.procs[p].pc) then ReconcileAct(s, p, a)
      else CommandAct(s, p, a)
    case Crash(p) =>
      var t := Forgotten(s, p);
      t.(procs := t.procs[p := t.procs[p].(alive := false)], lease := if t.lease == Some(p) then None else t.lease)
  }

  /** One worker with a fresh run id, and any number of other commands about to start. */
  predicate Init(s: State, worker: Pid) {
    && s.disk.None? && s.lease.None? && !s.leaseFile && s.effects == [] && s.saved == 0 && !s.phantom
    && worker in s.procs && s.procs[worker].pc.WorkerLease?
    && forall p :: p in s.procs ==> s.procs[p].alive && (p == worker || s.procs[p].pc.Peek? || s.procs[p].pc.Open?)
  }

  // ---------------------------------------------------------------- what is promised

  /** The documented graph, plus `interrupted` for a worker that died. */
  predicate Edge(a: Status, b: Status) {
    match a
    case Running => b.Pending? || b.Exhausted? || b.Failed? || b.Interrupted?
    case Pending => b.Approved? || b.Rejected?
    case Approved => b.Approved? || b.Discarded?
    case Discarded => b.Discarded?
    case _ => b.Discarded?
  }

  ghost predicate RecordOk(r: Record) {
    && (r.prUrl.Some? ==> r.pushed)
    && (r.pushed ==> r.approved.Some?)
    && (r.approved.Some? ==> r.status.Approved? || r.status.Discarded?)
    && (r.status.Approved? ==> r.approved.Some?)
  }

  /** `b` is `a` after one save of one command: nothing else in the record moved. */
  ghost predicate Succeeds(a: Record, b: Record) {
    && b.saves == a.saves + 1
    && Edge(a.status, b.status)
    && (a.approved.Some? ==> b.approved == a.approved)
    && (a.pushed ==> b.pushed)
    && (a.prUrl.Some? ==> b.prUrl == a.prUrl)
    && (!a.status.Running? ==> b.candidate == a.candidate)
  }

  // ---------------------------------------------------------------- invariant

  /** A record in hand is the one on disk, or one save away from it. */
  ghost predicate InHand(s: State, p: Pid)
    requires p in s.procs
  {
    var me := s.procs[p];
    match me.pc
    case WorkerLease | WorkerCreate => s.disk.None?
    case WorkerLoop => s.disk == Some(me.rec) && me.rec.status.Running?
    case WorkerSave => Ready(s, me.rec) && s.disk.value.status.Running? && me.rec.prUrl.None?
    case ReconcileSave(_) => Ready(s, me.rec) && s.disk.value.status.Running? && me.rec.prUrl.None?
    case Outside(cmd) => s.disk == Some(me.rec) && Guard(cmd, me.rec) && !me.rec.status.Running?
    case Save(cmd) => Ready(s, me.rec) && if cmd.Publish? then s.disk.value.prUrl.None? else me.rec.prUrl == s.disk.value.prUrl
    case ReconcileLease(_) | ReconcileReload(_) | TakeLease(_) | Reload(_) => s.disk.Some?
    case _ => true
  }

  ghost predicate Ready(s: State, rec: Record) {
    && s.disk.Some? && Succeeds(s.disk.value, rec.(saves := rec.saves + 1)) && RecordOk(rec)
  }

  ghost predicate ProcInv(s: State, worker: Pid, p: Pid)
    requires p in s.procs
  {
    s.procs[p].alive ==>
      && (HoldsLease(s.procs[p].pc) ==> s.lease == Some(p))
      && (IsWorker(s.procs[p].pc) ==> p == worker)
      && InHand(s, p)
      && (s.procs[p].pc.TakeLease? || s.procs[p].pc.Reload? ==> !s.disk.value.status.Running?)
  }

  ghost predicate DiskInv(s: State) {
    && (s.disk.Some? ==> RecordOk(s.disk.value) && s.disk.value.saves == s.saved)
    && (s.disk.None? ==> s.saved == 0)
    && (forall i :: 0 <= i < |s.effects| && s.effects[i].PushedObject? ==>
          s.disk.Some? && s.disk.value.approved == Some(s.effects[i].oid))
  }

  ghost predicate LeaseInv(s: State) {
    s.lease.Some? ==> Alive(s, s.lease.value) && HoldsLease(s.procs[s.lease.value].pc)
  }

  ghost predicate Inv(s: State, worker: Pid) {
    && DiskInv(s) && LeaseInv(s)
    && (forall p :: p in s.procs ==> ProcInv(s, worker, p))
  }

  /**
   What one step of `p` may do to everybody else: take a free lease or give up
   its own, and replace the record only while holding the lease, by a successor.
   */
  ghost predicate Polite(s: State, t: State, p: Pid) {
    && t.procs.Keys == s.procs.Keys
    && (forall q :: q in s.procs && q != p ==> t.procs[q] == s.procs[q])
    && (t.lease == s.lease || (s.lease.None? && t.lease == Some(p)) || (s.lease == Some(p) && t.lease.None?))
    && (t.lease == Some(p) ==> Alive(t, p) && HoldsLease(t.procs[p].pc))
    && ((t.disk == s.disk && t.saved == s.saved)
        || (s.lease == Some(p) && t.disk.Some? && RecordOk(t.disk.value) && t.saved == s.saved + 1
            && t.disk.value.saves == t.saved && (s.disk.Some? ==> Succeeds(s.disk.value, t.disk.value))))
  }

  lemma OthersUnaffected(s: State, t: State, worker: Pid, p: Pid, q: Pid)
    requires Inv(s, worker) && Polite(s, t, p) && q in s.procs && q != p
    requires s.disk.None? && t.disk.Some? ==> p == worker
    ensures ProcInv(t, worker, q)
  {
    assert ProcInv(s, worker, q);
  }

  lemma StartIsPolite(s: State, worker: Pid, p: Pid, a: Answer)
    requires Inv(s, worker) && Alive(s, p) && (s.procs[p].pc.WorkerLease? || s.procs[p].pc.WorkerCreate?)
    ensures Polite(s, WorkerAct(s, p, a), p)
    ensures WorkerAct(s, p, a).effects == s.effects
  {
    assert ProcInv(s, worker, p);
  }

  lemma StartKeepsOwn(s: State, worker: Pid, p: Pid, a: Answer)
    requires Inv(s, worker) && Alive(s, p) && (s.procs[p].pc.WorkerLease? || s.procs[p].pc.WorkerCreate?)
    ensures ProcInv(WorkerAct(s, p, a), worker, p)
  {
    assert ProcInv(s, worker, p);
  }

  lemma WorkerStarts(s: State, worker: Pid, p: Pid, a: Answer)
    requires Inv(s, worker) && Alive(s, p) && (s.procs[p].pc.WorkerLease? || s.procs[p].pc.WorkerCreate?)
    ensures Polite(s, WorkerAct(s, p, a), p) && ProcInv(WorkerAct(s, p, a), worker, p)
    ensures WorkerAct(s, p, a).effects == s.effects
  {
    StartIsPolite(s, worker, p, a);
    StartKeepsOwn(s, worker, p, a);
  }

  lemma EndIsPolite(s: State, worker: Pid, p: Pid, a: Answer)
    requires Inv(s, worker) && Alive(s, p) && (s.procs[p].pc.WorkerLoop? || s.procs[p].pc.WorkerSave?)
    ensures Polite(s, WorkerAct(s, p, a), p)
    ensures WorkerAct(s, p, a).effects == s.effects
  {
    assert ProcInv(s, worker, p);
  }

  lemma EndKeepsOwn(s: State, worker: Pid, p: Pid, a: Answer)
    requires Inv(s, worker) && Alive(s, p) && (s.procs[p].pc.WorkerLoop? || s.procs[p].pc.WorkerSave?)
    ensures ProcInv(WorkerAct(s, p, a), worker, p)
  {
    assert ProcInv(s, worker, p);
  }

  lemma WorkerEnds(s: State, worker: Pid, p: Pid, a: Answer)
    requires Inv(s, worker) && Alive(s, p) && (s.procs[p].pc.WorkerLoop? || s.procs[p].pc.WorkerSave?)
    ensures Polite(s, WorkerAct(s, p, a), p) && ProcInv(WorkerAct(s, p, a), worker, p)
    ensures WorkerAct(s, p, a).effects == s.effects
  {
    EndIsPolite(s, worker, p, a);
    EndKeepsOwn(s, worker, p, a);
  }

  lemma WorkerStep(s: State, worker: Pid, p: Pid, a: Answer)
    requires Inv(s, worker) && Alive(s, p) && IsWorker(s.procs[p].pc)
    ensures Polite(s, WorkerAct(s, p, a), p) && ProcInv(WorkerAct(s, p, a), worker, p)
    ensures p == worker && WorkerAct(s, p, a).effects == s.effects
  {
    assert ProcInv(s, worker, p);
    if s.procs[p].pc.WorkerLease? || s.procs[p].pc.WorkerCreate? {
      WorkerStarts(s, worker, p, a);
    } else {
      WorkerEnds(s, worker, p, a);
    }
  }

  lemma PeekIsPolite(s: State, worker: Pid, p: Pid, a: Answer)
    requires Inv(s, worker) && Alive(s, p) && s.procs[p].pc.Peek?
    ensures Polite(s, ReconcileAct(s, p, a), p)
    ensures ReconcileAct(s, p, a).disk == s.disk && ReconcileAct(s, p, a).effects == s.effects
  {
    assert ProcInv(s, worker, p);
  }

  lemma PeekKeepsOwn(s: State, worker: Pid, p: Pid, a: Answer)
    requires Inv(s, worker) && Alive(s, p) && s.procs[p].pc.Peek?
    ensures ProcInv(ReconcileAct(s, p, a), worker, p)
  {
    assert ProcInv(s, worker, p);
  }

  lemma PeekStep(s: State, worker: Pid, p: Pid, a: Answer)
    requires Inv(s, worker) && Alive(s, p) && s.procs[p].pc.Peek?
    ensures Polite(s, ReconcileAct(s, p, a), p) && ProcInv(ReconcileAct(s, p, a), worker, p)
    ensures ReconcileAct(s, p, a).disk == s.disk && ReconcileAct(s, p, a).effects == s.effects
  {
    PeekIsPolite(s, worker, p, a);
    PeekKeepsOwn(s, worker, p, a);
  }

  lemma LeaseIsPolite(s: State, worker: Pid, p: Pid, a: Answer)
    requires Inv(s, worker) && Alive(s, p) && s.procs[p].pc.ReconcileLease?
    ensures Polite(s, ReconcileAct(s, p, a), p)
    ensures ReconcileAct(s, p, a).disk == s.disk && ReconcileAct(s, p, a).effects == s.effects
  {
    assert ProcInv(s, worker, p);
  }

  lemma LeaseKeepsOwn(s: State, worker: Pid, p: Pid, a: Answer)
    requires Inv(s, worker) && Alive(s, p) && s.procs[p].pc.ReconcileLease?
    ensures ProcInv(ReconcileAct(s, p, a), worker, p)
  {
    assert ProcInv(s, worker, p);
  }

  lemma ReconcileLeaseStep(s: State, worker: Pid, p: Pid, a: Answer)
    requires Inv(s, worker) && Alive(s, p) && s.procs[p].pc.ReconcileLease?
    ensures Polite(s, ReconcileAct(s, p, a), p) && ProcInv(ReconcileAct(s, p, a), worker, p)
    ensures ReconcileAct(s, p, a).disk == s.disk && ReconcileAct(s, p, a).effects == s.effects
  {
    LeaseIsPolite(s, worker, p, a);
    LeaseKeepsOwn(s, worker, p, a);
  }

  lemma ReloadIsPolite(s: State, worker: Pid, p: Pid, a: Answer)
    requires Inv(s, worker) && Alive(s, p) && s.procs[p].pc.ReconcileReload?
    ensures Polite(s, ReconcileAct(s, p, a), p)
    ensures ReconcileAct(s, p, a).disk == s.disk && ReconcileAct(s, p, a).effects == s.effects
  {
    assert ProcInv(s, worker, p);
  }

  lemma ReloadKeepsOwn(s: State, worker: Pid, p: Pid, a: Answer)
    requires Inv(s, worker) && Alive(s, p) && s.procs[p].pc.ReconcileReload?
    ensures ProcInv(ReconcileAct(s, p, a), worker, p)
  {
    assert ProcInv(s, worker, p);
  }

  lemma ReconcileReloadStep(s: State, worker: Pid, p: Pid, a: Answer)
    requires Inv(s, worker) && Alive(s, p) && s.procs[p].pc.ReconcileReload?
    ensures Polite(s, ReconcileAct(s, p, a), p) && ProcInv(ReconcileAct(s, p, a), worker, p)
    ensures ReconcileAct(s, p, a).disk == s.disk && ReconcileAct(s, p, a).effects == s.effects
  {
    ReloadIsPolite(s, worker, p, a);
    ReloadKeepsOwn(s, worker, p, a);
  }

  lemma ReconcileSaveStep(s: State, worker: Pid, p: Pid, a: Answer)
    requires Inv(s, worker) && Alive(s, p) && s.procs[p].pc.ReconcileSave?
    ensures Polite(s, ReconcileAct(s, p, a), p) && ProcInv(ReconcileAct(s, p, a), worker, p)
    ensures s.disk.Some? && ReconcileAct(s, p, a).effects == s.effects
  {
    assert ProcInv(s, worker, p);
  }

  /** What the call of one command may send out. */
  ghost predicate Sends(s: State, t: State, cmd: Cmd) {
    t.effects == s.effects ||
    (s.disk.Some? &&
     ((cmd.Push? && s.disk.value.approved.Some? && t.effects == s.effects + [PushedObject(s.disk.value.approved.value)])
      || (cmd.Publish? && t.effects == s.effects + [OpenedPull])))
  }

  lemma DecisionIsPolite(s: State, worker: Pid, p: Pid, cmd: Cmd, a: Answer)
    requires Inv(s, worker) && Alive(s, p) && s.procs[p].pc == Outside(cmd) && !cmd.Push? && !cmd.Publish?
    ensures var t := OutsideAct(s, p, cmd, a); Polite(s, t, p) && t.disk == s.disk && Sends(s, t, cmd)
  {
    assert ProcInv(s, worker, p);
  }

  lemma DecisionKeepsOwn(s: State, worker: Pid, p: Pid, cmd: Cmd, a: Answer)
    requires Inv(s, worker) && Alive(s, p) && s.procs[p].pc == Outside(cmd) && !cmd.Push? && !cmd.Publish?
    ensures var t := OutsideAct(s, p, cmd, a); ProcInv(t, worker, p)
  {
    assert ProcInv(s, worker, p);
  }

  lemma DecideStep(s: State, worker: Pid, p: Pid, cmd: Cmd, a: Answer)
    requires Inv(s, worker) && Alive(s, p) && s.procs[p].pc == Outside(cmd) && !cmd.Push? && !cmd.Publish?
    ensures var t := OutsideAct(s, p, cmd, a); Polite(s, t, p) && ProcInv(t, worker, p) && t.disk == s.disk && Sends(s, t, cmd)
  {
    DecisionIsPolite(s, worker, p, cmd, a);
    DecisionKeepsOwn(s, worker, p, cmd, a);
  }

  lemma PushStep(s: State, worker: Pid, p: Pid, a: Answer)
    requires Inv(s, worker) && Alive(s, p) && s.procs[p].pc == Outside(Push)
    ensures var t := OutsideAct(s, p, Push, a); Polite(s, t, p) && ProcInv(t, worker, p) && t.disk == s.disk && Sends(s, t, Push)
  {
    assert ProcInv(s, worker, p);
  }

  lemma PublishIsPolite(s: State, worker: Pid, p: Pid, a: Answer)
    requires Inv(s, worker) && Alive(s, p) && s.procs[p].pc == Outside(Publish)
    ensures var t := OutsideAct(s, p, Publish, a); Polite(s, t, p) && t.disk == s.disk && Sends(s, t, Publish)
  {
    assert ProcInv(s, worker, p);
  }

  lemma PublishKeepsOwn(s: State, worker: Pid, p: Pid, a: Answer)
    requires Inv(s, worker) && Alive(s, p) && s.procs[p].pc == Outside(Publish)
    ensures var t := OutsideAct(s, p, Publish, a); ProcInv(t, worker, p)
  {
    assert ProcInv(s, worker, p);
  }

  lemma PublishStep(s: State, worker: Pid, p: Pid, a: Answer)
    requires Inv(s, worker) && Alive(s, p) && s.procs[p].pc == Outside(Publish)
    ensures var t := OutsideAct(s, p, Publish, a); Polite(s, t, p) && ProcInv(t, worker, p) && t.disk == s.disk && Sends(s, t, Publish)
  {
    PublishIsPolite(s, worker, p, a);
    PublishKeepsOwn(s, worker, p, a);
  }

  /** The call outside leaves the record alone, and pushes only the object approved in it. */
  lemma OutsideStep(s: State, worker: Pid, p: Pid, cmd: Cmd, a: Answer)
    requires Inv(s, worker) && Alive(s, p) && s.procs[p].pc == Outside(cmd)
    ensures var t := OutsideAct(s, p, cmd, a); Polite(s, t, p) && ProcInv(t, worker, p) && t.disk == s.disk && Sends(s, t, cmd)
  {
    if cmd.Push? {
      PushStep(s, worker, p, a);
    } else if cmd.Publish? {
      PublishStep(s, worker, p, a);
    } else {
      DecideStep(s, worker, p, cmd, a);
    }
  }

  lemma OpeningIsPolite(s: State, worker: Pid, p: Pid, a: Answer)
    requires Inv(s, worker) && Alive(s, p) && s.procs[p].pc.Open?
    ensures Polite(s, CommandAct(s, p, a), p)
    ensures CommandAct(s, p, a).disk == s.disk && CommandAct(s, p, a).effects == s.effects
  {
    assert ProcInv(s, worker, p);
  }

  lemma OpeningKeepsOwn(s: State, worker: Pid, p: Pid, a: Answer)
    requires Inv(s, worker) && Alive(s, p) && s.procs[p].pc.Open?
    ensures ProcInv(CommandAct(s, p, a), worker, p)
  {
    assert ProcInv(s, worker, p);
  }

  lemma CommandOpens(s: State, worker: Pid, p: Pid, a: Answer)
    requires Inv(s, worker) && Alive(s, p) && s.procs[p].pc.Open?
    ensures Polite(s, CommandAct(s, p, a), p) && ProcInv(CommandAct(s, p, a), worker, p)
    ensures CommandAct(s, p, a).disk == s.disk && CommandAct(s, p, a).effects == s.effects
  {
    OpeningIsPolite(s, worker, p, a);
    OpeningKeepsOwn(s, worker, p, a);
  }

  lemma LeasingIsPolite(s: State, worker: Pid, p: Pid, a: Answer)
    requires Inv(s, worker) && Alive(s, p) && s.procs[p].pc.TakeLease?
    ensures Polite(s, CommandAct(s, p, a), p)
    ensures CommandAct(s, p, a).disk == s.disk && CommandAct(s, p, a).effects == s.effects
  {
    assert ProcInv(s, worker, p);
  }

  lemma LeasingKeepsOwn(s: State, worker: Pid, p: Pid, a: Answer)
    requires Inv(s, worker) && Alive(s, p) && s.procs[p].pc.TakeLease?
    ensures ProcInv(CommandAct(s, p, a), worker, p)
  {
    assert ProcInv(s, worker, p);
  }

  lemma CommandLeases(s: State, worker: Pid, p: Pid, a: Answer)
    requires Inv(s, worker) && Alive(s, p) && s.procs[p].pc.TakeLease?
    ensures Polite(s, CommandAct(s, p, a), p) && ProcInv(CommandAct(s, p, a), worker, p)
    ensures CommandAct(s, p, a).disk == s.disk && CommandAct(s, p, a).effects == s.effects
  {
    LeasingIsPolite(s, worker, p, a);
    LeasingKeepsOwn(s, worker, p, a);
  }

  lemma ReloadingIsPolite(s: State, worker: Pid, p: Pid, a: Answer)
    requires Inv(s, worker) && Alive(s, p) && s.procs[p].pc.Reload?
    ensures Polite(s, CommandAct(s, p, a), p)
    ensures CommandAct(s, p, a).disk == s.disk && CommandAct(s, p, a).effects == s.effects
  {
    assert ProcInv(s, worker, p);
  }

  lemma ReloadingKeepsOwn(s: State, worker: Pid, p: Pid, a: Answer)
    requires Inv(s, worker) && Alive(s, p) && s.procs[p].pc.Reload?
    ensures ProcInv(CommandAct(s, p, a), worker, p)
  {
    assert ProcInv(s, worker, p);
  }

  lemma CommandReloads(s: State, worker: Pid, p: Pid, a: Answer)
    requires Inv(s, worker) && Alive(s, p) && s.procs[p].pc.Reload?
    ensures Polite(s, CommandAct(s, p, a), p) && ProcInv(CommandAct(s, p, a), worker, p)
    ensures CommandAct(s, p, a).disk == s.disk && CommandAct(s, p, a).effects == s.effects
  {
    ReloadingIsPolite(s, worker, p, a);
    ReloadingKeepsOwn(s, worker, p, a);
  }

  lemma CommandStep(s: State, worker: Pid, p: Pid, a: Answer)
    requires Inv(s, worker) && Alive(s, p)
    requires s.procs[p].pc.Open? || s.procs[p].pc.TakeLease? || s.procs[p].pc.Reload?
    ensures Polite(s, CommandAct(s, p, a), p) && ProcInv(CommandAct(s, p, a), worker, p)
    ensures CommandAct(s, p, a).disk == s.disk && CommandAct(s, p, a).effects == s.effects
  {
    if s.procs[p].pc.Reload? {
      CommandReloads(s, worker, p, a);
    } else if s.procs[p].pc.Open? {
      CommandOpens(s, worker, p, a);
    } else {
      CommandLeases(s, worker, p, a);
    }
  }

  lemma SaveIsPolite(s: State, worker: Pid, p: Pid, a: Answer)
    requires Inv(s, worker) && Alive(s, p) && s.procs[p].pc.Save?
    ensures Polite(s, CommandAct(s, p, a), p)
    ensures s.disk.Some? && CommandAct(s, p, a).effects == s.effects
  {
    assert ProcInv(s, worker, p);
  }

  lemma SaveKeepsOwn(s: State, worker: Pid, p: Pid, a: Answer)
    requires Inv(s, worker) && Alive(s, p) && s.procs[p].pc.Save?
    ensures ProcInv(CommandAct(s, p, a), worker, p)
  {
    assert ProcInv(s, worker, p);
  }

  lemma CommandSaveStep(s: State, worker: Pid, p: Pid, a: Answer)
    requires Inv(s, worker) && Alive(s, p) && s.procs[p].pc.Save?
    ensures Polite(s, CommandAct(s, p, a), p) && ProcInv(CommandAct(s, p, a), worker, p)
    ensures s.disk.Some? && CommandAct(s, p, a).effects == s.effects
  {
    SaveIsPolite(s, worker, p, a);
    SaveKeepsOwn(s, worker, p, a);
  }

  /** Every step of every process is polite, and only the call of a push or publish leaves the machine. */
  lemma StepIsPolite(s: State, worker: Pid, e: Step)
    requires Inv(s, worker) && Enabled(s, e)
    ensures Polite(s, Next(s, e), e.p) && ProcInv(Next(s, e), worker, e.p)
    ensures s.disk.None? && Next(s, e).disk.Some? ==> e.p == worker
    ensures EffectOk(s, Next(s, e), e)
  {
    var pc := s.procs[e.p].pc;
    if e.Act? {
      if IsWorker(pc) {
        WorkerStep(s, worker, e.p, e.answer);
      } else if pc.ReconcileSave? {
        ReconcileSaveStep(s, worker, e.p, e.answer);
      } else if pc.ReconcileReload? {
        ReconcileReloadStep(s, worker, e.p, e.answer);
      } else if pc.ReconcileLease? {
        ReconcileLeaseStep(s, worker, e.p, e.answer);
      } else if pc.Peek? {
        PeekStep(s, worker, e.p, e.answer);
      } else if pc.Outside? {
        OutsideStep(s, worker, e.p, pc.cmd, e.answer);
        assert ProcInv(s, worker, e.p);
      } else if pc.Save? {
        CommandSaveStep(s, worker, e.p, e.answer);
      } else {
        CommandStep(s, worker, e.p, e.answer);
      }
    }
  }

  /** What a step may send out, judged by the record on disk at that moment. */
  ghost predicate EffectOk(s: State, t: State, e: Step) {
    t.effects == s.effects ||
    (&& s.lease == Some(e.p) && s.disk.Some? && t.disk == s.disk
     && ((&& RequireApprovedForPush(s.disk.value) && s.disk.value.approved.Some?
          && t.effects == s.effects + [PushedObject(s.disk.value.approved.value)])
         || (RequirePushedForPublish(s.disk.value) && t.effects == s.effects + [OpenedPull])))
  }

  /** Politeness is all that the record and the lease depend on. */
  lemma PoliteKeepsDisk(s: State, t: State, worker: Pid, e: Step)
    requires Inv(s, worker) && Enabled(s, e) && Polite(s, t, e.p) && EffectOk(s, t, e)
    ensures DiskInv(t)
  {
  }

  lemma PoliteKeepsLease(s: State, t: State, worker: Pid, p: Pid)
    requires Inv(s, worker) && Polite(s, t, p)
    ensures LeaseInv(t)
  {
  }

  lemma StepKeepsDisk(s: State, worker: Pid, e: Step)
    requires Inv(s, worker) && Enabled(s, e)
    ensures DiskInv(Next(s, e)) && LeaseInv(Next(s, e))
  {
    StepIsPolite(s, worker, e);
    PoliteKeepsDisk(s, Next(s, e), worker, e);
    PoliteKeepsLease(s, Next(s, e), worker, e.p);
  }

  lemma StepKeepsInv(s: State, worker: Pid, e: Step)
    requires Inv(s, worker) && Enabled(s, e)
    ensures Inv(Next(s, e), worker)
  {
    var t := Next(s, e);
    StepIsPolite(s, worker, e);
    StepKeepsDisk(s, worker, e);
    forall q | q in t.procs ensures ProcInv(t, worker, q) {
      if q != e.p {
        OthersUnaffected(s, t, worker, e.p, q);
      }
    }
  }

  // ---------------------------------------------------------------- runs

  ghost predicate Runs(s: State, steps: seq<Step>, t: State)
    decreases |steps|
  {
    if steps == [] then s == t
    else
      var n := |steps| - 1;
      exists mid :: Runs(s, steps[..n], mid) && Enabled(mid, steps[n]) && t == Next(mid, steps[n])
  }

  /** Everything a status can become along the graph. */
  predicate Follows(a: Status, b: Status) {
    match a
    case Running => true
    case Pending => b.Pending? || b.Approved? || b.Rejected? || b.Discarded?
    case _ => b == a || b.Discarded?
  }

  /** How the record and the outside world may have moved on between two moments of a run. */
  ghost predicate MovedOn(s: State, t: State) {
    && s.effects <= t.effects
    && (s.disk.Some? ==>
          && t.disk.Some? && Follows(s.disk.value.status, t.disk.value.status)
          && t.disk.value.saves - s.disk.value.saves == t.saved - s.saved
          && (s.disk.value.approved.Some? ==> t.disk.value.approved == s.disk.value.approved)
          && (s.disk.value.pushed ==>
                t.disk.value.pushed && forall e :: e in t.effects[|s.effects|..] ==> e.OpenedPull?)
          && (s.disk.value.prUrl.Some? ==>
                && t.disk.value.prUrl == s.disk.value.prUrl
                && OpenedPull !in t.effects[|s.effects|..]))
  }

  lemma StepMovesOn(s: State, worker: Pid, e: Step)
    requires Inv(s, worker) && Enabled(s, e)
    ensures MovedOn(s, Next(s, e))
  {
    StepIsPolite(s, worker, e);
    PoliteMovesOn(s, Next(s, e), worker, e);
  }

  lemma PoliteMovesOn(s: State, t: State, worker: Pid, e: Step)
    requires Inv(s, worker) && Polite(s, t, e.p) && EffectOk(s, t, e)
    ensures MovedOn(s, t)
  {
    if t.effects != s.effects {
      assert t.effects[|s.effects|..] == [t.effects[|s.effects|]];
    } else {
      assert t.effects[|s.effects|..] == [];
    }
  }

  lemma MovedOnTwice(s: State, m: State, t: State)
    requires MovedOn(s, m) && MovedOn(m, t)
    ensures MovedOn(s, t)
  {
    if s.disk.Some? && (s.disk.value.pushed || s.disk.value.prUrl.Some?) {
      assert t.effects[|s.effects|..] == m.effects[|s.effects|..] + t.effects[|m.effects|..];
    }
  }

  /**
   From any reachable state on: the status only moves along the graph, every
   save builds on the record before it, the approved object and a recorded URL
   never change, and after a recorded URL no publish runs.
   */
  lemma {:induction false} RunsMoveOn(s: State, worker: Pid, steps: seq<Step>, t: State)
    requires Inv(s, worker) && Runs(s, steps, t)
    ensures Inv(t, worker) && MovedOn(s, t)
    decreases |steps|
  {
    if steps != [] {
      var n := |steps| - 1;
      var mid :| Runs(s, steps[..n], mid) && Enabled(mid, steps[n]) && t == Next(mid, steps[n]);
      RunsMoveOn(s, worker, steps[..n], mid);
      StepKeepsInv(mid, worker, steps[n]);
      StepMovesOn(mid, worker, steps[n]);
      MovedOnTwice(s, mid, t);
    }
  }

  lemma InitHasInv(s: State, worker: Pid)
    requires Init(s, worker)
    ensures Inv(s, worker)
  {
    forall p | p in s.procs ensures ProcInv(s, worker, p) {
    }
  }

  /** Everything pushed, in any run, is the object recorded at approval; a URL implies a push, a push an approval. */
  lemma ReachableRecords(s: State, worker: Pid, steps: seq<Step>, t: State)
    requires Init(s, worker) && Runs(s, steps, t)
    ensures t.disk.Some? ==> RecordOk(t.disk.value) && t.disk.value.saves == t.saved
    ensures forall i :: 0 <= i < |t.effects| && t.effects[i].PushedObject? ==>
              t.disk.Some? && t.disk.value.approved == Some(t.effects[i].oid)
  {
    InitHasInv(s, worker);
    RunsMoveOn(s, worker, steps, t);
  }

  // ---------------------------------------------------------------- a recorded push took place

  /** What this record calls pushed has left the machine. */
  ghost predicate Sent(r: Record, effects: seq<Effect>) {
    r.pushed ==> r.approved.Some? && PushedObject(r.approved.value) in effects
  }

  /** So has what any command is about to record as pushed. */
  ghost predicate SentInHand(s: State, p: Pid)
    requires p in s.procs
  {
    s.procs[p].alive && s.procs[p].pc.Save? ==> Sent(s.procs[p].rec, s.effects)
  }

  ghost predicate SentBy(s: State, p: Pid) {
    (p in s.procs ==> SentInHand(s, p)) && (s.disk.Some? ==> Sent(s.disk.value, s.effects))
  }

  ghost predicate AllSent(s: State) {
    && (s.disk.Some? ==> Sent(s.disk.value, s.effects))
    && (forall p :: p in s.procs ==> SentInHand(s, p))
  }

  lemma OutsideSends(s: State, worker: Pid, p: Pid, cmd: Cmd, a: Answer)
    requires Inv(s, worker) && AllSent(s) && Alive(s, p) && s.procs[p].pc == Outside(cmd)
    ensures SentInHand(OutsideAct(s, p, cmd, a), p)
  {
    assert ProcInv(s, worker, p);
  }

  lemma WorkerSends(s: State, worker: Pid, p: Pid, a: Answer)
    requires Inv(s, worker) && AllSent(s) && Alive(s, p) && IsWorker(s.procs[p].pc)
    ensures SentInHand(WorkerAct(s, p, a), p)
    ensures var t := WorkerAct(s, p, a); t.disk.Some? && t.disk != s.disk ==> Sent(t.disk.value, s.effects)
  {
    assert ProcInv(s, worker, p) && SentInHand(s, p);
  }

  lemma ReconcileSends(s: State, worker: Pid, p: Pid, a: Answer)
    requires Inv(s, worker) && AllSent(s) && Alive(s, p) && IsReconcile(s.procs[p].pc)
    ensures SentInHand(ReconcileAct(s, p, a), p)
    ensures var t := ReconcileAct(s, p, a); t.disk.Some? && t.disk != s.disk ==> Sent(t.disk.value, s.effects)
  {
    assert ProcInv(s, worker, p) && SentInHand(s, p);
  }

  lemma CommandSends(s: State, worker: Pid, p: Pid, a: Answer)
    requires Inv(s, worker) && AllSent(s) && Alive(s, p) && !IsWorker(s.procs[p].pc) && !s.procs[p].pc.Outside?
    ensures SentInHand(CommandAct(s, p, a), p)
    ensures var t := CommandAct(s, p, a); t.disk.Some? && t.disk != s.disk ==> Sent(t.disk.value, s.effects)
  {
    assert ProcInv(s, worker, p) && SentInHand(s, p);
  }

  lemma StepSends(s: State, worker: Pid, e: Step)
    requires Inv(s, worker) && AllSent(s) && Enabled(s, e)
    ensures SentBy(Next(s, e), e.p)
  {
    StepIsPolite(s, worker, e);
    if e.Act? && s.procs[e.p].pc.Outside? {
      OutsideSends(s, worker, e.p, s.procs[e.p].pc.cmd, e.answer);
      OutsideStep(s, worker, e.p, s.procs[e.p].pc.cmd, e.answer);
    } else if e.Act? && IsWorker(s.procs[e.p].pc) {
      WorkerSends(s, worker, e.p, e.answer);
    } else if e.Act? && IsReconcile(s.procs[e.p].pc) {
      ReconcileSends(s, worker, e.p, e.answer);
    } else if e.Act? {
      CommandSends(s, worker, e.p, e.answer);
    }
  }

  lemma StepKeepsSent(s: State, worker: Pid, e: Step)
    requires Inv(s, worker) && AllSent(s) && Enabled(s, e)
    ensures AllSent(Next(s, e))
  {
    StepSends(s, worker, e);
    StepIsPolite(s, worker, e);
    forall q | q in s.procs && q != e.p ensures SentInHand(Next(s, e), q) {
      assert SentInHand(s, q);
    }
  }

  /** In every run a record says pushed only after its approved object was sent. */
  lemma {:induction false} PushedMeansSent(s: State, worker: Pid, steps: seq<Step>, t: State)
    requires Init(s, worker) && Runs(s, steps, t)
    ensures AllSent(t)
    decreases |steps|
  {
    if steps != [] {
      var n := |steps| - 1;
      var mid :| Runs(s, steps[..n], mid) && Enabled(mid, steps[n]) && t == Next(mid, steps[n]);
      PushedMeansSent(s, worker, steps[..n], mid);
      InitHasInv(s, worker);
      RunsMoveOn(s, worker, steps[..n], mid);
      StepKeepsSent(mid, worker, steps[n]);
    }
  }

  // ---------------------------------------------------------------- where the record comes from

  /** A process at `pc` was given this answer. */
  datatype Event = Event(pc: Pc, answer: Answer)

  function Noted(log: set<Event>, s: State, e: Step): set<Event>
    requires Enabled(s, e)
  {
    if e.Act? then log + {Event(s.procs[e.p].pc, e.answer)} else log
  }

  /** Everything that was answered in a run. */
  function Log(s: State, steps: seq<Step>): set<Event> {
    if steps == [] then {}
    else
      var n := |steps| - 1;
      var mid := After(s, steps[..n]);
      if Enabled(mid, steps[n]) then Noted(Log(s, steps[..n]), mid, steps[n]) else Log(s, steps[..n])
  }

  /** At some step of the run a process at `pc` is given this answer. */
  ghost predicate Happens(s: State, steps: seq<Step>, pc: Pc, answer: Answer) {
    exists n :: 0 <= n < |steps| && HappensAt(s, steps, n, pc, answer)
  }

  ghost predicate HappensAt(s: State, steps: seq<Step>, n: nat, pc: Pc, answer: Answer)
    requires n < |steps|
  {
    var mid := After(s, steps[..n]);
    steps[n].Act? && steps[n].answer == answer && Enabled(mid, steps[n]) && mid.procs[steps[n].p].pc == pc
  }

  lemma {:induction false} LoggedHappens(s: State, steps: seq<Step>, pc: Pc, answer: Answer)
    requires Event(pc, answer) in Log(s, steps)
    ensures Happens(s, steps, pc, answer)
  {
    var n := |steps| - 1;
    if Event(pc, answer) in Log(s, steps[..n]) {
      LoggedHappens(s, steps[..n], pc, answer);
      var m :| 0 <= m < n && HappensAt(s, steps[..n], m, pc, answer);
      assert steps[..n][..m] == steps[..m];
      assert HappensAt(s, steps, m, pc, answer);
    } else {
      assert HappensAt(s, steps, n, pc, answer);
    }
  }

  /** A process at `pc` was answered, and not with a refusal. */
  ghost predicate Went(log: set<Event>, pc: Pc) {
    exists a :: Event(pc, a) in log && !a.Refusal?
  }

  /** The status is the one that its step means. */
  ghost predicate StatusFrom(r: Record, log: set<Event>) {
    match r.status
    case Running => true
    case Pending => r.candidate.Some?
    case Approved => r.approved.Some?
    case Rejected => Went(log, Outside(Reject))
    case Exhausted => Event(WorkerLoop, OutOfTries) in log
    case Failed => Event(WorkerLoop, LoopError) in log
    case Interrupted => Went(log, ReconcileReload(false)) || Went(log, ReconcileReload(true))
    case Discarded => Went(log, Outside(Discard))
  }

  /** Each answer that the record holds was given, to the step that asks for it. */
  ghost predicate AnswersFrom(r: Record, log: set<Event>) {
    && (r.candidate.Some? ==> Event(WorkerLoop, Accepted(r.candidate.value)) in log)
    && (r.approved.Some? ==> Event(Outside(Approve), Committed(r.approved.value)) in log)
    && (r.pushed ==> Event(Outside(Push), Fine) in log)
    && (r.prUrl.Some? ==> r.prUrl.value != "" && UrlFrom(r.prUrl.value, log))
  }

  ghost predicate UrlFrom(url: Url, log: set<Event>) {
    || Event(Outside(Publish), UrlGiven(url)) in log
    || (url == INDETERMINATE && (Event(Outside(Publish), Unknown(false)) in log || Event(Outside(Publish), Unknown(true)) in log))
  }

  ghost predicate From(r: Record, log: set<Event>) { StatusFrom(r, log) && AnswersFrom(r, log) }

  lemma FromStays(r: Record, log: set<Event>, more: set<Event>)
    requires From(r, log) && log <= more
    ensures From(r, more)
  {
    assert forall pc :: Went(log, pc) ==> Went(more, pc);
  }

  /** So does the record that a process is about to save. */
  ghost predicate InHandFrom(s: State, p: Pid, log: set<Event>)
    requires p in s.procs
  {
    var me := s.procs[p];
    me.alive && (me.pc.Save? || me.pc.WorkerSave? || me.pc.ReconcileSave?) ==> From(me.rec, log)
  }

  ghost predicate AllFrom(s: State, log: set<Event>) {
    && (s.disk.Some? ==> From(s.disk.value, log))
    && (forall p :: p in s.procs ==> InHandFrom(s, p, log))
  }

  /** What `p` has changed, on disk or in hand, comes from what was answered. */
  ghost predicate ChangedFrom(s: State, t: State, p: Pid, log: set<Event>) {
    p in t.procs && InHandFrom(t, p, log) && (t.disk.Some? && t.disk != s.disk ==> From(t.disk.value, log))
  }

  lemma WorkerFrom(s: State, worker: Pid, p: Pid, a: Answer, log: set<Event>)
    requires Inv(s, worker) && AllFrom(s, log) && Alive(s, p) && IsWorker(s.procs[p].pc)
    ensures ChangedFrom(s, WorkerAct(s, p, a), p, log + {Event(s.procs[p].pc, a)})
  {
    assert ProcInv(s, worker, p) && InHandFrom(s, p, log);
    if s.procs[p].pc.WorkerLoop? || s.procs[p].pc.WorkerSave? {
      FromStays(if s.procs[p].pc.WorkerLoop? then s.disk.value else s.procs[p].rec, log, log + {Event(s.procs[p].pc, a)});
    }
  }

  lemma InterruptionFrom(s: State, p: Pid, a: Answer, log: set<Event>, discarding: bool)
    requires AllFrom(s, log) && Alive(s, p) && s.procs[p].pc == ReconcileReload(discarding)
    ensures ChangedFrom(s, ReconcileAct(s, p, a), p, log + {Event(ReconcileReload(discarding), a)})
  {
    var more := log + {Event(ReconcileReload(discarding), a)};
    if s.disk.Some? {
      FromStays(s.disk.value, log, more);
    }
    assert Event(ReconcileReload(discarding), a) in more;
  }

  lemma ReconcileSaveFrom(s: State, p: Pid, a: Answer, log: set<Event>)
    requires AllFrom(s, log) && Alive(s, p) && s.procs[p].pc.ReconcileSave?
    ensures ChangedFrom(s, ReconcileAct(s, p, a), p, log + {Event(s.procs[p].pc, a)})
  {
    assert InHandFrom(s, p, log);
    FromStays(s.procs[p].rec, log, log + {Event(s.procs[p].pc, a)});
  }

  lemma ReconcileFrom(s: State, p: Pid, a: Answer, log: set<Event>)
    requires AllFrom(s, log) && Alive(s, p) && IsReconcile(s.procs[p].pc)
    ensures ChangedFrom(s, ReconcileAct(s, p, a), p, log + {Event(s.procs[p].pc, a)})
  {
    if s.procs[p].pc.ReconcileReload? {
      InterruptionFrom(s, p, a, log, s.procs[p].pc.discarding);
    } else if s.procs[p].pc.ReconcileSave? {
      ReconcileSaveFrom(s, p, a, log);
    }
  }

  lemma OutsideFrom(s: State, worker: Pid, p: Pid, cmd: Cmd, a: Answer, log: set<Event>)
    requires Inv(s, worker) && AllFrom(s, log) && Alive(s, p) && s.procs[p].pc == Outside(cmd)
    ensures ChangedFrom(s, OutsideAct(s, p, cmd, a), p, log + {Event(Outside(cmd), a)})
  {
    assert ProcInv(s, worker, p);
    OutsideStep(s, worker, p, cmd, a);
    var more := log + {Event(Outside(cmd), a)};
    FromStays(s.disk.value, log, more);
    assert Event(Outside(cmd), a) in more;
  }

  lemma SaveFrom(s: State, worker: Pid, p: Pid, a: Answer, log: set<Event>)
    requires Inv(s, worker) && AllFrom(s, log) && Alive(s, p) && s.procs[p].pc.Save?
    ensures ChangedFrom(s, CommandAct(s, p, a), p, log + {Event(s.procs[p].pc, a)})
  {
    assert ProcInv(s, worker, p) && InHandFrom(s, p, log);
    FromStays(s.procs[p].rec, log, log + {Event(s.procs[p].pc, a)});
  }

  lemma CommandFrom(s: State, worker: Pid, p: Pid, a: Answer, log: set<Event>)
    requires Inv(s, worker) && Alive(s, p)
    requires s.procs[p].pc.Open? || s.procs[p].pc.TakeLease? || s.procs[p].pc.Reload?
    ensures ChangedFrom(s, CommandAct(s, p, a), p, log)
  {
    CommandStep(s, worker, p, a);
  }

  lemma StepFrom(s: State, worker: Pid, e: Step, log: set<Event>)
    requires Inv(s, worker) && AllFrom(s, log) && Enabled(s, e)
    ensures ChangedFrom(s, Next(s, e), e.p, Noted(log, s, e))
  {
    var pc := s.procs[e.p].pc;
    if e.Crash? {
    } else if IsWorker(pc) {
      WorkerFrom(s, worker, e.p, e.answer, log);
    } else if IsReconcile(pc) {
      ReconcileFrom(s, e.p, e.answer, log);
    } else if pc.Outside? {
      OutsideFrom(s, worker, e.p, pc.cmd, e.answer, log);
    } else if pc.Save? {
      SaveFrom(s, worker, e.p, e.answer, log);
    } else {
      CommandFrom(s, worker, e.p, e.answer, Noted(log, s, e));
    }
  }

  lemma StepKeepsFrom(s: State, worker: Pid, e: Step, log: set<Event>)
    requires Inv(s, worker) && AllFrom(s, log) && Enabled(s, e)
    ensures AllFrom(Next(s, e), Noted(log, s, e))
  {
    var t, more := Next(s, e), Noted(log, s, e);
    StepFrom(s, worker, e, log);
    StepIsPolite(s, worker, e);
    if s.disk.Some? {
      FromStays(s.disk.value, log, more);
    }
    forall q | q in t.procs ensures InHandFrom(t, q, more) {
      if q != e.p {
        assert InHandFrom(s, q, log);
        if From(s.procs[q].rec, log) {
          FromStays(s.procs[q].rec, log, more);
        }
      }
    }
  }

  lemma {:induction false} RunsKeepFrom(s: State, worker: Pid, steps: seq<Step>, t: State)
    requires Init(s, worker) && Runs(s, steps, t)
    ensures AllFrom(t, Log(s, steps))
    decreases |steps|
  {
    if steps != [] {
      var n := |steps| - 1;
      var mid :| Runs(s, steps[..n], mid) && Enabled(mid, steps[n]) && t == Next(mid, steps[n]);
      RunsKeepFrom(s, worker, steps[..n], mid);
      RunIsAfter(s, steps[..n], mid);
      InitHasInv(s, worker);
      RunsMoveOn(s, worker, steps[..n], mid);
      StepKeepsFrom(mid, worker, steps[n], Log(s, steps[..n]));
    }
  }

  /** A step of the run other than a refusal, by a process at `pc`. */
  ghost predicate Proceeds(s: State, steps: seq<Step>, pc: Pc) {
    exists a :: Happens(s, steps, pc, a) && !a.Refusal?
  }

  lemma WentProceeds(s: State, steps: seq<Step>, pc: Pc)
    requires Went(Log(s, steps), pc)
    ensures Proceeds(s, steps, pc)
  {
    var a :| Event(pc, a) in Log(s, steps) && !a.Refusal?;
    LoggedHappens(s, steps, pc, a);
  }

  /**
   Whatever a record holds after any run was answered in that run, to the step that asks for it: the
   candidate to the loop, the approved commit to an approve command, the URL to a publish command.
   */
  lemma RecordedMeansAnswered(s: State, worker: Pid, steps: seq<Step>, t: State)
    requires Init(s, worker) && Runs(s, steps, t) && t.disk.Some?
    ensures var r := t.disk.value;
      && (r.candidate.Some? ==> Happens(s, steps, WorkerLoop, Accepted(r.candidate.value)))
      && (r.approved.Some? ==> Happens(s, steps, Outside(Approve), Committed(r.approved.value)))
      && (r.pushed ==> Happens(s, steps, Outside(Push), Fine))
      && (r.prUrl.Some? ==>
            && r.prUrl.value != ""
            && (|| Happens(s, steps, Outside(Publish), UrlGiven(r.prUrl.value))
                || (r.prUrl.value == INDETERMINATE && exists took :: Happens(s, steps, Outside(Publish), Unknown(took)))))
  {
    RunsKeepFrom(s, worker, steps, t);
    var r, log := t.disk.value, Log(s, steps);
    if r.candidate.Some? { LoggedHappens(s, steps, WorkerLoop, Accepted(r.candidate.value)); }
    if r.approved.Some? { LoggedHappens(s, steps, Outside(Approve), Committed(r.approved.value)); }
    if r.pushed { LoggedHappens(s, steps, Outside(Push), Fine); }
    if r.prUrl.Some? {
      if Event(Outside(Publish), UrlGiven(r.prUrl.value)) in log {
        LoggedHappens(s, steps, Outside(Publish), UrlGiven(r.prUrl.value));
      } else if Event(Outside(Publish), Unknown(false)) in log {
        LoggedHappens(s, steps, Outside(Publish), Unknown(false));
      } else {
        LoggedHappens(s, steps, Outside(Publish), Unknown(true));
      }
    }
  }

  /** And whatever its status says was done in that run, by the step that means it. */
  lemma StatusMeansDone(s: State, worker: Pid, steps: seq<Step>, t: State)
    requires Init(s, worker) && Runs(s, steps, t) && t.disk.Some?
    ensures match t.disk.value.status
      case Running => true
      case Pending => t.disk.value.candidate.Some?
      case Approved => t.disk.value.approved.Some?
      case Rejected => Proceeds(s, steps, Outside(Reject))
      case Exhausted => Happens(s, steps, WorkerLoop, OutOfTries)
      case Failed => Happens(s, steps, WorkerLoop, LoopError)
      case Interrupted => Proceeds(s, steps, ReconcileReload(false)) || Proceeds(s, steps, ReconcileReload(true))
      case Discarded => Proceeds(s, steps, Outside(Discard))
  {
    RunsKeepFrom(s, worker, steps, t);
    match t.disk.value.status
    case Rejected => WentProceeds(s, steps, Outside(Reject));
    case Exhausted => LoggedHappens(s, steps, WorkerLoop, OutOfTries);
    case Failed => LoggedHappens(s, steps, WorkerLoop, LoopError);
    case Interrupted => WentProceeds(s, steps, ReconcileReload(Went(Log(s, steps), ReconcileReload(true))));
    case Discarded => WentProceeds(s, steps, Outside(Discard));
    case _ =>
  }

  /** Every object pushed, in any run, is the commit that an approve command of that run was answered with. */
  lemma PushedMeansCommitted(s: State, worker: Pid, steps: seq<Step>, t: State, i: nat)
    requires Init(s, worker) && Runs(s, steps, t) && i < |t.effects| && t.effects[i].PushedObject?
    ensures Happens(s, steps, Outside(Approve), Committed(t.effects[i].oid))
  {
    ReachableRecords(s, worker, steps, t);
    RecordedMeansAnswered(s, worker, steps, t);
  }

  // ---------------------------------------------------------------- counting pull requests

  function Opened(effects: seq<Effect>): nat {
    if effects == [] then 0
    else Opened(effects[..|effects| - 1]) + if effects[|effects| - 1].OpenedPull? then 1 else 0
  }

  /** A publish command has a URL (or the indeterminate marker) in hand and has yet to save it. */
  predicate InFlight(s: State) {
    s.lease.Some? && s.lease.value in s.procs
    && s.procs[s.lease.value].pc == Save(Publish) && s.procs[s.lease.value].rec.prUrl.Some?
  }

  predicate Recorded(s: State) { s.disk.Some? && s.disk.value.prUrl.Some? }

  /** A phantom is a marker in hand or on disk. */
  predicate PhantomOk(s: State) { s.phantom ==> Recorded(s) || InFlight(s) }

  /** The pull requests that the record, or an outcome in hand, stands for. */
  function Standing(s: State): int {
    (if Recorded(s) then 1 else 0) + (if InFlight(s) then 1 else 0) - if s.phantom then 1 else 0
  }

  /** The ways in which a publish opens a pull request and leaves no trace of it. */
  predicate Loses(s: State, e: Step)
    requires Enabled(s, e)
  {
    var me := s.procs[e.p];
    // gh says nothing, or reports an error, although the pull request is there
    || (e.Act? && me.pc == Outside(Publish) && (e.answer == UrlGiven("") || e.answer == ExitError(true)))
    // the process dies, or its save fails, with the outcome in hand
    || (me.pc == Save(Publish) && me.rec.prUrl.Some? && !s.phantom && (e.Crash? || !e.answer.Fine?))
  }

  function One(b: bool): nat { if b then 1 else 0 }

  function After(s: State, steps: seq<Step>): State {
    if steps == [] then s
    else
      var n := |steps| - 1;
      var mid := After(s, steps[..n]);
      if Enabled(mid, steps[n]) then Next(mid, steps[n]) else mid
  }

  /** The steps of this run at which a pull request is lost. */
  function Losses(s: State, steps: seq<Step>): nat {
    if steps == [] then 0
    else
      var n := |steps| - 1;
      var mid := After(s, steps[..n]);
      Losses(s, steps[..n]) + One(Enabled(mid, steps[n]) && Loses(mid, steps[n]))
  }

  lemma {:induction false} RunIsAfter(s: State, steps: seq<Step>, t: State)
    requires Runs(s, steps, t)
    ensures t == After(s, steps)
    decreases |steps|
  {
    if steps != [] {
      var n := |steps| - 1;
      var mid :| Runs(s, steps[..n], mid) && Enabled(mid, steps[n]) && t == Next(mid, steps[n]);
      RunIsAfter(s, steps[..n], mid);
    }
  }

  lemma OpenedSnoc(effects: seq<Effect>, x: Effect)
    ensures Opened(effects + [x]) == Opened(effects) + if x.OpenedPull? then 1 else 0
  {
    assert (effects + [x])[..|effects|] == effects;
  }

  predicate NewPull(s: State, t: State) {
    |t.effects| > |s.effects| && t.effects[|s.effects|].OpenedPull?
  }

  lemma WorkerBalance(s: State, worker: Pid, p: Pid, a: Answer)
    requires Inv(s, worker) && Alive(s, p) && IsWorker(s.procs[p].pc)
    ensures Standing(WorkerAct(s, p, a)) == Standing(s)
  {
    assert ProcInv(s, worker, p);
  }

  lemma ReconcileBalance(s: State, worker: Pid, p: Pid, a: Answer)
    requires Inv(s, worker) && Alive(s, p) && IsReconcile(s.procs[p].pc)
    ensures Standing(ReconcileAct(s, p, a)) == Standing(s)
  {
    assert ProcInv(s, worker, p);
  }

  lemma OutsideBalance(s: State, worker: Pid, p: Pid, cmd: Cmd, a: Answer)
    requires Inv(s, worker) && PhantomOk(s) && Alive(s, p) && s.procs[p].pc == Outside(cmd)
    ensures var t := OutsideAct(s, p, cmd, a);
      Standing(t) + One(Loses(s, Act(p, a))) == Standing(s) + One(NewPull(s, t))
  {
    assert ProcInv(s, worker, p);
  }

  lemma CommandBalance(s: State, worker: Pid, p: Pid, a: Answer)
    requires Inv(s, worker) && Alive(s, p) && (s.procs[p].pc.Open? || s.procs[p].pc.TakeLease? || s.procs[p].pc.Reload?)
    ensures Standing(CommandAct(s, p, a)) == Standing(s)
  {
    assert ProcInv(s, worker, p);
  }

  lemma SaveBalance(s: State, worker: Pid, p: Pid, a: Answer)
    requires Inv(s, worker) && Alive(s, p) && s.procs[p].pc.Save?
    ensures Standing(CommandAct(s, p, a)) + One(Loses(s, Act(p, a))) == Standing(s)
  {
    assert ProcInv(s, worker, p);
  }

  lemma CrashBalance(s: State, worker: Pid, p: Pid)
    requires Inv(s, worker) && Enabled(s, Crash(p))
    ensures Standing(Next(s, Crash(p))) + One(Loses(s, Crash(p))) == Standing(s)
  {
    assert ProcInv(s, worker, p);
  }

  /** A pull request opened comes to stand somewhere, or is lost; one that stands somewhere stays, or is lost. */
  lemma StepBalance(s: State, worker: Pid, e: Step)
    requires Inv(s, worker) && PhantomOk(s) && Enabled(s, e)
    ensures var t := Next(s, e); Standing(t) + One(Loses(s, e)) == Standing(s) + One(NewPull(s, t))
  {
    var pc := s.procs[e.p].pc;
    if e.Crash? {
      CrashBalance(s, worker, e.p);
    } else if IsWorker(pc) {
      WorkerBalance(s, worker, e.p, e.answer);
      WorkerStep(s, worker, e.p, e.answer);
    } else if IsReconcile(pc) {
      ReconcileBalance(s, worker, e.p, e.answer);
      StepIsPolite(s, worker, e);
      SameEffects(s, e, worker);
    } else if pc.Outside? {
      OutsideBalance(s, worker, e.p, pc.cmd, e.answer);
    } else if pc.Save? {
      SaveBalance(s, worker, e.p, e.answer);
      CommandSaveStep(s, worker, e.p, e.answer);
    } else {
      CommandBalance(s, worker, e.p, e.answer);
      CommandStep(s, worker, e.p, e.answer);
    }
  }

  lemma SameEffects(s: State, e: Step, worker: Pid)
    requires Inv(s, worker) && e.Act? && Alive(s, e.p) && IsReconcile(s.procs[e.p].pc)
    ensures ReconcileAct(s, e.p, e.answer).effects == s.effects
  {
  }

  lemma CountNew(s: State, t: State, e: Step)
    requires EffectOk(s, t, e)
    ensures Opened(t.effects) == Opened(s.effects) + One(NewPull(s, t))
  {
    if t.effects != s.effects {
      OpenedSnoc(s.effects, t.effects[|s.effects|]);
    }
  }

  lemma StepKeepsPhantom(s: State, worker: Pid, e: Step)
    requires Inv(s, worker) && Enabled(s, e) && PhantomOk(s)
    ensures PhantomOk(Next(s, e))
  {
    assert ProcInv(s, worker, e.p);
    StepMovesOn(s, worker, e);
    if s.phantom && !Recorded(s) && s.lease != Some(e.p) {
      StepIsPolite(s, worker, e);
    }
  }

  /**
   The exact count over every run: each pull request opened is recorded, about to be,
   or was lost at some step; so at most one more was opened than were lost.
   */
  lemma {:induction false} PullsAreAccountedFor(s: State, worker: Pid, steps: seq<Step>, t: State)
    requires Init(s, worker) && Runs(s, steps, t)
    ensures Opened(t.effects) == Losses(s, steps) + Standing(t) && PhantomOk(t)
    ensures !(Recorded(t) && InFlight(t)) && Opened(t.effects) <= Losses(s, steps) + 1
    decreases |steps|
  {
    InitHasInv(s, worker);
    if steps != [] {
      var n := |steps| - 1;
      var mid :| Runs(s, steps[..n], mid) && Enabled(mid, steps[n]) && t == Next(mid, steps[n]);
      PullsAreAccountedFor(s, worker, steps[..n], mid);
      RunsMoveOn(s, worker, steps[..n], mid);
      RunIsAfter(s, steps[..n], mid);
      StepAccount(mid, worker, steps[n]);
      StepKeepsPhantom(mid, worker, steps[n]);
    }
    RunsMoveOn(s, worker, steps, t);
    NotBoth(t, worker);
  }

  lemma StepAccount(s: State, worker: Pid, e: Step)
    requires Inv(s, worker) && PhantomOk(s) && Enabled(s, e)
    ensures var t := Next(s, e); Opened(t.effects) - Opened(s.effects) == One(Loses(s, e)) + Standing(t) - Standing(s)
  {
    StepIsPolite(s, worker, e);
    CountNew(s, Next(s, e), e);
    StepBalance(s, worker, e);
  }

  lemma NotBoth(t: State, worker: Pid)
    requires Inv(t, worker)
    ensures !(Recorded(t) && InFlight(t))
  {
    assert InFlight(t) ==> ProcInv(t, worker, t.lease.value);
  }

  // ---------------------------------------------------------------- how an outcome is lost

  datatype Loss = Dies | SaveFails | SilentSuccess | FalseError

  lemma Do(s: State, steps: seq<Step>, mid: State, e: Step) returns (steps': seq<Step>, t: State)
    requires Runs(s, steps, mid) && Enabled(mid, e)
    ensures t == Next(mid, e) && Runs(s, steps', t)
    ensures Alone(steps, e.p) ==> Alone(steps', e.p)
  {
    t := Next(mid, e);
    steps' := steps + [e];
    assert steps'[..|steps|] == steps;
  }

  lemma TakesLease(s: State, steps: seq<Step>, mid: State, q: Pid, cmd: Cmd) returns (steps': seq<Step>, t: State)
    requires Runs(s, steps, mid) && Alive(mid, q) && mid.procs[q].pc == Open(cmd) && mid.lease.None?
    requires mid.disk.Some? && !mid.disk.value.status.Running?
    ensures Alone(steps, q) ==> Alone(steps', q)
    ensures Runs(s, steps', t)
    ensures t == mid.(lease := Some(q), leaseFile := true, procs := mid.procs[q := mid.procs[q].(pc := Reload(cmd))])
  {
    var a, b := FindsRecord(s, steps, mid, q, cmd);
    steps', t := Do(s, a, b, Act(q, Fine));
    assert t.procs == mid.procs[q := mid.procs[q].(pc := Reload(cmd))];
  }

  lemma FindsRecord(s: State, steps: seq<Step>, mid: State, q: Pid, cmd: Cmd) returns (steps': seq<Step>, t: State)
    requires Runs(s, steps, mid) && Alive(mid, q) && mid.procs[q].pc == Open(cmd)
    requires mid.disk.Some? && !mid.disk.value.status.Running?
    ensures Alone(steps, q) ==> Alone(steps', q)
    ensures Runs(s, steps', t)
    ensures t == mid.(procs := mid.procs[q := mid.procs[q].(pc := TakeLease(cmd))])
  {
    steps', t := Do(s, steps, mid, Act(q, Fine));
  }

  /** With the lease free, a command whose guard holds gets to its call outside, changing nothing else. */
  lemma Arrive(s: State, steps: seq<Step>, mid: State, q: Pid, cmd: Cmd) returns (steps': seq<Step>, t: State)
    requires Runs(s, steps, mid) && Alive(mid, q) && mid.procs[q].pc == Open(cmd) && mid.lease.None?
    requires mid.disk.Some? && !mid.disk.value.status.Running? && Guard(cmd, mid.disk.value)
    ensures Alone(steps, q) ==> Alone(steps', q)
    ensures Runs(s, steps', t)
    ensures t == Waiting(mid, q, cmd)
  {
    var a, b := TakesLease(s, steps, mid, q, cmd);
    steps', t := Do(s, a, b, Act(q, Fine));
    assert t.procs == Waiting(mid, q, cmd).procs;
  }

  function Waiting(s: State, q: Pid, cmd: Cmd): State
    requires s.disk.Some? && q in s.procs
  {
    s.(lease := Some(q), leaseFile := true, procs := s.procs[q := s.procs[q].(pc := Outside(cmd), rec := s.disk.value)])
  }

  /** Two publish commands about to start on a pushed record without a URL. */
  ghost predicate TwoPublishers(s: State, p: Pid, q: Pid) {
    && p != q && Alive(s, p) && Alive(s, q) && s.procs[p].pc == Open(Publish) && s.procs[q].pc == Open(Publish)
    && s.lease.None? && !s.phantom && s.disk.Some? && RequirePushedForPublish(s.disk.value)
  }

  /** A publish command has opened its pull request and not yet saved. */
  ghost predicate JustOpened(s: State, p: Pid, url: Option<Url>) {
    && Alive(s, p) && s.lease == Some(p) && s.procs[p].pc == Save(Publish) && !s.phantom && s.disk.Some?
    && RequirePushedForPublish(s.disk.value) && s.procs[p].rec == s.disk.value.(prUrl := url)
  }

  lemma OpenPull(s: State, steps: seq<Step>, mid: State, p: Pid, q: Pid, said: Answer) returns (steps': seq<Step>, t: State)
    requires Runs(s, steps, mid) && TwoPublishers(mid, p, q) && (said.UrlGiven? || said == ExitError(true))
    ensures Runs(s, steps', t) && JustOpened(t, p, RecordedUrl(said)) && t.effects == mid.effects + [OpenedPull]
    ensures Alive(t, q) && t.procs[q].pc == Open(Publish)
  {
    var a, b := Arrive(s, steps, mid, p, Publish);
    steps', t := Speaks(s, a, b, p, said);
  }

  /** The call of a publish opens a pull request and says so, says nothing, or says that it failed. */
  lemma Speaks(s: State, steps: seq<Step>, mid: State, p: Pid, said: Answer) returns (steps': seq<Step>, t: State)
    requires Runs(s, steps, mid) && Alive(mid, p) && mid.procs[p].pc == Outside(Publish) && !mid.phantom
    requires mid.procs[p].rec.prUrl.None? && (said.UrlGiven? || said == ExitError(true))
    ensures Runs(s, steps', t)
    ensures t == mid.(effects := mid.effects + [OpenedPull],
                      procs := mid.procs[p := mid.procs[p].(pc := Save(Publish),
                                                            rec := mid.procs[p].rec.(prUrl := RecordedUrl(said)))])
  {
    steps', t := Do(s, steps, mid, Act(p, said));
  }

  /** A save that goes through but has no URL to record, or one that does not happen. */
  lemma LeaveNoTrace(s: State, steps: seq<Step>, mid: State, p: Pid, q: Pid, url: Option<Url>, last: Step)
    returns (steps': seq<Step>, t: State)
    requires Runs(s, steps, mid) && JustOpened(mid, p, url) && p != q && Alive(mid, q) && mid.procs[q].pc == Open(Publish)
    requires last == if url.None? then Act(p, Fine) else if last.Crash? then Crash(p) else Act(p, Refusal)
    ensures Runs(s, steps', t) && t.effects == mid.effects
    ensures Alive(t, q) && t.procs[q].pc == Open(Publish) && t.lease.None?
    ensures t.disk.Some? && RequirePushedForPublish(t.disk.value) && !t.phantom
  {
    steps', t := Do(s, steps, mid, last);
  }

  /** What the first of them does to lose its outcome. */
  lemma LoseOne(s: State, steps: seq<Step>, mid: State, p: Pid, q: Pid, loss: Loss) returns (steps': seq<Step>, t: State)
    requires Runs(s, steps, mid) && TwoPublishers(mid, p, q)
    ensures Runs(s, steps', t) && t.effects == mid.effects + [OpenedPull]
    ensures Alive(t, q) && t.procs[q].pc == Open(Publish) && t.lease.None?
    ensures t.disk.Some? && RequirePushedForPublish(t.disk.value) && !t.phantom
  {
    var said := if loss.SilentSuccess? then UrlGiven("") else if loss.FalseError? then ExitError(true) else UrlGiven("url");
    var a, b := OpenPull(s, steps, mid, p, q, said);
    var last := if loss.Dies? then Crash(p) else Act(p, if loss.SaveFails? then Refusal else Fine);
    steps', t := LeaveNoTrace(s, a, b, p, q, RecordedUrl(said), last);
  }

  /** However the first outcome is lost, the second command opens another pull request. */
  lemma LostUrlAllowsSecondPull(s: State, steps: seq<Step>, mid: State, p: Pid, q: Pid, loss: Loss)
    returns (steps': seq<Step>, t: State)
    requires Runs(s, steps, mid) && TwoPublishers(mid, p, q)
    ensures Runs(s, steps', t) && Opened(t.effects) == Opened(mid.effects) + 2
  {
    var a, b := LoseOne(s, steps, mid, p, q, loss);
    OpenedSnoc(mid.effects, OpenedPull);
    OpenedSnoc(b.effects, OpenedPull);
    steps', t := PublishAlone(s, a, b, q);
  }

  lemma PublishAlone(s: State, steps: seq<Step>, mid: State, q: Pid) returns (steps': seq<Step>, t: State)
    requires Runs(s, steps, mid) && Alive(mid, q) && mid.procs[q].pc == Open(Publish) && mid.lease.None?
    requires mid.disk.Some? && RequirePushedForPublish(mid.disk.value) && !mid.phantom
    ensures Runs(s, steps', t) && t.effects == mid.effects + [OpenedPull]
  {
    var a, b := Arrive(s, steps, mid, q, Publish);
    steps', t := Speaks(s, a, b, q, UrlGiven("url"));
  }

  // ---------------------------------------------------------------- what a command does when it is let through

  /** What the record must say for a command to go ahead. */
  ghost predicate Fit(cmd: Cmd, r: Record) {
    match cmd
    case Approve | Reject => r.status == Pending && r.candidate != None
    case Push => r.status == Status.Approved && !r.pushed && r.candidate != None
    case Publish => r.status == Status.Approved && r.pushed && r.prUrl == None && r.candidate != None
    case Discard => r.status != Pending && r.status != Running
  }

  /** What a command answered so leaves: the record `b` in place of `a`, and `sent` added to what went out. */
  ghost predicate Leaves(cmd: Cmd, answer: Answer, a: Record, b: Record, sent: seq<Effect>) {
    match cmd
    case Approve =>
      sent == [] && b == if answer.Committed? then a.(status := Status.Approved, approved := Some(answer.oid), saves := a.saves + 1) else a
    case Reject =>
      sent == [] && b == if answer.Refusal? then a else a.(status := Rejected, approved := None, saves := a.saves + 1)
    case Push =>
      && (b == if answer.Fine? then a.(pushed := true, saves := a.saves + 1) else a.(saves := a.saves + 1))
      && (a.approved.Some? ==>
            match answer {
              case Fine => sent == [PushedObject(a.approved.value)]
              case ExitError(took) => sent == if took then [PushedObject(a.approved.value)] else []
              case Unknown(took) => sent == if took then [PushedObject(a.approved.value)] else []
              case Refusal => sent == []
              case _ => true
            })
    case Publish =>
      match answer {
        case UrlGiven(url) =>
          sent == [OpenedPull] && b == a.(prUrl := if url == "" then None else Some(url), saves := a.saves + 1)
        case Unknown(took) =>
          sent == (if took then [OpenedPull] else []) && b == a.(prUrl := Some(INDETERMINATE), saves := a.saves + 1)
        case ExitError(took) =>
          sent == (if took then [OpenedPull] else []) && b == a.(saves := a.saves + 1)
        case _ =>
          sent == [] && b.(saves := a.saves) == a
      }
    case Discard =>
      sent == [] && b == if answer.Refusal? then a else a.(status := Discarded, saves := a.saves + 1)
  }

  /** Only `q` acts. */
  predicate Alone(steps: seq<Step>, q: Pid) {
    forall i :: 0 <= i < |steps| ==> steps[i].p == q
  }

  /** The answer takes the command back, or to its save. */
  ghost predicate Replied(s: State, t: State, q: Pid, cmd: Cmd, a: Answer, sent: seq<Effect>)
    requires s.disk.Some?
  {
    && Alive(t, q) && t.disk == s.disk && t.effects == s.effects + sent
    && var r, me := s.disk.value, t.procs[q];
       || (me.pc.Done? && Leaves(cmd, a, r, r, sent))
       || (me.pc == Save(cmd) && t.lease == Some(q) && Leaves(cmd, a, r, me.rec.(saves := me.rec.saves + 1), sent))
  }

  ghost predicate AtCall(s: State, q: Pid, cmd: Cmd) {
    Alive(s, q) && s.procs[q].pc == Outside(cmd) && s.lease == Some(q) && s.disk == Some(s.procs[q].rec) && Fit(cmd, s.procs[q].rec)
  }

  lemma DecisionReplies(s: State, q: Pid, cmd: Cmd, a: Answer)
    requires AtCall(s, q, cmd) && !cmd.Push? && !cmd.Publish?
    ensures Replied(s, OutsideAct(s, q, cmd, a), q, cmd, a, [])
  {
    assert s.effects + [] == s.effects;
  }

  lemma PushReplies(s: State, q: Pid, a: Answer) returns (sent: seq<Effect>)
    requires AtCall(s, q, Push)
    ensures Replied(s, OutsideAct(s, q, Push, a), q, Push, a, sent)
  {
    var t := OutsideAct(s, q, Push, a);
    assert s.effects + [] == s.effects;
    sent := t.effects[|s.effects|..];
  }

  lemma PublishReplies(s: State, q: Pid, a: Answer) returns (sent: seq<Effect>)
    requires AtCall(s, q, Publish)
    ensures Replied(s, OutsideAct(s, q, Publish, a), q, Publish, a, sent)
  {
    var t := OutsideAct(s, q, Publish, a);
    assert s.effects + [] == s.effects;
    sent := t.effects[|s.effects|..];
  }

  lemma Replies(s: State, steps: seq<Step>, mid: State, q: Pid, cmd: Cmd, a: Answer)
    returns (steps': seq<Step>, t: State, sent: seq<Effect>)
    requires Runs(s, steps, mid) && Alone(steps, q) && AtCall(mid, q, cmd)
    ensures Runs(s, steps', t) && Alone(steps', q) && Replied(mid, t, q, cmd, a, sent)
  {
    steps', t := Do(s, steps, mid, Act(q, a));
    if cmd.Push? {
      sent := PushReplies(mid, q, a);
    } else if cmd.Publish? {
      sent := PublishReplies(mid, q, a);
    } else {
      DecisionReplies(mid, q, cmd, a);
      sent := [];
    }
  }

  lemma SavesAndExits(s: State, steps: seq<Step>, mid: State, q: Pid, cmd: Cmd) returns (steps': seq<Step>, t: State)
    requires Runs(s, steps, mid) && Alone(steps, q) && Alive(mid, q) && mid.procs[q].pc == Save(cmd) && mid.lease == Some(q)
    ensures Runs(s, steps', t) && Alone(steps', q) && Alive(t, q) && t.procs[q].pc.Done? && t.effects == mid.effects
    ensures var r := mid.procs[q].rec; t.disk == Some(r.(saves := r.saves + 1))
  {
    steps', t := Do(s, steps, mid, Act(q, Fine));
    SaveLeaves(mid, q, cmd);
  }

  lemma SavesReply(s: State, steps: seq<Step>, mid: State, before: State, q: Pid, cmd: Cmd, a: Answer, sent: seq<Effect>)
    returns (steps': seq<Step>, t: State)
    requires Runs(s, steps, mid) && Alone(steps, q) && before.disk.Some? && Replied(before, mid, q, cmd, a, sent)
    ensures Runs(s, steps', t) && Alone(steps', q) && Alive(t, q) && t.procs[q].pc.Done?
    ensures t.disk.Some? && Leaves(cmd, a, before.disk.value, t.disk.value, sent) && t.effects == before.effects + sent
  {
    if mid.procs[q].pc.Done? {
      return steps, mid;
    }
    steps', t := SavesAndExits(s, steps, mid, q, cmd);
  }

  lemma AnswersAndSaves(s: State, steps: seq<Step>, mid: State, q: Pid, cmd: Cmd, a: Answer)
    returns (steps': seq<Step>, t: State, sent: seq<Effect>)
    requires Runs(s, steps, mid) && Alone(steps, q) && AtCall(mid, q, cmd)
    ensures Runs(s, steps', t) && Alone(steps', q) && Alive(t, q) && t.procs[q].pc.Done?
    ensures t.disk.Some? && Leaves(cmd, a, mid.disk.value, t.disk.value, sent) && t.effects == mid.effects + sent
  {
    var replied;
    steps', replied, sent := Replies(s, steps, mid, q, cmd, a);
    steps', t := SavesReply(s, steps', replied, mid, q, cmd, a, sent);
  }

  /** With the lease free and a fit record, a command by itself records what it was answered, and sends that and no more. */
  lemma FitGoesThrough(s: State, q: Pid, cmd: Cmd, a: Answer) returns (steps: seq<Step>, t: State, sent: seq<Effect>)
    requires Alive(s, q) && s.procs[q].pc == Open(cmd) && s.lease.None? && s.disk.Some? && Fit(cmd, s.disk.value)
    ensures Runs(s, steps, t) && Alone(steps, q) && Alive(t, q) && t.procs[q].pc.Done?
    ensures t.disk.Some? && Leaves(cmd, a, s.disk.value, t.disk.value, sent) && t.effects == s.effects + sent
  {
    steps, t := Arrive(s, [], s, q, cmd);
    steps, t, sent := AnswersAndSaves(s, steps, t, q, cmd, a);
  }

  /** The command `q` has come no further than the guard, and nothing has changed. */
  ghost predicate HeldBack(s: State, t: State, q: Pid, cmd: Cmd) {
    && t.disk == s.disk && t.effects == s.effects && t.saved == s.saved
    && q in t.procs && s.disk.Some?
    && (t.procs[q].pc.Done? || t.procs[q].pc == Open(cmd)
        || ((t.procs[q].pc == TakeLease(cmd) || t.procs[q].pc == Reload(cmd)) && !s.disk.value.status.Running?))
  }

  lemma ActStaysHeldBack(s: State, mid: State, q: Pid, cmd: Cmd, a: Answer)
    requires s.disk.Some? && !Fit(cmd, s.disk.value) && HeldBack(s, mid, q, cmd) && Alive(mid, q) && !mid.procs[q].pc.Done?
    ensures HeldBack(s, CommandAct(mid, q, a), q, cmd)
  {
    if mid.procs[q].pc.Reload? {
      assert !Guard(cmd, mid.disk.value);
    } else if mid.procs[q].pc.Open? {
    } else {
    }
  }

  lemma StaysHeldBack(s: State, mid: State, q: Pid, cmd: Cmd, e: Step)
    requires s.disk.Some? && !Fit(cmd, s.disk.value) && HeldBack(s, mid, q, cmd) && Enabled(mid, e) && e.p == q
    ensures HeldBack(s, Next(mid, e), q, cmd)
  {
    if e.Act? {
      ActStaysHeldBack(s, mid, q, cmd, e.answer);
    }
  }

  /** While the record is not fit, a command by itself changes and sends nothing. */
  lemma {:induction false} UnfitIsRefused(s: State, q: Pid, cmd: Cmd, steps: seq<Step>, t: State)
    requires q in s.procs && s.procs[q].pc == Open(cmd) && s.disk.Some? && !Fit(cmd, s.disk.value)
    requires Runs(s, steps, t) && Alone(steps, q)
    ensures HeldBack(s, t, q, cmd)
    decreases |steps|
  {
    if steps != [] {
      var n := |steps| - 1;
      var mid :| Runs(s, steps[..n], mid) && Enabled(mid, steps[n]) && t == Next(mid, steps[n]);
      UnfitIsRefused(s, q, cmd, steps[..n], mid);
      StaysHeldBack(s, mid, q, cmd, steps[n]);
    }
  }

  /** While another process holds the lease, nothing that `q` does by itself touches the record or leaves the machine. */
  lemma {:induction false} HolderIsLeftAlone(s: State, worker: Pid, p: Pid, q: Pid, steps: seq<Step>, t: State)
    requires Inv(s, worker) && s.lease == Some(p) && p != q
    requires Runs(s, steps, t) && Alone(steps, q)
    ensures t.disk == s.disk && t.effects == s.effects && t.saved == s.saved && t.lease == s.lease && Inv(t, worker)
    decreases |steps|
  {
    if steps != [] {
      var n := |steps| - 1;
      var mid :| Runs(s, steps[..n], mid) && Enabled(mid, steps[n]) && t == Next(mid, steps[n]);
      HolderIsLeftAlone(s, worker, p, q, steps[..n], mid);
      assert steps[n].p == q;
      StepKeepsInv(mid, worker, steps[n]);
      StepIsPolite(mid, worker, steps[n]);
    }
  }

  lemma ReconcilerPeeks(s: State, q: Pid, discarding: bool) returns (steps: seq<Step>, t: State)
    requires Alive(s, q) && s.procs[q].pc == Peek(discarding)
    requires s.disk.Some? && s.disk.value.status == Running
    ensures Runs(s, steps, t) && Alone(steps, q)
    ensures t == s.(procs := s.procs[q := s.procs[q].(pc := ReconcileLease(discarding), rec := s.disk.value)])
  {
    steps, t := Do(s, [], s, Act(q, Fine));
  }

  lemma ReconcilerLeases(s: State, steps: seq<Step>, mid: State, q: Pid, discarding: bool) returns (steps': seq<Step>, t: State)
    requires Runs(s, steps, mid) && Alone(steps, q) && Alive(mid, q) && mid.procs[q].pc == ReconcileLease(discarding)
    requires mid.lease.None? && mid.leaseFile
    ensures Runs(s, steps', t) && Alone(steps', q)
    ensures t == mid.(lease := Some(q), procs := mid.procs[q := mid.procs[q].(pc := ReconcileReload(discarding))])
  {
    steps', t := Do(s, steps, mid, Act(q, Fine));
  }

  lemma ReconcilerReloads(s: State, steps: seq<Step>, mid: State, q: Pid, discarding: bool) returns (steps': seq<Step>, t: State)
    requires Runs(s, steps, mid) && Alone(steps, q) && Alive(mid, q) && mid.procs[q].pc == ReconcileReload(discarding)
    requires mid.disk.Some? && mid.disk.value.status == Running
    ensures Runs(s, steps', t) && Alone(steps', q) && Alive(t, q) && t.lease == mid.lease && t.effects == mid.effects
    ensures t.procs[q].pc == ReconcileSave(discarding) && Closes(mid.disk.value, t.procs[q].rec, Interrupted, 0)
  {
    steps', t := Do(s, steps, mid, Act(q, Fine));
  }

  /** `b` is `a` with another status, `n` saves later. */
  ghost predicate Closes(a: Record, b: Record, status: Status, n: nat) {
    && b.status == status && b.saves == a.saves + n
    && b.candidate == a.candidate && b.approved == a.approved && b.pushed == a.pushed && b.prUrl == a.prUrl
  }

  /** A discard goes on; otherwise the reconciler is done. */
  ghost predicate AfterReconciling(s: State, q: Pid, discarding: bool) {
    Alive(s, q) && (discarding ==> s.procs[q].pc == Open(Discard)) && (!discarding ==> s.procs[q].pc == Done)
  }

  lemma ReconcileSaveLeaves(s: State, q: Pid, discarding: bool)
    requires Alive(s, q) && s.procs[q].pc == ReconcileSave(discarding) && s.lease == Some(q)
    ensures var t := Next(s, Act(q, Fine));
      && t.lease.None? && t.effects == s.effects && t.disk == Some(s.procs[q].rec.(saves := s.procs[q].rec.saves + 1))
      && AfterReconciling(t, q, discarding)
  {
  }

  lemma ReconcilerSaves(s: State, steps: seq<Step>, mid: State, q: Pid, discarding: bool) returns (steps': seq<Step>, t: State)
    requires Runs(s, steps, mid) && Alone(steps, q) && Alive(mid, q) && mid.procs[q].pc == ReconcileSave(discarding)
    requires mid.lease == Some(q)
    ensures Runs(s, steps', t) && Alone(steps', q) && t.lease.None? && t.effects == mid.effects
    ensures t.disk == Some(mid.procs[q].rec.(saves := mid.procs[q].rec.saves + 1))
    ensures AfterReconciling(t, q, discarding)
  {
    ReconcileSaveLeaves(mid, q, discarding);
    steps', t := Do(s, steps, mid, Act(q, Fine));
  }

  lemma ReconcilerTakesOver(s: State, q: Pid, discarding: bool) returns (steps: seq<Step>, t: State)
    requires Alive(s, q) && s.procs[q].pc == Peek(discarding) && s.lease.None? && s.leaseFile
    requires s.disk.Some? && s.disk.value.status == Running
    ensures Runs(s, steps, t) && Alone(steps, q) && Alive(t, q) && t.procs[q].pc == ReconcileReload(discarding)
    ensures t.lease == Some(q) && t.disk == s.disk && t.effects == s.effects
  {
    steps, t := ReconcilerPeeks(s, q, discarding);
    steps, t := ReconcilerLeases(s, steps, t, q, discarding);
  }

  lemma ReconcilerInterrupts(s: State, steps: seq<Step>, mid: State, q: Pid, discarding: bool) returns (steps': seq<Step>, t: State)
    requires Runs(s, steps, mid) && Alone(steps, q) && Alive(mid, q) && mid.procs[q].pc == ReconcileReload(discarding)
    requires mid.lease == Some(q) && mid.disk.Some? && mid.disk.value.status == Running
    ensures Runs(s, steps', t) && Alone(steps', q) && t.lease.None? && t.effects == mid.effects
    ensures t.disk.Some? && Closes(mid.disk.value, t.disk.value, Interrupted, 1)
    ensures AfterReconciling(t, q, discarding)
  {
    steps', t := ReconcilerReloads(s, steps, mid, q, discarding);
    steps', t := ReconcilerSaves(s, steps', t, q, discarding);
  }

  /** A run that says running, though nobody holds its lease, is recorded as interrupted. */
  lemma DeadRunIsReconciled(s: State, q: Pid, discarding: bool) returns (steps: seq<Step>, t: State)
    requires Alive(s, q) && s.procs[q].pc == Peek(discarding) && s.lease.None? && s.leaseFile
    requires s.disk.Some? && s.disk.value.status == Running
    ensures Runs(s, steps, t) && Alone(steps, q) && t.lease.None? && t.effects == s.effects
    ensures t.disk.Some? && Closes(s.disk.value, t.disk.value, Interrupted, 1)
    ensures AfterReconciling(t, q, discarding)
  {
    steps, t := ReconcilerTakesOver(s, q, discarding);
    steps, t := ReconcilerInterrupts(s, steps, t, q, discarding);
  }

  /** Hence it can be discarded: reconciled first, then like any other. */
  lemma DeadRunIsDiscarded(s: State, q: Pid) returns (steps: seq<Step>, t: State)
    requires Alive(s, q) && s.procs[q].pc == Peek(true) && s.lease.None? && s.leaseFile
    requires s.disk.Some? && s.disk.value.status == Running
    ensures Runs(s, steps, t) && Alone(steps, q) && t.effects == s.effects
    ensures t.disk.Some? && Closes(s.disk.value, t.disk.value, Discarded, 2)
  {
    var mid;
    steps, mid := DeadRunIsReconciled(s, q, true);
    steps, t := Arrive(s, steps, mid, q, Discard);
    var sent;
    steps, t, sent := AnswersAndSaves(s, steps, t, q, Discard, Fine);
  }

  /** What the record says of a loop that ended so. */
  ghost predicate LoopEnds(answer: Answer, a: Record, b: Record, n: nat) {
    match answer
    case Accepted(c) => Closes(a.(candidate := Some(c)), b, Pending, n)
    case OutOfTries => Closes(a, b, Exhausted, n)
    case LoopError => Closes(a, b, Failed, n)
    case _ => false
  }

  lemma LoopTells(s: State, p: Pid, a: Answer) returns (steps: seq<Step>, t: State)
    requires Alive(s, p) && s.procs[p].pc.WorkerLoop? && s.lease == Some(p)
    requires a.Accepted? || a.OutOfTries? || a.LoopError?
    ensures Runs(s, steps, t) && Alone(steps, p) && Alive(t, p) && t.lease == Some(p) && t.effects == s.effects
    ensures t.procs[p].pc.WorkerSave? && LoopEnds(a, s.procs[p].rec, t.procs[p].rec, 0)
  {
    steps, t := Do(s, [], s, Act(p, a));
  }

  /** The worker records how its loop ended, and gives up its lease. */
  lemma LoopIsRecorded(s: State, p: Pid, a: Answer) returns (steps: seq<Step>, t: State)
    requires Alive(s, p) && s.procs[p].pc.WorkerLoop? && s.lease == Some(p)
    requires a.Accepted? || a.OutOfTries? || a.LoopError?
    ensures Runs(s, steps, t) && Alone(steps, p) && t.lease.None? && t.effects == s.effects
    ensures t.disk.Some? && LoopEnds(a, s.procs[p].rec, t.disk.value, 1)
  {
    var mid;
    steps, mid := LoopTells(s, p, a);
    steps, t := Do(s, steps, mid, Act(p, Fine));
  }

  /** Without a lease file there is no evidence that the worker is gone, and nothing is reconciled. */
  lemma NoLeaseFileNoReconciling(s: State, p: Pid, discarding: bool, a: Answer)
    requires Alive(s, p) && s.procs[p].pc == ReconcileLease(discarding) && !s.leaseFile
    ensures Next(s, Act(p, a)).procs[p].pc.Done? && Next(s, Act(p, a)).disk == s.disk
  {
  }

  // ---------------------------------------------------------------- such a state is reachable

  const Blank := Record(Running, None, None, false, None, 0)

  /** A worker and one command each to approve and push, and two to publish. */
  function Part(p: Pid): Pc {
    if p == 0 then WorkerLease else if p == 1 then Open(Approve) else if p == 2 then Open(Push) else Open(Publish)
  }

  function Start(): State {
    State(None, None, false, map p: Pid | 0 <= p < 5 :: Proc(true, Part(p), Blank), [], 0, false)
  }

  /** The commands from `n` on have yet to start, nobody holds the lease, and no pull request was opened. */
  ghost predicate Staged(t: State, n: nat) {
    && t.lease.None? && t.disk.Some? && !t.phantom && Opened(t.effects) == 0
    && (n <= 1 ==> YetToStart(t, 1)) && (n <= 2 ==> YetToStart(t, 2)) && YetToStart(t, 3) && YetToStart(t, 4)
  }

  predicate YetToStart(t: State, p: Pid) { Alive(t, p) && t.procs[p].pc == Part(p) }

  lemma WorkerLeases(s: State, steps: seq<Step>, mid: State, p: Pid) returns (steps': seq<Step>, t: State)
    requires Runs(s, steps, mid) && Alive(mid, p) && mid.procs[p].pc.WorkerLease? && mid.lease.None?
    ensures Runs(s, steps', t)
    ensures t == mid.(lease := Some(p), leaseFile := true, procs := mid.procs[p := mid.procs[p].(pc := WorkerCreate)])
  {
    steps', t := Do(s, steps, mid, Act(p, Fine));
  }

  lemma WorkerBegins(s: State, steps: seq<Step>, mid: State, p: Pid) returns (steps': seq<Step>, t: State)
    requires Runs(s, steps, mid) && Alive(mid, p) && mid.procs[p].pc.WorkerCreate? && mid.lease == Some(p)
    ensures Runs(s, steps', t) && t.lease == Some(p) && t.effects == mid.effects
    ensures Alive(t, p) && t.procs[p].pc.WorkerLoop? && t.procs[p].rec == Blank.(saves := 1)
    ensures t.phantom == mid.phantom
    ensures forall q :: q in mid.procs && q != p ==> q in t.procs && t.procs[q] == mid.procs[q]
  {
    steps', t := Do(s, steps, mid, Act(p, Fine));
  }

  lemma WorkerProposes(s: State, steps: seq<Step>, mid: State, p: Pid) returns (steps': seq<Step>, t: State)
    requires Runs(s, steps, mid) && Alive(mid, p) && mid.procs[p].pc.WorkerLoop? && mid.lease == Some(p)
    ensures Runs(s, steps', t) && t.lease.None? && t.effects == mid.effects
    ensures var r := mid.procs[p].rec; t.disk == Some(r.(status := Pending, candidate := Some(1), saves := r.saves + 1))
    ensures t.phantom == mid.phantom
    ensures forall q :: q in mid.procs && q != p ==> q in t.procs && t.procs[q] == mid.procs[q]
  {
    var a, b := Do(s, steps, mid, Act(p, Accepted(1)));
    steps', t := Do(s, a, b, Act(p, Fine));
  }

  lemma WorkerRuns(s: State, steps: seq<Step>, mid: State, p: Pid) returns (steps': seq<Step>, t: State)
    requires Runs(s, steps, mid) && Alive(mid, p) && mid.procs[p].pc.WorkerLease? && mid.lease.None?
    ensures Runs(s, steps', t) && t.lease.None? && t.effects == mid.effects
    ensures t.disk == Some(Record(Pending, Some(1), None, false, None, 2))
    ensures t.phantom == mid.phantom
    ensures forall q :: q in mid.procs && q != p ==> q in t.procs && t.procs[q] == mid.procs[q]
  {
    var a, b := WorkerLeases(s, steps, mid, p);
    a, b := WorkerBegins(s, a, b, p);
    steps', t := WorkerProposes(s, a, b, p);
  }

  lemma WorkerFinishes() returns (steps: seq<Step>, t: State)
    ensures Runs(Start(), steps, t) && Staged(t, 1) && RequirePending(t.disk.value)
    ensures t.disk.value.prUrl.None? && !t.disk.value.pushed
  {
    steps, t := WorkerRuns(Start(), [], Start(), 0);
  }

  lemma Approves(s: State, steps: seq<Step>, mid: State, q: Pid) returns (steps': seq<Step>, t: State)
    requires Runs(s, steps, mid) && Alive(mid, q) && mid.procs[q].pc == Outside(Approve) && mid.lease == Some(q)
    ensures Runs(s, steps', t) && t.disk.Some? && t.lease.None? && t.effects == mid.effects
    ensures t.disk.value.status.Approved? && t.disk.value.approved.Some?
    ensures var r := mid.procs[q].rec;
      t.disk.value.candidate == r.candidate && t.disk.value.pushed == r.pushed && t.disk.value.prUrl == r.prUrl
    ensures t.phantom == mid.phantom
    ensures forall p :: p in mid.procs && p != q ==> p in t.procs && t.procs[p] == mid.procs[p]
  {
    var a, b := Do(s, steps, mid, Act(q, Committed("commit")));
    steps', t := Saves(s, a, b, q, Approve);
  }

  lemma PushGoesOut(s: State, steps: seq<Step>, mid: State, q: Pid) returns (steps': seq<Step>, t: State)
    requires Runs(s, steps, mid) && Alive(mid, q) && mid.procs[q].pc == Outside(Push) && mid.procs[q].rec.approved.Some?
    ensures Runs(s, steps', t)
    ensures var r := mid.procs[q].rec;
      t == mid.(effects := mid.effects + [PushedObject(r.approved.value)],
                procs := mid.procs[q := mid.procs[q].(pc := Save(Push), rec := r.(pushed := true))])
  {
    steps', t := Do(s, steps, mid, Act(q, Fine));
  }

  /** A command's save goes through. */
  lemma Saves(s: State, steps: seq<Step>, mid: State, q: Pid, cmd: Cmd) returns (steps': seq<Step>, t: State)
    requires Runs(s, steps, mid) && Alive(mid, q) && mid.procs[q].pc == Save(cmd) && mid.lease == Some(q)
    ensures Runs(s, steps', t) && t.lease.None? && t.effects == mid.effects && t.phantom == mid.phantom
    ensures var r := mid.procs[q].rec; t.disk == Some(r.(saves := r.saves + 1))
    ensures forall p :: p in mid.procs && p != q ==> p in t.procs && t.procs[p] == mid.procs[p]
  {
    steps', t := Do(s, steps, mid, Act(q, Fine));
    SaveLeaves(mid, q, cmd);
  }

  lemma SaveLeaves(s: State, q: Pid, cmd: Cmd)
    requires Alive(s, q) && s.procs[q].pc == Save(cmd) && s.lease == Some(q)
    ensures Next(s, Act(q, Fine)) == s.(disk := Some(s.procs[q].rec.(saves := s.procs[q].rec.saves + 1)), saved := s.saved + 1,
                                        lease := None, procs := s.procs[q := s.procs[q].(pc := Done)])
  {
  }

  lemma Pushes(s: State, steps: seq<Step>, mid: State, q: Pid) returns (steps': seq<Step>, t: State)
    requires Runs(s, steps, mid) && Alive(mid, q) && mid.procs[q].pc == Outside(Push) && mid.lease == Some(q)
    requires mid.procs[q].rec.approved.Some?
    ensures Runs(s, steps', t) && t.lease.None? && t.effects == mid.effects + [PushedObject(mid.procs[q].rec.approved.value)]
    ensures var r := mid.procs[q].rec; t.disk == Some(r.(pushed := true, saves := r.saves + 1))
    ensures t.phantom == mid.phantom
    ensures forall p :: p in mid.procs && p != q ==> p in t.procs && t.procs[p] == mid.procs[p]
  {
    var a, b := PushGoesOut(s, steps, mid, q);
    steps', t := Saves(s, a, b, q, Push);
  }

  lemma ApproverFinishes() returns (steps: seq<Step>, t: State)
    ensures Runs(Start(), steps, t) && Staged(t, 2) && RequireApprovedForPush(t.disk.value)
    ensures t.disk.value.prUrl.None? && t.disk.value.approved.Some?
  {
    var a, b := WorkerFinishes();
    a, b := Arrive(Start(), a, b, 1, Approve);
    steps, t := Approves(Start(), a, b, 1);
  }

  lemma PusherFinishes() returns (steps: seq<Step>, t: State)
    ensures Runs(Start(), steps, t) && Staged(t, 3) && RequirePushedForPublish(t.disk.value)
  {
    var a, b := ApproverFinishes();
    OpenedSnoc(b.effects, PushedObject(b.disk.value.approved.value));
    a, b := Arrive(Start(), a, b, 2, Push);
    steps, t := Pushes(Start(), a, b, 2);
  }

  /** From a fresh run, in each of the four ways: two pull requests for one candidate. */
  lemma TwoPullsFromTheStart(loss: Loss) returns (steps: seq<Step>, t: State)
    ensures Init(Start(), 0) && Runs(Start(), steps, t) && Opened(t.effects) == 2
  {
    var a, b := PusherFinishes();
    steps, t := LostUrlAllowsSecondPull(Start(), a, b, 3, 4, loss);
  }
}
