/**
 The plan, patch and verify loop over one clone.  What the proposer answers and
 what the checks report come from outside; here they are an arbitrary script.
 The point of the loop is that the file list sent to review misses nothing that
 any attempt left in the clone.
 */
module PlannerLoop {
  import opened Basics
  import opened ProposalTransaction

  const MAX_ITERATIONS: nat := 25

  datatype Gate =
    | NoFilesChanged
    | FileWriteFailed
    | CriticalFinding
    | OutOfScopeWrite
    | WriteBudgetExceeded
    | VerificationFailed

  predicate Quarantines(g: Gate) {
    g.CriticalFinding? || g.OutOfScopeWrite? || g.WriteBudgetExceeded?
  }

  predicate SomeQuarantines(gates: seq<Gate>)
    ensures SomeQuarantines(gates) <==>
      CriticalFinding in gates || OutOfScopeWrite in gates || WriteBudgetExceeded in gates
  {
    exists g :: g in gates && Quarantines(g)
  }

  datatype Verdict = NotRun | Passed | Failed

  /** The place of a gate in the contract. */
  function Place(g: Gate): nat {
    match g
    case NoFilesChanged => 0
    case FileWriteFailed => 1
    case CriticalFinding => 2
    case OutOfScopeWrite => 3
    case WriteBudgetExceeded => 4
    case VerificationFailed => 5
  }

  predicate InContractOrder(gates: seq<Gate>) {
    forall i, j :: 0 <= i < j < |gates| ==> Place(gates[i]) < Place(gates[j])
  }

  /** The gates that are raised, of all those that may be. */
  function Raised(causes: seq<(bool, Gate)>): (gates: seq<Gate>)
    ensures forall g :: g in gates <==> (true, g) in causes
  {
    if causes == [] then []
    else
      var n := |causes| - 1;
      assert causes == causes[..n] + [causes[n]];
      if causes[n].0 then Raised(causes[..n]) + [causes[n].1] else Raised(causes[..n])
  }

  lemma {:induction false} RaisedInOrder(causes: seq<(bool, Gate)>)
    requires forall i, j :: 0 <= i < j < |causes| ==> Place(causes[i].1) < Place(causes[j].1)
    ensures InContractOrder(Raised(causes))
  {
    if causes != [] {
      var n := |causes| - 1;
      RaisedInOrder(causes[..n]);
      var gates := Raised(causes[..n]);
      forall k | 0 <= k < |gates| ensures Place(gates[k]) < Place(causes[n].1) {
        assert gates[k] in gates;
        var i :| 0 <= i < n && causes[i] == (true, gates[k]);
      }
    }
  }

  function Causes(changed: seq<string>, verdict: Verdict, findings: nat, writeFailed: bool, outOfScope: bool, overBudget: bool)
    : (causes: seq<(bool, Gate)>)
    ensures (true, NoFilesChanged) in causes <==> changed == [] && findings == 0 && !outOfScope && !overBudget
    ensures (true, FileWriteFailed) in causes <==> writeFailed
    ensures (true, CriticalFinding) in causes <==> findings > 0
    ensures (true, OutOfScopeWrite) in causes <==> outOfScope
    ensures (true, WriteBudgetExceeded) in causes <==> overBudget
    ensures (true, VerificationFailed) in causes <==> verdict == Failed
  {
    var quarantined := findings > 0 || outOfScope || overBudget;
    [(changed == [] && !quarantined, NoFilesChanged), (writeFailed, FileWriteFailed), (findings > 0, CriticalFinding),
     (outOfScope, OutOfScopeWrite), (overBudget, WriteBudgetExceeded), (verdict == Failed, VerificationFailed)]
  }

  /** `decide_real_repo_candidate`: each gate for its own cause; no gate means accepted. */
  function Decide(changed: seq<string>, verdict: Verdict, findings: nat, writeFailed: bool, outOfScope: bool, overBudget: bool)
    : (gates: seq<Gate>)
    ensures gates == [] <==>
            changed != [] && !writeFailed && findings == 0 && !outOfScope && !overBudget && verdict != Failed
    ensures SomeQuarantines(gates) <==> findings > 0 || outOfScope || overBudget
    ensures NoFilesChanged in gates <==> changed == [] && findings == 0 && !outOfScope && !overBudget
    ensures FileWriteFailed in gates <==> writeFailed
    ensures CriticalFinding in gates <==> findings > 0
    ensures OutOfScopeWrite in gates <==> outOfScope
    ensures WriteBudgetExceeded in gates <==> overBudget
    ensures VerificationFailed in gates <==> verdict == Failed
  {
    var gates := Raised(Causes(changed, verdict, findings, writeFailed, outOfScope, overBudget));
    assert gates != [] ==> gates[0] in gates;
    gates
  }

  /** Each gate is raised once, in contract order. */
  lemma DecideInOrder(changed: seq<string>, verdict: Verdict, findings: nat, writeFailed: bool, outOfScope: bool, overBudget: bool)
    ensures InContractOrder(Decide(changed, verdict, findings, writeFailed, outOfScope, overBudget))
  {
    RaisedInOrder(Causes(changed, verdict, findings, writeFailed, outOfScope, overBudget));
  }

  datatype Iteration = Iteration(step: nat, changed: seq<string>, gates: seq<Gate>)

  predicate Quarantined(it: Iteration) {
    SomeQuarantines(it.gates)
  }

  // ---------------------------------------------------------------- the review list

  function Written(iterations: seq<Iteration>): seq<string> {
    if iterations == [] then []
    else
      var last := iterations[|iterations| - 1];
      Written(iterations[..|iterations| - 1]) + if Quarantined(last) then [] else last.changed
  }

  /** Each path once, in the order of its first occurrence. */
  function FirstWrites(paths: seq<string>): (r: seq<string>)
    ensures forall p :: p in r <==> p in paths
    ensures forall i, j :: 0 <= i < j < |r| ==> r[i] != r[j]
  {
    if paths == [] then []
    else
      var r, p := FirstWrites(paths[..|paths| - 1]), paths[|paths| - 1];
      assert paths == paths[..|paths| - 1] + [p];
      if p in r then r else r + [p]
  }

  /** `a` is in the list at a place up to which `b` does not occur. */
  ghost predicate Before(paths: seq<string>, a: string, b: string) {
    exists k :: 0 <= k < |paths| && paths[k] == a && b !in paths[..k + 1]
  }

  lemma {:induction false} FirstWritesInOrder(paths: seq<string>, i: nat, j: nat)
    requires i < j < |FirstWrites(paths)|
    ensures Before(paths, FirstWrites(paths)[i], FirstWrites(paths)[j])
  {
    var n := |paths| - 1;
    var r := FirstWrites(paths[..n]);
    if j < |r| {
      FirstWritesInOrder(paths[..n], i, j);
      var k :| 0 <= k < n && paths[..n][k] == r[i] && r[j] !in paths[..n][..k + 1];
      assert paths[..n][..k + 1] == paths[..k + 1] && paths[k] == r[i];
    } else {
      assert r[i] in paths[..n];
      var k :| 0 <= k < n && paths[..n][k] == r[i];
      assert forall p :: p in paths[..k + 1] ==> p in paths[..n];
      assert paths[k] == r[i];
    }
  }

  /** Some iteration that was not quarantined wrote `p`, and no later than at place `c` of iteration `n`. */
  ghost predicate WrittenBy(iterations: seq<Iteration>, n: nat, c: nat, p: string)
    requires n < |iterations| && c < |iterations[n].changed|
  {
    || (exists m :: 0 <= m < n && p in iterations[m].changed && !Quarantined(iterations[m]))
    || p in iterations[n].changed[..c + 1]
  }

  /** Where the path at place `k` of the list of all writes was written. */
  lemma {:induction false} WrittenAt(iterations: seq<Iteration>, k: nat) returns (n: nat, c: nat)
    requires k < |Written(iterations)|
    ensures n < |iterations| && !Quarantined(iterations[n]) && c < |iterations[n].changed|
    ensures iterations[n].changed[c] == Written(iterations)[k]
    ensures forall p :: WrittenBy(iterations, n, c, p) ==> p in Written(iterations)[..k + 1]
  {
    var m := |iterations| - 1;
    var was, all := Written(iterations[..m]), Written(iterations);
    if k < |was| {
      n, c := WrittenAt(iterations[..m], k);
      assert all[..k + 1] == was[..k + 1];
      forall p | WrittenBy(iterations, n, c, p) ensures p in all[..k + 1] {
        assert WrittenBy(iterations[..m], n, c, p);
      }
    } else {
      n, c := m, k - |was|;
      assert all[..k + 1] == was + iterations[m].changed[..c + 1];
      forall p | WrittenBy(iterations, n, c, p) ensures p in all[..k + 1] {
        if p !in iterations[n].changed[..c + 1] {
          var e :| 0 <= e < n && p in iterations[e].changed && !Quarantined(iterations[e]);
          WrittenHolds(iterations[..m], e, p);
        }
      }
    }
  }

  lemma {:induction false} WrittenHolds(iterations: seq<Iteration>, n: nat, p: string)
    requires n < |iterations| && p in iterations[n].changed && !Quarantined(iterations[n])
    ensures p in Written(iterations)
  {
    var m := |iterations| - 1;
    if n < m {
      assert iterations[..m][n] == iterations[n];
      WrittenHolds(iterations[..m], n, p);
    }
  }

  /** Some iteration that was not quarantined wrote `a` before any such iteration wrote `b`. */
  ghost predicate WrittenEarlier(iterations: seq<Iteration>, a: string, b: string) {
    exists n, c :: 0 <= n < |iterations| && 0 <= c < |iterations[n].changed| && iterations[n].changed[c] == a
      && !Quarantined(iterations[n]) && !WrittenBy(iterations, n, c, b)
  }

  /** The list holds every file that any iteration outside quarantine wrote, once, in the order of its first write. */
  lemma ReviewListIs(iterations: seq<Iteration>)
    ensures var r := FirstWrites(Written(iterations));
      && (forall p :: p in r <==> exists n :: 0 <= n < |iterations| && p in iterations[n].changed && !Quarantined(iterations[n]))
      && (forall i, j :: 0 <= i < j < |r| ==> WrittenEarlier(iterations, r[i], r[j]))
  {
    var all := Written(iterations);
    var r := FirstWrites(all);
    forall p | p in r ensures exists n :: 0 <= n < |iterations| && p in iterations[n].changed && !Quarantined(iterations[n]) {
      var k :| 0 <= k < |all| && all[k] == p;
      var n, c := WrittenAt(iterations, k);
      assert iterations[n].changed[c] == p;
    }
    forall p, n | 0 <= n < |iterations| && p in iterations[n].changed && !Quarantined(iterations[n]) ensures p in r {
      WrittenHolds(iterations, n, p);
    }
    forall i, j | 0 <= i < j < |r| ensures WrittenEarlier(iterations, r[i], r[j]) {
      FirstWritesInOrder(all, i, j);
      var k :| 0 <= k < |all| && all[k] == r[i] && r[j] !in all[..k + 1];
      var n, c := WrittenAt(iterations, k);
      assert !WrittenBy(iterations, n, c, r[j]);
    }
  }

  lemma OneMorePath(before: seq<string>, changed: seq<string>, m: nat)
    requires m < |changed|
    ensures var r := FirstWrites(before + changed[..m]);
      FirstWrites(before + changed[..m + 1]) == if changed[m] in r then r else r + [changed[m]]
  {
    var all := before + changed[..m + 1];
    assert all[..|all| - 1] == before + changed[..m] && all[|all| - 1] == changed[m];
  }

  method AddNew(seen: seq<string>, changed: seq<string>, ghost before: seq<string>) returns (r: seq<string>)
    requires seen == FirstWrites(before)
    ensures r == FirstWrites(before + changed)
  {
    r := seen;
    assert before + changed[..0] == before;
    for m := 0 to |changed|
      invariant r == FirstWrites(before + changed[..m])
    {
      OneMorePath(before, changed, m);
      if changed[m] !in r {
        r := r + [changed[m]];
      }
    }
    assert changed[..|changed|] == changed;
  }

  method ChangedFiles(iterations: seq<Iteration>) returns (seen: seq<string>)
    ensures seen == FirstWrites(Written(iterations))
    ensures forall p :: p in seen <==>
              exists n :: 0 <= n < |iterations| && p in iterations[n].changed && !Quarantined(iterations[n])
    ensures forall i, j :: 0 <= i < j < |seen| ==> seen[i] != seen[j] && WrittenEarlier(iterations, seen[i], seen[j])
  {
    seen := [];
    for n := 0 to |iterations|
      invariant seen == FirstWrites(Written(iterations[..n]))
    {
      var it := iterations[n];
      assert iterations[..n + 1][..n] == iterations[..n];
      ghost var before := Written(iterations[..n]);
      if Quarantined(it) {
        assert before + [] == before;
      } else {
        seen := AddNew(seen, it.changed, before);
      }
    }
    assert iterations[..|iterations|] == iterations;
    ReviewListIs(iterations);
  }

  // ---------------------------------------------------------------- the code of an exhausted run

  datatype Code = VerifyFailedLoop | PlannerRefused | MaxIterations

  /** `exhausted_reject_code` */
  function ExhaustedCode(iterations: seq<Iteration>): Code {
    if iterations == [] then MaxIterations
    else
      var gates := iterations[|iterations| - 1].gates;
      if VerificationFailed in gates then VerifyFailedLoop
      else if NoFilesChanged in gates || FileWriteFailed in gates then PlannerRefused
      else MaxIterations
  }

  // ---------------------------------------------------------------- the loop

  /** What the checks report, or that they could not be carried out. */
  datatype Report = Pass | Fail | Broken

  /**
   One planner answer: none, unparsable, or a proposal with its scan results; and what
   the checks would report on any tree.  They leave the tree alone.
   */
  datatype Answer = Answer(given: bool, parsed: bool, entries: seq<Entry>, findings: nat, outOfScope: bool,
                           report: map<string, Bytes> -> Report)

  datatype Ending = GoOn | Error | Quarantine

  datatype Result = Stopped(why: Ending) | Finished(accepted: bool, iterations: seq<Iteration>)

  ghost predicate Differ(base: map<string, Bytes>, now: map<string, Bytes>, path: string) {
    Lookup(base, path) != Lookup(now, path)
  }

  /** Every path on which the clone differs from its base is on the review list. */
  ghost predicate Covered(base: map<string, Bytes>, now: map<string, Bytes>, iterations: seq<Iteration>) {
    forall path :: Differ(base, now, path) ==> path in Written(iterations)
  }

  lemma Extended(base: map<string, Bytes>, mid: map<string, Bytes>, now: map<string, Bytes>, iterations: seq<Iteration>, it: Iteration)
    requires Covered(base, mid, iterations)
    requires forall path :: Differ(mid, now, path) ==> path in it.changed && !Quarantined(it)
    ensures Covered(base, now, iterations + [it])
  {
    assert (iterations + [it])[..|iterations|] == iterations;
    forall path | Differ(base, now, path) ensures path in Written(iterations + [it]) {
      if !Differ(mid, now, path) { assert Differ(base, mid, path); }
    }
  }

  lemma AppliedPathsDiffer(files: map<string, Bytes>, plans: seq<Plan>, paths: seq<string>)
    requires |paths| == |plans| && forall i :: 0 <= i < |plans| ==> paths[i] == plans[i].path
    ensures forall path :: Differ(files, Overlay(files, plans, |plans|), path) ==> path in paths
  {
    forall path | Differ(files, Overlay(files, plans, |plans|), path) ensures path in paths {
      if path !in paths {
        OverlayElsewhere(files, plans, |plans|, path);
      }
    }
  }

  // ---------------------------------------------------------------- what the loop does when nothing goes wrong

  /** The tree with every proposed file written. */
  function Entered(files: map<string, Bytes>, entries: seq<Entry>): map<string, Bytes> {
    if entries == [] then files
    else
      var last := entries[|entries| - 1];
      Entered(files, entries[..|entries| - 1])[last.landed := last.content]
  }

  lemma {:induction false} OverlayIsEntered(files: map<string, Bytes>, plans: seq<Plan>, entries: seq<Entry>, n: nat)
    requires Realizes(plans, entries) && n <= |plans|
    ensures Overlay(files, plans, n) == Entered(files, entries[..n])
  {
    if n > 0 {
      OverlayIsEntered(files, plans, entries, n - 1);
      assert entries[..n][..n - 1] == entries[..n - 1];
    }
  }

  /** The scans object to nothing. */
  predicate Clear(a: Answer, budget: nat) {
    a.parsed && a.findings == 0 && !a.outOfScope && ProposedBytes(a.entries) <= budget
  }

  /** The proposal is written: nothing objectionable in it, and nothing stale. */
  ghost predicate Applies(a: Answer, files: map<string, Bytes>, fold: string -> string, budget: nat) {
    a.given && Clear(a, budget) && Acceptable(a.entries, fold, budget) && MatchingEntries(files, a.entries)
  }

  /** The tree that an attempt leaves. */
  ghost function Leaves(a: Answer, files: map<string, Bytes>, fold: string -> string, budget: nat): map<string, Bytes> {
    if Applies(a, files, fold, budget) then Entered(files, a.entries) else files
  }

  /** The attempt writes something on which its checks pass. */
  ghost predicate Accepts(a: Answer, files: map<string, Bytes>, fold: string -> string, budget: nat) {
    Applies(a, files, fold, budget) && a.entries != [] && a.report(Leaves(a, files, fold, budget)).Pass?
  }

  /** There is no answer, or the checks on what it writes cannot be carried out. */
  ghost predicate Breaks(a: Answer, files: map<string, Bytes>, fold: string -> string, budget: nat) {
    !a.given || (Applies(a, files, fold, budget) && a.entries != [] && a.report(Leaves(a, files, fold, budget)).Broken?)
  }

  /** The tree that attempt `n` meets: what the attempts before it have left. */
  ghost function Met(script: seq<Answer>, files: map<string, Bytes>, fold: string -> string, budget: nat, n: nat)
    : map<string, Bytes>
    requires n <= |script|
  {
    if n == 0 then files else Leaves(script[n - 1], Met(script, files, fold, budget, n - 1), fold, budget)
  }

  /** The first `n` attempts neither end the loop nor break it off. */
  ghost predicate GoesOn(script: seq<Answer>, files: map<string, Bytes>, fold: string -> string, budget: nat, n: nat)
    requires n <= |script|
  {
    forall i :: 0 <= i < n ==>
      && !Accepts(script[i], Met(script, files, fold, budget, i), fold, budget)
      && !Breaks(script[i], Met(script, files, fold, budget, i), fold, budget)
  }

  /** Attempt `n` ends the loop, breaks it off, or lets it go on. */
  lemma OneMoreAttempt(script: seq<Answer>, files: map<string, Bytes>, fold: string -> string, budget: nat, n: nat)
    requires n < |script| && GoesOn(script, files, fold, budget, n)
    ensures var met := Met(script, files, fold, budget, n);
      && Met(script, files, fold, budget, n + 1) == Leaves(script[n], met, fold, budget)
      && (!Accepts(script[n], met, fold, budget) && !Breaks(script[n], met, fold, budget) ==>
            GoesOn(script, files, fold, budget, n + 1))
  {
  }

  // ---------------------------------------------------------------- what it does in any case

  /** An attempt without a gate wrote every proposed file and tripped nothing. */
  ghost predicate Earned(a: Answer, it: Iteration, budget: nat) {
    && it.changed != [] && a.given && Clear(a, budget)
    && |it.changed| == |a.entries| && forall i :: 0 <= i < |a.entries| ==> it.changed[i] == a.entries[i].landed
  }

  /** A scan objects to what the answer proposes. */
  ghost predicate Objected(a: Answer, budget: nat) {
    a.parsed && (a.findings > 0 || a.outOfScope || |Flat(AllContents(a.entries))| > budget)
  }

  /** What is recorded of one attempt, each gate by its own cause; if it had checks, they saw the tree `tested`. */
  ghost predicate Told(a: Answer, it: Iteration, tested: map<string, Bytes>, budget: nat) {
    && InContractOrder(it.gates)
    && (NoFilesChanged in it.gates <==> it.changed == [] && !Objected(a, budget))
    && (!a.parsed ==> FileWriteFailed in it.gates)
    && (Objected(a, budget) || it.changed != [] ==> FileWriteFailed !in it.gates)
    && (!Objected(a, budget) && it.changed == [] && a.entries != [] ==> FileWriteFailed in it.gates)
    && (CriticalFinding in it.gates <==> a.parsed && a.findings > 0)
    && (OutOfScopeWrite in it.gates <==> a.parsed && a.outOfScope)
    && (WriteBudgetExceeded in it.gates <==> a.parsed && |Flat(AllContents(a.entries))| > budget)
    && (VerificationFailed in it.gates <==> it.changed != [] && a.report(tested).Fail?)
    && (it.changed != [] ==>
          && a.parsed && !Objected(a, budget) && !a.report(tested).Broken?
          && |it.changed| == |a.entries| && forall i :: 0 <= i < |a.entries| ==> it.changed[i] == a.entries[i].landed)
  }

  /** Failed checks, nothing written though nothing was objected to, or an objection: one code for each. */
  ghost predicate ClosedFor(a: Answer, it: Iteration, tested: map<string, Bytes>, budget: nat, code: Code) {
    && (code.VerifyFailedLoop? <==> it.changed != [] && a.report(tested).Fail?)
    && (code.PlannerRefused? <==> it.changed == [] && !Objected(a, budget))
    && (code.MaxIterations? <==> Objected(a, budget))
  }

  /** The code of an exhausted run goes by what became of its last attempt. */
  lemma CodeOfTheLast(a: Answer, iterations: seq<Iteration>, it: Iteration, tested: map<string, Bytes>, budget: nat)
    requires Told(a, it, tested, budget) && it.gates != []
    ensures ClosedFor(a, it, tested, budget, ExhaustedCode(iterations + [it]))
  {
    assert it.gates[0] in it.gates;
    match it.gates[0] {
      case NoFilesChanged =>
      case FileWriteFailed =>
      case CriticalFinding =>
      case OutOfScopeWrite =>
      case WriteBudgetExceeded =>
      case VerificationFailed =>
    }
  }

  /** The checks passed at turn `at`, on the tree of that moment, and the program has written nothing since. */
  ghost predicate PassedAt(ws: Workspace, a: Answer, at: nat)
    reads ws
  {
    && at <= |ws.history| && a.report(ws.TreeAfter(ws.history[..at])).Pass?
    && Grew(ws.history[..at], ws.history, [])
    && (ws.Undisturbed() ==> ws.TreeAfter(ws.history[..at]) == ws.targets)
  }

  /** A file that the attempt installed could not be taken out again; its preimage is kept. */
  ghost predicate LeftBehind(ws: Workspace, before: Turns, a: Answer)
    reads ws
  {
    exists plans: seq<Plan>, k: nat, left: nat, made: seq<Write>, undone: seq<Write> ::
      && 0 < left <= k <= |plans| && Realizes(plans, a.entries)
      && Grew(before, ws.history, made + undone) && Installs(made, plans, k) && Restores(undone, plans, left, k)
      && ws.BackedUp(plans, left)
  }

  /** The apply of one attempt; nothing is written when a scan objects. */
  method WriteFiles(ws: Workspace, a: Answer, fold: string -> string, budget: nat)
    returns (changed: seq<string>, failed: bool, quarantine: bool)
    requires ws.Valid() && ws.Anchored() && a.given
    modifies ws
    ensures ws.Valid() && ws.Anchored() && old(ws.history) <= ws.history && old(ws.calls) <= ws.calls
    ensures failed || quarantine || !Clear(a, budget) ==> changed == []
    ensures !Clear(a, budget) ==> ws.history == old(ws.history) && !quarantine && !failed
    ensures Clear(a, budget) && !failed && !quarantine ==>
              |changed| == |a.entries| && forall i :: 0 <= i < |a.entries| ==> changed[i] == a.entries[i].landed
    ensures quarantine ==> LeftBehind(ws, old(ws.history), a)
    ensures !quarantine && ws.Undisturbed() ==> forall path :: Differ(old(ws.targets), ws.targets, path) ==> path in changed
    ensures ws.Faultless() && ws.Undisturbed() ==>
              && !quarantine && ws.targets == Leaves(a, old(ws.targets), fold, budget)
              && (Clear(a, budget) ==> (!failed <==> Applies(a, old(ws.targets), fold, budget)))
  {
    changed, failed, quarantine := [], false, false;
    if Clear(a, budget) {
      ghost var before := ws.targets;
      var outcome;
      ghost var plans, k, left, made, undone;
      outcome, plans, k, left, made, undone := ws.Apply(a.entries, fold, budget);
      match outcome {
        case Applied(paths) =>
          changed := paths;
          AppliedPathsDiffer(before, plans, paths);
          OverlayIsEntered(before, plans, a.entries, |plans|);
          assert a.entries[..|plans|] == a.entries;
        case Refused(_) =>
          failed := true;
        case Quarantined =>
          quarantine := true;
      }
    }
  }

  /** One attempt: scan, apply, verify, decide.  Others may act before and after the checks too. */
  method Step(ws: Workspace, a: Answer, fold: string -> string, budget: nat, step: nat)
    returns (ending: Ending, it: Iteration, ghost at: nat)
    requires ws.Valid() && ws.Anchored()
    modifies ws
    ensures ws.Valid() && ws.Anchored() && old(ws.history) <= ws.history && old(ws.calls) <= ws.calls && it.step == step
    ensures ending.GoOn? && ws.Undisturbed() ==>
              forall path :: Differ(old(ws.targets), ws.targets, path) ==> path in it.changed && !Quarantined(it)
    ensures |old(ws.history)| <= at <= |ws.history| && (ws.Undisturbed() ==> ws.TreeAfter(ws.history[..at]) == ws.targets)
    ensures ending.Error? ==> !a.given || a.report(ws.TreeAfter(ws.history[..at])).Broken?
    ensures ending.Quarantine? ==> LeftBehind(ws, old(ws.history), a)
    ensures ws.Faultless() && ws.Undisturbed() ==> !ending.Quarantine?
    ensures ending.GoOn? ==> Told(a, it, ws.TreeAfter(ws.history[..at]), budget)
    ensures ending.GoOn? && it.gates == [] ==> Earned(a, it, budget) && PassedAt(ws, a, at)
    ensures ws.Faultless() && ws.Undisturbed() ==>
              && (ws.targets == Leaves(a, old(ws.targets), fold, budget))
              && (ending.GoOn? <==> !Breaks(a, old(ws.targets), fold, budget))
              && (ending.GoOn? && it.gates == [] <==> Accepts(a, old(ws.targets), fold, budget))
  {
    it := Iteration(step, [], []);
    at := |ws.history|;
    assert ws.history[..at] == ws.history;
    if !a.given {
      return Error, it, at;
    }
    var changed, failed, quarantine := WriteFiles(ws, a, fold, budget);
    at := |ws.history|;
    assert ws.history[..at] == ws.history;
    if quarantine {
      return Ending.Quarantine, it, at;
    }
    var verdict := NotRun;
    if changed != [] {
      var report;
      report, at := Verify(ws, a);
      if report.Broken? {
        return Error, it, at;
      }
      verdict := if report.Pass? then Passed else Failed;
    }
    var findings := if a.parsed then a.findings else 0;
    var overBudget := a.parsed && ProposedBytes(a.entries) > budget;
    it := Iteration(step, changed, Decide(changed, verdict, findings, !a.parsed || failed, a.parsed && a.outOfScope, overBudget));
    DecideInOrder(changed, verdict, findings, !a.parsed || failed, a.parsed && a.outOfScope, overBudget);
    ending := GoOn;
  }

  /** The checks, with others at work before and after. */
  method Verify(ws: Workspace, a: Answer) returns (report: Report, ghost at: nat)
    requires ws.Valid() && ws.Anchored()
    modifies ws`targets, ws`turn, ws`history
    ensures ws.Valid() && ws.Anchored() && Grew(old(ws.history), ws.history, []) && |old(ws.history)| <= at <= |ws.history|
    ensures report == a.report(ws.TreeAfter(ws.history[..at]))
    ensures ws.Undisturbed() ==> ws.targets == old(ws.targets) && ws.TreeAfter(ws.history[..at]) == ws.targets
    ensures report.Pass? ==> PassedAt(ws, a, at)
  {
    ghost var start := ws.history;
    ws.Interfere();
    ghost var middle := ws.history;
    at := |ws.history|;
    report := a.report(ws.targets);
    ws.Interfere();
    GrewTwice(start, middle, ws.history, [], []);
    assert ws.history[..at] == middle;
  }

  /**
   `run_real_repo_loop` over a script that has an answer for every step allowed.
   A finished run covers every difference from the base.  An accepted one ended with
   an attempt that wrote files, tripped no gate and passed its checks on the very tree
   it leaves, but for what others have done to that since.
   */
  method Run(ws: Workspace, script: seq<Answer>, fold: string -> string, budget: nat, most: nat)
    returns (result: Result, ghost ats: seq<nat>)
    requires ws.Valid() && ws.Anchored() && most <= |script|
    modifies ws
    ensures ws.Valid() && ws.Anchored()
    ensures result == Stopped(Error) || 0 < most <= 25
    ensures 0 < most <= 25 ==> Ends(ws, script, old(ws.targets), fold, budget, most, result, ats)
  {
    ats := [];
    if most == 0 || most > MAX_ITERATIONS {
      return Stopped(Error), ats;
    }
    var iterations: seq<Iteration> := [];
    for n := 0 to most
      invariant Going(ws, script, old(ws.targets), fold, budget, n, iterations, ats)
    {
      var ending, it;
      ghost var at;
      ending, it, at := Attempt(ws, script, fold, budget, n, iterations, ats, old(ws.targets));
      if !ending.GoOn? {
        TookAndEnds(ws, script, old(ws.targets), fold, budget, n, most, iterations, ats, ending, it, at);
        return Stopped(ending), ats;
      }
      if it.gates == [] {
        TookAndEnds(ws, script, old(ws.targets), fold, budget, n, most, iterations, ats, ending, it, at);
        return Finished(true, iterations + [it]), ats + [at];
      }
      TookAndGoesOn(ws, script, old(ws.targets), fold, budget, n, most, iterations, ats, it, at);
      iterations := iterations + [it];
      ats := ats + [at];
    }
    result := Finished(false, iterations);
    RunsOut(ws, script, old(ws.targets), fold, budget, most, iterations, ats);
  }

  /** What holds of a run when it ends. */
  ghost predicate Ends(ws: Workspace, script: seq<Answer>, files: map<string, Bytes>, fold: string -> string, budget: nat,
                       most: nat, result: Result, ats: seq<nat>)
    requires most <= |script|
    reads ws
  {
    // Without failures or interference the outcome is determined: the loop ends with the first answer that
    // is accepted on the tree it meets, or breaks off at the first that breaks it.
    && (ws.Faultless() && ws.Undisturbed() ==> Foretold(script, files, fold, budget, most, result, ws.targets))
    && (result.Finished? ==> Finishes(ws, script, files, budget, most, result.accepted, result.iterations, ats))
  }

  ghost predicate Finishes(ws: Workspace, script: seq<Answer>, files: map<string, Bytes>, budget: nat, most: nat,
                           accepted: bool, iterations: seq<Iteration>, ats: seq<nat>)
    requires most <= |script|
    reads ws
  {
    && 0 < |iterations| <= most
    && (ws.Undisturbed() ==> Covered(files, ws.targets, iterations))
    // Iteration `i` saw its checks, if it had any, after turn `ats[i]`; its gates tell what happened.
    && AllTold(ws, ws.history, script, ats, iterations, budget)
    && var n := |iterations| - 1;
       && (accepted <==> iterations[n].gates == [])
       && (forall i :: 0 <= i < n ==> iterations[i].gates != [])
       && (accepted ==> Earned(script[n], iterations[n], budget) && PassedAt(ws, script[n], ats[n]))
       // So does the code with which an exhausted run is closed.
       && (!accepted ==> n + 1 == most && Closed(ws, ws.history, script, ats, iterations, budget))
  }

  /** Every iteration tells the truth about its attempt and the tree its checks saw, after turn `ats[i]`. */
  ghost predicate AllTold(ws: Workspace, turns: Turns, script: seq<Answer>, ats: seq<nat>, iterations: seq<Iteration>, budget: nat) {
    && |ats| == |iterations| <= |script|
    && (forall i :: 0 <= i < |ats| ==>
          && ats[i] <= |turns| && iterations[i].step == i + 1
          && Told(script[i], iterations[i], ws.TreeAfter(turns[..ats[i]]), budget))
    && (forall i, j :: 0 <= i < j < |ats| ==> ats[i] <= ats[j])
  }

  /** If the run ends here, its code is that of the last attempt. */
  ghost predicate Closed(ws: Workspace, turns: Turns, script: seq<Answer>, ats: seq<nat>, iterations: seq<Iteration>, budget: nat) {
    && 0 < |iterations| == |ats| <= |script|
    && var n := |iterations| - 1;
       && ats[n] <= |turns|
       && ClosedFor(script[n], iterations[n], ws.TreeAfter(turns[..ats[n]]), budget, ExhaustedCode(iterations))
  }

  lemma OneMoreTold(ws: Workspace, was: Turns, now: Turns, script: seq<Answer>, ats: seq<nat>, iterations: seq<Iteration>,
                    budget: nat, at: nat, it: Iteration)
    requires AllTold(ws, was, script, ats, iterations, budget) && was <= now && |was| <= at <= |now|
    requires |iterations| < |script| && it.step == |iterations| + 1
    requires Told(script[|iterations|], it, ws.TreeAfter(now[..at]), budget)
    ensures AllTold(ws, now, script, ats + [at], iterations + [it], budget)
    ensures it.gates != [] ==> Closed(ws, now, script, ats + [at], iterations + [it], budget)
  {
    assert forall i :: 0 <= i < |ats| ==> now[..ats[i]] == was[..ats[i]];
    if it.gates != [] {
      CodeOfTheLast(script[|iterations|], iterations, it, ws.TreeAfter(now[..at]), budget);
    }
  }

  /** After `n` attempts without success: what differs is on the list, and left to itself the loop is where it should be. */
  ghost predicate Going(ws: Workspace, script: seq<Answer>, files: map<string, Bytes>, fold: string -> string, budget: nat,
                        n: nat, iterations: seq<Iteration>, ats: seq<nat>)
    requires n <= |script|
    reads ws
  {
    && ws.Valid() && ws.Anchored()
    && AllTold(ws, ws.history, script, ats, iterations, budget)
    && (n > 0 ==> Closed(ws, ws.history, script, ats, iterations, budget))
    && |iterations| == n && (forall i :: 0 <= i < n ==> iterations[i].gates != [])
    && (ws.Undisturbed() ==> Covered(files, ws.targets, iterations))
    && (ws.Faultless() && ws.Undisturbed() ==>
          ws.targets == Met(script, files, fold, budget, n) && GoesOn(script, files, fold, budget, n))
  }

  /** An undisturbed attempt ends the loop as foretold, or lets it go on. */
  lemma CalmAttempt(script: seq<Answer>, files: map<string, Bytes>, fold: string -> string, budget: nat, n: nat, most: nat,
                    iterations: seq<Iteration>, now: map<string, Bytes>)
    requires n < most <= |script| && GoesOn(script, files, fold, budget, n) && |iterations| == n + 1
    requires now == Leaves(script[n], Met(script, files, fold, budget, n), fold, budget)
    ensures now == Met(script, files, fold, budget, n + 1)
    ensures var met := Met(script, files, fold, budget, n);
      && (Accepts(script[n], met, fold, budget) ==> Foretold(script, files, fold, budget, most, Finished(true, iterations), now))
      && (Breaks(script[n], met, fold, budget) ==> Foretold(script, files, fold, budget, most, Stopped(Error), now))
      && (!Accepts(script[n], met, fold, budget) && !Breaks(script[n], met, fold, budget) ==>
            GoesOn(script, files, fold, budget, n + 1))
  {
    OneMoreAttempt(script, files, fold, budget, n);
    if Breaks(script[n], Met(script, files, fold, budget, n), fold, budget) {
      assert BreaksAt(script, files, fold, budget, n, now);
    }
  }

  lemma RunsOut(ws: Workspace, script: seq<Answer>, files: map<string, Bytes>, fold: string -> string, budget: nat, most: nat,
                iterations: seq<Iteration>, ats: seq<nat>)
    requires 0 < most <= |script| && Going(ws, script, files, fold, budget, most, iterations, ats)
    ensures Ends(ws, script, files, fold, budget, most, Finished(false, iterations), ats)
  {
  }

  /** What holds after attempt `n`. */
  ghost predicate Took(ws: Workspace, script: seq<Answer>, files: map<string, Bytes>, fold: string -> string, budget: nat, n: nat,
                       iterations: seq<Iteration>, ats: seq<nat>, ending: Ending, it: Iteration, at: nat)
    requires n < |script|
    reads ws
  {
    && ws.Valid() && ws.Anchored() && |iterations| == n && (forall i :: 0 <= i < n ==> iterations[i].gates != [])
    && (ending.GoOn? ==>
          && AllTold(ws, ws.history, script, ats + [at], iterations + [it], budget)
          && (it.gates != [] ==> Closed(ws, ws.history, script, ats + [at], iterations + [it], budget))
          && (it.gates == [] ==> Earned(script[n], it, budget) && PassedAt(ws, script[n], at))
          && (ws.Undisturbed() ==> Covered(files, ws.targets, iterations + [it])))
    && (ws.Faultless() && ws.Undisturbed() ==>
          var met := Met(script, files, fold, budget, n);
          && GoesOn(script, files, fold, budget, n) && ws.targets == Leaves(script[n], met, fold, budget)
          && !ending.Quarantine? && (ending.GoOn? <==> !Breaks(script[n], met, fold, budget))
          && (ending.GoOn? && it.gates == [] <==> Accepts(script[n], met, fold, budget)))
  }

  lemma TookAndGoesOn(ws: Workspace, script: seq<Answer>, files: map<string, Bytes>, fold: string -> string, budget: nat, n: nat,
                      most: nat, iterations: seq<Iteration>, ats: seq<nat>, it: Iteration, at: nat)
    requires n < most <= |script| && it.gates != []
    requires Took(ws, script, files, fold, budget, n, iterations, ats, GoOn, it, at)
    ensures Going(ws, script, files, fold, budget, n + 1, iterations + [it], ats + [at])
  {
    if ws.Faultless() && ws.Undisturbed() {
      CalmAttempt(script, files, fold, budget, n, most, iterations + [it], ws.targets);
    }
  }

  lemma TookAndEnds(ws: Workspace, script: seq<Answer>, files: map<string, Bytes>, fold: string -> string, budget: nat, n: nat,
                    most: nat, iterations: seq<Iteration>, ats: seq<nat>, ending: Ending, it: Iteration, at: nat)
    requires n < most <= |script|
    requires Took(ws, script, files, fold, budget, n, iterations, ats, ending, it, at)
    ensures !ending.GoOn? ==> Ends(ws, script, files, fold, budget, most, Stopped(ending), ats)
    ensures ending.GoOn? && it.gates == [] ==>
              Ends(ws, script, files, fold, budget, most, Finished(true, iterations + [it]), ats + [at])
  {
    if ws.Faultless() && ws.Undisturbed() {
      CalmAttempt(script, files, fold, budget, n, most, iterations + [it], ws.targets);
    }
  }

  /** One round of the loop. */
  method Attempt(ws: Workspace, script: seq<Answer>, fold: string -> string, budget: nat, n: nat,
                 ghost iterations: seq<Iteration>, ghost ats: seq<nat>, ghost files: map<string, Bytes>)
    returns (ending: Ending, it: Iteration, ghost at: nat)
    requires n < |script| && Going(ws, script, files, fold, budget, n, iterations, ats)
    modifies ws
    ensures Took(ws, script, files, fold, budget, n, iterations, ats, ending, it, at)
  {
    ghost var before, start := ws.targets, ws.history;
    ending, it, at := Step(ws, script[n], fold, budget, n + 1);
    if ending.GoOn? {
      OneMoreTold(ws, start, ws.history, script, ats, iterations, budget, at, it);
      if ws.Undisturbed() {
        Extended(files, before, ws.targets, iterations, it);
      }
    }
  }

  /** Attempt `n` is the first that breaks the loop off, leaving this tree. */
  ghost predicate BreaksAt(script: seq<Answer>, files: map<string, Bytes>, fold: string -> string, budget: nat, n: nat,
                           now: map<string, Bytes>)
    requires n < |script|
  {
    && GoesOn(script, files, fold, budget, n) && Breaks(script[n], Met(script, files, fold, budget, n), fold, budget)
    && now == Met(script, files, fold, budget, n + 1)
  }

  /** What a run comes to on these answers, and the tree it leaves. */
  ghost predicate Foretold(script: seq<Answer>, files: map<string, Bytes>, fold: string -> string, budget: nat, most: nat,
                           result: Result, now: map<string, Bytes>)
    requires most <= |script|
  {
    match result
    case Finished(true, iterations) =>
      var n := |iterations| - 1;
      && 0 <= n < most && GoesOn(script, files, fold, budget, n)
      && Accepts(script[n], Met(script, files, fold, budget, n), fold, budget)
      && now == Met(script, files, fold, budget, n + 1)
    case Finished(false, iterations) =>
      |iterations| == most && GoesOn(script, files, fold, budget, most) && now == Met(script, files, fold, budget, most)
    case Stopped(why) =>
      why == Error && exists n :: 0 <= n < most && BreaksAt(script, files, fold, budget, n, now)
  }
}
