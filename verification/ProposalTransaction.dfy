/**
 Applying a multi-file proposal to the clone: validate, stage replacements and
 backup preimages, install by rename, roll back in reverse, quarantine when the
 rollback itself fails.

 Other programs may rewrite any target between calls, and between the check and
 the rename of one call.  What they do is an input: `others(n)` is the tree they
 leave on their turn `n`, if they act on it.  Any file operation may fail: the
 operation number `n` does if `fails(n)`.  Staging and backup names carry a random
 identifier, so others never touch those files.
 */
module ProposalTransaction {

  import opened Basics

  const MAX_WRITE_BYTES: nat := 256_000

  /** One write to a target: what its check saw, and what it left. */
  datatype Write = Write(path: string, checked: Option<Bytes>, after: Option<Bytes>)

  /** One accepted destination, its required preimage, its new content and its private identifier. */
  datatype Plan = Plan(path: string, original: Option<Bytes>, content: Bytes, id: nat)

  /**
   A proposed file.  `admitted` is the verdict of the path jail, the protected
   path list and the symlink refusal; `expected` is missing when the proposal
   carries no precondition for the file.
   */
  datatype Entry = Entry(landed: string, content: Bytes, expected: Option<Option<Bytes>>, admitted: bool)

  datatype Failure = Denied | Stale | WriteGateClosed | Io

  datatype Outcome = Applied(paths: seq<string>) | Refused(why: Failure) | Quarantined

  function Lookup(files: map<string, Bytes>, path: string): Option<Bytes> {
    if path in files then Some(files[path]) else None
  }

  function Put(files: map<string, Bytes>, path: string, content: Option<Bytes>): map<string, Bytes> {
    if content.Some? then files[path := content.value] else files - {path}
  }

  // ---------------------------------------------------------------- bounded reads

  function Truncated(content: Bytes, limit: nat): Bytes {
    if |content| <= limit then content else content[..limit]
  }

  /** One byte more than either version is enough to decide equality of the whole content. */
  lemma BoundedReadDecidesEquality(content: Bytes, expected: Bytes, most: nat)
    requires |expected| <= most
    ensures Truncated(content, most + 1) == expected <==> content == expected
  {
    if |content| > most + 1 {
      assert |Truncated(content, most + 1)| == most + 1;
    }
  }

  // ---------------------------------------------------------------- what a journal says

  function InstallOf(p: Plan): Write { Write(p.path, p.original, Some(p.content)) }

  function RestoreOf(p: Plan): Write { Write(p.path, Some(p.content), p.original) }

  /** A turn of the others, with a write of the transaction around it or without one. */
  type Turns = seq<Option<Write>>

  /** The writes made, in order. */
  function Journal(turns: Turns): seq<Write> {
    if turns == [] then []
    else
      var n := |turns| - 1;
      Journal(turns[..n]) + if turns[n].Some? then [turns[n].value] else []
  }

  /** More turns have passed, in which exactly these writes were made. */
  ghost predicate Grew(before: Turns, now: Turns, js: seq<Write>) {
    before <= now && Journal(now) == Journal(before) + js
  }

  lemma OneMoreTurn(turns: Turns, turn: Option<Write>)
    ensures Grew(turns, turns + [turn], if turn.Some? then [turn.value] else [])
  {
    assert (turns + [turn])[..|turns|] == turns;
  }

  lemma GrewTwice(a: Turns, b: Turns, c: Turns, x: seq<Write>, y: seq<Write>)
    requires Grew(a, b, x) && Grew(b, c, y)
    ensures Grew(a, c, x + y) && (x == [] ==> x + y == y) && (y == [] ==> x + y == x)
  {
    assert (Journal(a) + x) + y == Journal(a) + (x + y);
  }

  /** A write made since `before` is among the writes made since then. */
  lemma {:induction false} JournalledSince(before: Turns, now: Turns, js: seq<Write>, n: nat)
    requires Grew(before, now, js) && |before| <= n < |now| && now[n].Some?
    ensures now[n].value in js
    decreases |now|
  {
    var m := |now| - 1;
    var last := if now[m].Some? then [now[m].value] else [];
    JournalGrows(before, now[..m]);
    var earlier := Journal(now[..m])[|Journal(before)|..];
    assert Journal(now[..m]) == Journal(before) + earlier;
    SameEnd(Journal(before), js, earlier, last);
    if n < m {
      JournalledSince(before, now[..m], earlier, n);
    }
  }

  lemma SameEnd(a: seq<Write>, b: seq<Write>, c: seq<Write>, d: seq<Write>)
    requires a + b == (a + c) + d
    ensures b == c + d
  {
    assert b == (a + b)[|a|..];
    assert c + d == ((a + c) + d)[|a|..];
  }

  lemma {:induction false} JournalGrows(before: Turns, now: Turns)
    requires before <= now
    ensures Journal(before) <= Journal(now)
    decreases |now|
  {
    if |before| < |now| {
      JournalGrows(before, now[..|now| - 1]);
    } else {
      assert before == now;
    }
  }

  /** Every write since `before` installs or restores one of these files. */
  ghost predicate OnlyPlannedSince(before: Turns, now: Turns, plans: seq<Plan>, k: nat)
    requires k <= |plans|
  {
    forall n :: |before| <= n < |now| && now[n].Some? ==>
      exists q :: 0 <= q < k && (now[n].value == InstallOf(plans[q]) || now[n].value == RestoreOf(plans[q]))
  }

  lemma PlannedSince(before: Turns, now: Turns, made: seq<Write>, undone: seq<Write>, plans: seq<Plan>, left: nat, k: nat)
    requires Grew(before, now, made + undone) && Installs(made, plans, k) && Restores(undone, plans, left, k)
    ensures OnlyPlannedSince(before, now, plans, k)
  {
    forall n | |before| <= n < |now| && now[n].Some?
      ensures exists q :: 0 <= q < k && (now[n].value == InstallOf(plans[q]) || now[n].value == RestoreOf(plans[q]))
    {
      JournalledSince(before, now, made + undone, n);
      PlanOfWrite(made, undone, plans, left, k, now[n].value);
    }
  }

  lemma PlanOfWrite(made: seq<Write>, undone: seq<Write>, plans: seq<Plan>, left: nat, k: nat, w: Write)
    requires Installs(made, plans, k) && Restores(undone, plans, left, k) && w in made + undone
    ensures exists q :: 0 <= q < k && (w == InstallOf(plans[q]) || w == RestoreOf(plans[q]))
  {
    if w in made {
      var q :| 0 <= q < |made| && made[q] == w;
      assert w == InstallOf(plans[q]);
    } else {
      var i :| 0 <= i < |undone| && undone[i] == w;
      assert w == RestoreOf(plans[k - 1 - i]);
    }
  }

  /** The first `k` plans were installed, in order. */
  ghost predicate Installs(j: seq<Write>, plans: seq<Plan>, k: nat) {
    |j| == k <= |plans| && forall i :: 0 <= i < k ==> j[i] == InstallOf(plans[i])
  }

  /** Plans `left` to `k` in reverse order, each from its replacement back to its preimage. */
  ghost predicate Restores(j: seq<Write>, plans: seq<Plan>, left: nat, k: nat) {
    && left <= k <= |plans| && |j| == k - left
    && forall i :: 0 <= i < |j| ==> j[i] == RestoreOf(plans[k - 1 - i])
  }

  lemma OneMoreInstall(j: seq<Write>, plans: seq<Plan>, k: nat)
    requires Installs(j, plans, k) && k < |plans|
    ensures Installs(j + [InstallOf(plans[k])], plans, k + 1)
  {
  }

  lemma OneMoreRestore(j: seq<Write>, plans: seq<Plan>, left: nat, k: nat)
    requires Restores(j, plans, left, k) && 0 < left
    ensures Restores(j + [RestoreOf(plans[left - 1])], plans, left - 1, k)
  {
  }

  ghost predicate DistinctPaths(plans: seq<Plan>) {
    forall i, j :: 0 <= i < j < |plans| ==> plans[i].path != plans[j].path
  }

  /** Fresh identifiers: distinct from one another and from every older one. */
  ghost predicate Numbered(plans: seq<Plan>, base: nat) {
    forall i :: 0 <= i < |plans| ==> plans[i].id == base + i
  }

  /** The plans from `n` on are staged with their content. */
  ghost predicate StagedFrom(stages: map<nat, Bytes>, plans: seq<Plan>, n: nat) {
    forall i :: n <= i < |plans| ==> plans[i].id in stages && stages[plans[i].id] == plans[i].content
  }

  /** The preimages of the first `k` plans are kept. */
  ghost predicate Preserved(backups: map<nat, Bytes>, plans: seq<Plan>, k: nat)
    requires k <= |plans|
  {
    forall i :: 0 <= i < k && plans[i].original.Some? ==>
      plans[i].id in backups && backups[plans[i].id] == plans[i].original.value
  }

  lemma OneBackupLess(backups: map<nat, Bytes>, plans: seq<Plan>, k: nat)
    requires k < |plans| && Numbered(plans, Base(plans)) && Preserved(backups, plans, k + 1)
    ensures Preserved(backups - {plans[k].id}, plans, k) && Preserved(backups, plans, k)
  {
  }

  lemma OneStageLess(stages: map<nat, Bytes>, plans: seq<Plan>, n: nat)
    requires n < |plans| && Numbered(plans, Base(plans)) && StagedFrom(stages, plans, n)
    ensures StagedFrom(stages - {plans[n].id}, plans, n + 1)
  {
  }

  ghost predicate Matching(files: map<string, Bytes>, plans: seq<Plan>) {
    forall i :: 0 <= i < |plans| ==> Lookup(files, plans[i].path) == plans[i].original
  }

  /** What the last of these writes to `path` left there, if there is one. */
  ghost function LastLeft(j: seq<Write>, path: string): Option<Option<Bytes>> {
    if j == [] then None
    else if j[|j| - 1].path == path then Some(j[|j| - 1].after)
    else LastLeft(j[..|j| - 1], path)
  }

  lemma {:induction false} LastLeftAt(j: seq<Write>, path: string, m: nat)
    requires m < |j| && j[m].path == path && forall n :: m < n < |j| ==> j[n].path != path
    ensures LastLeft(j, path) == Some(j[m].after)
    decreases |j|
  {
    if m < |j| - 1 {
      LastLeftAt(j[..|j| - 1], path, m);
    }
  }

  /** Which of `k` plans write `n` belongs to, when the installs are undone from the last one on. */
  function PlanOf(k: nat, n: nat): int { if n < k then n else 2 * k - 1 - n }

  /** Write `n` went to the path of its plan: the replacement first, the preimage when undone. */
  ghost predicate WrittenFor(w: Write, plans: seq<Plan>, k: nat, n: nat) {
    && 0 <= PlanOf(k, n) < |plans| && w.path == plans[PlanOf(k, n)].path
    && w.after == if n < k then Some(plans[PlanOf(k, n)].content) else plans[PlanOf(k, n)].original
  }

  lemma EachWriteHasItsPlan(made: seq<Write>, undone: seq<Write>, plans: seq<Plan>, left: nat, k: nat, n: nat)
    requires Installs(made, plans, k) && Restores(undone, plans, left, k) && n < |made + undone|
    ensures 0 <= PlanOf(k, n) < k && WrittenFor((made + undone)[n], plans, k, n)
  {
    if n < k {
      assert made[n] == InstallOf(plans[n]);
    } else {
      assert undone[n - k] == RestoreOf(plans[k - 1 - (n - k)]);
    }
  }

  lemma OnlyPlanned(made: seq<Write>, undone: seq<Write>, plans: seq<Plan>, left: nat, k: nat)
    requires Installs(made, plans, k) && Restores(undone, plans, left, k)
    ensures forall w :: w in made + undone ==> exists n :: 0 <= n < k && plans[n].path == w.path
  {
    forall w | w in made + undone ensures exists n :: 0 <= n < k && plans[n].path == w.path {
      var n :| 0 <= n < |made + undone| && (made + undone)[n] == w;
      EachWriteHasItsPlan(made, undone, plans, left, k, n);
    }
  }

  lemma {:induction false} LastWriteDecides(j: seq<Write>, plans: seq<Plan>, k: nat, i: nat, last: nat)
    requires DistinctPaths(plans) && i < |plans| && last < |j| && PlanOf(k, last) == i
    requires forall n :: 0 <= n < |j| ==> WrittenFor(j[n], plans, k, n)
    requires forall n :: last < n < |j| ==> PlanOf(k, n) != i
    ensures LastLeft(j, plans[i].path) == Some(if last < k then Some(plans[i].content) else plans[i].original)
  {
    assert WrittenFor(j[last], plans, k, last);
    forall n | last < n < |j| ensures j[n].path != plans[i].path {
      assert WrittenFor(j[n], plans, k, n);
    }
    LastLeftAt(j, plans[i].path, last);
  }

  /**
   The transaction wrote only the files it installed.  It left a file that is
   still in place with its replacement, and every other one with its preimage.
   */
  lemma {:induction false} WhatTheJournalLeaves(made: seq<Write>, undone: seq<Write>, plans: seq<Plan>,
                                                left: nat, k: nat, i: nat)
    requires Installs(made, plans, k) && Restores(undone, plans, left, k) && DistinctPaths(plans) && i < k
    ensures forall w :: w in made + undone ==> exists n :: 0 <= n < k && plans[n].path == w.path
    ensures LastLeft(made + undone, plans[i].path) == Some(if i < left then Some(plans[i].content) else plans[i].original)
  {
    OnlyPlanned(made, undone, plans, left, k);
    var j := made + undone;
    forall n | 0 <= n < |j| ensures WrittenFor(j[n], plans, k, n) {
      EachWriteHasItsPlan(made, undone, plans, left, k, n);
    }
    LastWriteDecides(j, plans, k, i, if i < left then i else 2 * k - 1 - i);
  }

  /** The tree with the first `n` plans installed. */
  ghost function Overlay(files: map<string, Bytes>, plans: seq<Plan>, n: nat): map<string, Bytes>
    requires n <= |plans|
  {
    if n == 0 then files else Overlay(files, plans, n - 1)[plans[n - 1].path := plans[n - 1].content]
  }

  lemma {:induction false} OverlayElsewhere(files: map<string, Bytes>, plans: seq<Plan>, n: nat, path: string)
    requires n <= |plans| && forall i :: 0 <= i < n ==> plans[i].path != path
    ensures Lookup(Overlay(files, plans, n), path) == Lookup(files, path)
  {
    if n > 0 {
      OverlayElsewhere(files, plans, n - 1, path);
    }
  }

  /** The next file to install is still as it was found. */
  lemma NextIsUntouched(files: map<string, Bytes>, plans: seq<Plan>, n: nat)
    requires n < |plans|
    ensures DistinctPaths(plans) && Matching(files, plans) ==>
      Lookup(Overlay(files, plans, n), plans[n].path) == plans[n].original
  {
    if DistinctPaths(plans) {
      OverlayElsewhere(files, plans, n, plans[n].path);
    }
  }

  /** Undoing the newest installed file leaves the overlay of the older ones. */
  lemma UndoLast(files: map<string, Bytes>, plans: seq<Plan>, n: nat)
    requires n < |plans| && DistinctPaths(plans) && Matching(files, plans)
    ensures Put(Overlay(files, plans, n + 1), plans[n].path, plans[n].original) == Overlay(files, plans, n)
  {
    OverlayElsewhere(files, plans, n, plans[n].path);
  }

  /** An entry that passed validation. */
  datatype Checked = Checked(path: string, original: Option<Bytes>, content: Bytes)

  ghost predicate Admits(checked: seq<Checked>, entries: seq<Entry>)
    requires |checked| <= |entries|
  {
    forall i :: 0 <= i < |checked| ==>
      && entries[i].admitted && |entries[i].content| <= MAX_WRITE_BYTES
      && entries[i].expected == Some(checked[i].original)
      && checked[i].path == entries[i].landed && checked[i].content == entries[i].content
  }

  ghost predicate DistinctChecked(checked: seq<Checked>) {
    forall i, j :: 0 <= i < j < |checked| ==> checked[i].path != checked[j].path
  }

  ghost predicate MatchingChecked(files: map<string, Bytes>, checked: seq<Checked>) {
    forall i :: 0 <= i < |checked| ==> Lookup(files, checked[i].path) == checked[i].original
  }

  function Forget(p: Plan): Checked { Checked(p.path, p.original, p.content) }

  /** The plans carry out the first of the checked entries, in order. */
  ghost predicate CarryOut(plans: seq<Plan>, checked: seq<Checked>) {
    |plans| <= |checked| && forall i :: 0 <= i < |plans| ==> Forget(plans[i]) == checked[i]
  }

  /** What the entries would write, one after another. */
  function AllContents(entries: seq<Entry>): (contents: seq<Bytes>)
    ensures |contents| == |entries| && forall i :: 0 <= i < |entries| ==> contents[i] == entries[i].content
  {
    seq(|entries|, i requires 0 <= i < |entries| => entries[i].content)
  }

  /** The bytes of the first `n` entries. */
  function BytesOf(entries: seq<Entry>, n: nat): (bytes: nat)
    requires n <= |entries|
    ensures bytes == |Flat(AllContents(entries)[..n])|
  {
    if n == 0 then 0
    else
      FlatSnoc(AllContents(entries)[..n - 1], entries[n - 1].content);
      assert AllContents(entries)[..n] == AllContents(entries)[..n - 1] + [entries[n - 1].content];
      BytesOf(entries, n - 1) + |entries[n - 1].content|
  }

  function ProposedBytes(entries: seq<Entry>): (bytes: nat)
    ensures bytes == |Flat(AllContents(entries))|
  {
    assert AllContents(entries)[..|entries|] == AllContents(entries);
    BytesOf(entries, |entries|)
  }

  /** The first `n` entries are admitted, within the size limit and preconditioned, and no two may be the same file. */
  ghost predicate AcceptableEntries(entries: seq<Entry>, n: nat, fold: string -> string)
    requires n <= |entries|
  {
    && (forall i :: 0 <= i < n ==>
          entries[i].admitted && |entries[i].content| <= MAX_WRITE_BYTES && entries[i].expected.Some?)
    && (forall i, j :: 0 <= i < j < n ==> fold(entries[i].landed) != fold(entries[j].landed))
  }

  ghost predicate Acceptable(entries: seq<Entry>, fold: string -> string, budget: nat) {
    AcceptableEntries(entries, |entries|, fold) && |Flat(AllContents(entries))| <= budget
  }

  ghost predicate MatchingEntries(files: map<string, Bytes>, entries: seq<Entry>) {
    forall i :: 0 <= i < |entries| ==> entries[i].expected == Some(Lookup(files, entries[i].landed))
  }

  /** What the destinations of the first `n` entries fold to. */
  function Names(entries: seq<Entry>, n: nat, fold: string -> string): set<string>
    requires n <= |entries|
  {
    if n == 0 then {} else Names(entries, n - 1, fold) + {fold(entries[n - 1].landed)}
  }

  lemma {:induction false} NamesAre(entries: seq<Entry>, n: nat, fold: string -> string)
    requires n <= |entries|
    ensures forall i :: 0 <= i < n ==> fold(entries[i].landed) in Names(entries, n, fold)
    ensures forall x :: x in Names(entries, n, fold) ==> exists i :: 0 <= i < n && fold(entries[i].landed) == x
  {
    if n > 0 {
      NamesAre(entries, n - 1, fold);
    }
  }

  /** The first `n` entries have passed: nothing is wrong with them, and this is what was noted of them. */
  ghost predicate Passed(entries: seq<Entry>, n: nat, fold: string -> string, seen: set<string>, checked: seq<Checked>, total: nat)
    requires n <= |entries|
  {
    && |checked| == n && Admits(checked, entries) && AcceptableEntries(entries, n, fold)
    && seen == Names(entries, n, fold) && total == BytesOf(entries, n)
  }

  lemma PassOne(entries: seq<Entry>, n: nat, fold: string -> string, seen: set<string>, checked: seq<Checked>, total: nat)
    requires n < |entries| && Passed(entries, n, fold, seen, checked, total)
    requires var e := entries[n];
      e.admitted && fold(e.landed) !in seen && |e.content| <= MAX_WRITE_BYTES && e.expected.Some?
    ensures var e := entries[n];
      Passed(entries, n + 1, fold, seen + {fold(e.landed)}, checked + [Checked(e.landed, e.expected.value, e.content)],
             total + |e.content|)
  {
    AdmitOne(entries, n, checked);
    AcceptOne(entries, n, fold);
  }

  lemma AdmitOne(entries: seq<Entry>, n: nat, checked: seq<Checked>)
    requires |checked| == n < |entries| && Admits(checked, entries)
    requires entries[n].admitted && |entries[n].content| <= MAX_WRITE_BYTES && entries[n].expected.Some?
    ensures Admits(checked + [Checked(entries[n].landed, entries[n].expected.value, entries[n].content)], entries)
  {
  }

  lemma AcceptOne(entries: seq<Entry>, n: nat, fold: string -> string)
    requires n < |entries| && AcceptableEntries(entries, n, fold)
    requires var e := entries[n];
      e.admitted && fold(e.landed) !in Names(entries, n, fold) && |e.content| <= MAX_WRITE_BYTES && e.expected.Some?
    ensures AcceptableEntries(entries, n + 1, fold)
  {
    NamesAre(entries, n, fold);
  }

  lemma NoteOne(files: map<string, Bytes>, checked: seq<Checked>, c: Checked)
    requires MatchingChecked(files, checked) && Lookup(files, c.path) == c.original
    ensures MatchingChecked(files, checked + [c])
  {
  }

  lemma UnacceptableEntry(entries: seq<Entry>, n: nat, fold: string -> string)
    requires n < |entries|
    requires var e := entries[n];
      !e.admitted || fold(e.landed) in Names(entries, n, fold) || |e.content| > MAX_WRITE_BYTES || e.expected.None?
    ensures !AcceptableEntries(entries, |entries|, fold)
  {
    NamesAre(entries, n, fold);
  }

  lemma StaleEntry(files: map<string, Bytes>, entries: seq<Entry>, n: nat)
    requires n < |entries|
    ensures MatchingEntries(files, entries) ==> entries[n].expected == Some(Lookup(files, entries[n].landed))
  {
  }

  /** The plans are the first proposed files, with the preimages the proposal requires. */
  ghost predicate Realizes(plans: seq<Plan>, entries: seq<Entry>) {
    && |plans| <= |entries|
    && forall i :: 0 <= i < |plans| ==>
         && entries[i].admitted && |entries[i].content| <= MAX_WRITE_BYTES
         && plans[i].path == entries[i].landed && plans[i].content == entries[i].content
         && entries[i].expected == Some(plans[i].original)
  }

  /** Names that fold apart are different paths. */
  lemma PathsDiffer(checked: seq<Checked>, entries: seq<Entry>, fold: string -> string)
    requires |checked| == |entries| && Admits(checked, entries) && AcceptableEntries(entries, |entries|, fold)
    ensures DistinctChecked(checked)
  {
    forall i, j | 0 <= i < j < |checked| ensures checked[i].path != checked[j].path {
      assert fold(entries[i].landed) != fold(entries[j].landed);
    }
  }

  lemma Translate(plans: seq<Plan>, checked: seq<Checked>, entries: seq<Entry>)
    requires CarryOut(plans, checked) && |checked| == |entries| && Admits(checked, entries) && DistinctChecked(checked)
    ensures Realizes(plans, entries) && DistinctPaths(plans)
  {
    assert forall i :: 0 <= i < |plans| ==> Forget(plans[i]) == checked[i];
  }

  lemma CalmPlans(plans: seq<Plan>, checked: seq<Checked>, files: map<string, Bytes>)
    requires CarryOut(plans, checked) && DistinctChecked(checked)
    ensures DistinctPaths(plans)
    ensures MatchingChecked(files, checked) ==> Matching(files, plans)
  {
    assert forall i :: 0 <= i < |plans| ==> Forget(plans[i]) == checked[i];
  }

  /** Applied means all installed, refused none left, quarantined some left. */
  ghost predicate Reports(outcome: Outcome, plans: seq<Plan>, k: nat, left: nat) {
    match outcome
    case Applied(paths) =>
      left == k == |plans| == |paths| && forall i :: 0 <= i < |plans| ==> paths[i] == plans[i].path
    case Refused(_) => left == 0
    case Quarantined => 0 < left
  }

  /** The identifiers whose preimages a quarantine keeps. */
  ghost function Retained(outcome: Outcome, plans: seq<Plan>, left: nat): set<nat>
    requires left <= |plans|
  {
    if outcome.Quarantined? then set i | 0 <= i < left :: plans[i].id else {}
  }

  ghost function Base(plans: seq<Plan>): nat { if plans == [] then 0 else plans[0].id }

  // ---------------------------------------------------------------- staged files

  class Staged {
    const plan: Plan
    var installed: bool

    constructor (plan: Plan)
      ensures this.plan == plan && !installed
    {
      this.plan := plan;
      installed := false;
    }
  }

  ghost predicate AgreeOff(m: map<nat, Bytes>, m': map<nat, Bytes>, id: nat) {
    forall x :: x != id ==> (x in m <==> x in m') && (x in m ==> m[x] == m'[x])
  }

  ghost predicate Stand(staged: seq<Staged>, plans: seq<Plan>) {
    && |staged| == |plans|
    && (forall i :: 0 <= i < |staged| ==> staged[i].plan == plans[i])
    && (forall i, j :: 0 <= i < j < |staged| ==> staged[i] != staged[j])
  }

  class Workspace {
    var targets: map<string, Bytes>
    var stages: map<nat, Bytes>
    var backups: map<nat, Bytes>
    var nextId: nat
    ghost var stuck: set<nat>

    const others: nat -> Option<map<string, Bytes>>
    const fails: nat -> bool
    /** Turns the others have had, and file operations the program has tried. */
    var turn: nat
    var calls: nat
    /** What the program did in each of those turns, starting from the tree `first`. */
    ghost var history: Turns
    ghost const first: map<string, Bytes>

    ghost predicate Valid()
      reads this
    {
      forall id :: id in stages || id in backups ==> id < nextId
    }

    /** The tree after the others' turn `n`. */
    function Theirs(n: nat, tree: map<string, Bytes>): map<string, Bytes> {
      if others(n).Some? then others(n).value else tree
    }

    /** In a turn with a write the others act between its check and its rename. */
    ghost function TreeAfter(turns: Turns): map<string, Bytes> {
      if turns == [] then first
      else
        var n := |turns| - 1;
        var hit := Theirs(n, TreeAfter(turns[..n]));
        if turns[n].Some? then Put(hit, turns[n].value.path, turns[n].value.after) else hit
    }

    /** Every write was made on a tree in which its check had found the target as it should be. */
    ghost predicate Sound(turns: Turns) {
      turns == [] ||
      (var n := |turns| - 1;
       Sound(turns[..n]) && (turns[n].Some? ==> Lookup(TreeAfter(turns[..n]), turns[n].value.path) == turns[n].value.checked))
    }

    /** The tree is what the turns so far have made of the first one. */
    ghost predicate Anchored()
      reads this
    {
      turn == |history| && targets == TreeAfter(history) && Sound(history)
    }

    /** Nobody else has acted; no operation has failed. */
    ghost predicate Undisturbed()
      reads this
    {
      forall n :: 0 <= n < turn ==> others(n).None?
    }

    ghost predicate Faultless()
      reads this
    {
      forall n :: 0 <= n < calls ==> !fails(n)
    }

    /** The content that the write of turn `n` really replaced. */
    ghost function Replaced(turns: Turns, n: nat): Option<Bytes>
      requires n < |turns| && turns[n].Some?
    {
      Lookup(Theirs(n, TreeAfter(turns[..n])), turns[n].value.path)
    }

    lemma {:induction false} CheckedAt(turns: Turns, n: nat)
      requires Sound(turns) && n < |turns| && turns[n].Some?
      ensures Lookup(TreeAfter(turns[..n]), turns[n].value.path) == turns[n].value.checked
    {
      var m := |turns| - 1;
      if n < m {
        CheckedAt(turns[..m], n);
        assert turns[..m][..n] == turns[..n];
      }
    }

    /**
     Whatever others do and whenever: a write replaces something other than what its
     check found exactly when, on the turn between the two, they change that very path.
     */
    lemma ReplacesWhatWasChecked(turns: Turns, n: nat)
      requires Sound(turns) && n < |turns| && turns[n].Some?
      ensures var w := turns[n].value;
        Replaced(turns, n) != w.checked <==> others(n).Some? && Lookup(others(n).value, w.path) != w.checked
    {
      CheckedAt(turns, n);
    }

    /** A turn passes in which the program makes this write, or none. */
    ghost method Pass(w: Option<Write>)
      requires turn == |history| + 1 && Sound(history)
      requires w.Some? ==> Lookup(TreeAfter(history), w.value.path) == w.value.checked
      requires var hit := Theirs(|history|, TreeAfter(history));
        targets == if w.Some? then Put(hit, w.value.path, w.value.after) else hit
      modifies this`history
      ensures Anchored() && history == old(history) + [w]
      ensures Grew(old(history), history, if w.Some? then [w.value] else [])
    {
      OneMoreTurn(history, w);
      assert (history + [w])[..|history|] == history;
      history := history + [w];
    }

    /** Others may now change any target. */
    method Interfere()
      requires Anchored()
      modifies this`targets, this`turn, this`history
      ensures Anchored() && Grew(old(history), history, []) && turn == old(turn) + 1
      ensures Undisturbed() ==> targets == old(targets)
    {
      targets := Theirs(turn, targets);
      turn := turn + 1;
      Pass(None);
    }

    /** An operation of the file system: it may succeed or fail. */
    method Attempt() returns (ok: bool)
      modifies this`calls
      ensures calls == old(calls) + 1 && (ok <==> !fails(old(calls)))
    {
      ok := !fails(calls);
      calls := calls + 1;
    }

    /** `StagedReplacement::current`: read at most one byte more than either version. */
    method Current(p: Plan) returns (readable: bool, content: Option<Bytes>)
      modifies this`calls
      ensures calls == old(calls) + 1 && (readable <==> !fails(old(calls)))
      ensures readable ==> (content == p.original <==> Lookup(targets, p.path) == p.original)
      ensures readable ==> (content == Some(p.content) <==> Lookup(targets, p.path) == Some(p.content))
    {
      readable := Attempt();
      var most := |p.content|;
      if p.original.Some? && |p.original.value| > most {
        most := |p.original.value|;
      }
      content := None;
      if p.path in targets {
        content := Some(Truncated(targets[p.path], most + 1));
        forall expected: Bytes | |expected| <= most
          ensures content == Some(expected) <==> targets[p.path] == expected
        {
          BoundedReadDecidesEquality(targets[p.path], expected, most);
        }
      }
    }

    /** Create a private file, fill it and flush it; any of that may fail. */
    method CreateStage(id: nat, content: Bytes) returns (ok: bool)
      modifies this`stages, this`calls
      ensures old(calls) <= calls && (Faultless() ==> ok)
      ensures AgreeOff(stages, old(stages), id) && (ok ==> stages == old(stages)[id := content])
    {
      ok := Attempt();
      if ok {
        stages := stages[id := content];
        ok := Attempt();
      }
    }

    method CreateBackup(id: nat, content: Bytes) returns (ok: bool)
      modifies this`backups, this`calls
      ensures old(calls) <= calls && (Faultless() ==> ok)
      ensures AgreeOff(backups, old(backups), id) && (ok ==> backups == old(backups)[id := content])
    {
      ok := Attempt();
      if ok {
        backups := backups[id := content];
        ok := Attempt();
      }
    }

    /** Stage the replacement and the preimage under a fresh identifier. */
    method Prepare(path: string, original: Option<Bytes>, content: Bytes) returns (ok: bool, staged: Staged)
      requires Valid()
      modifies this`stages, this`backups, this`nextId, this`stuck, this`calls
      ensures old(calls) <= calls && (Faultless() ==> ok)
      ensures Valid() && fresh(staged) && nextId == old(nextId) + 1 && !staged.installed
      ensures staged.plan == Plan(path, original, content, old(nextId))
      ensures ok ==> stages == old(stages)[staged.plan.id := content] && stuck == old(stuck)
      ensures ok ==> backups == if original.Some? then old(backups)[staged.plan.id := original.value] else old(backups)
      ensures AgreeOff(stages, old(stages), staged.plan.id) && AgreeOff(backups, old(backups), staged.plan.id)
      ensures !ok && staged.plan.id !in stuck ==> staged.plan.id !in stages && staged.plan.id !in backups
      ensures old(stuck) <= stuck <= old(stuck) + {staged.plan.id}
    {
      var id := nextId;
      nextId := nextId + 1;
      staged := new Staged(Plan(path, original, content, id));
      ok := CreateStage(id, content);
      if ok && original.Some? {
        ok := CreateBackup(id, original.value);
      }
      if !ok {
        Drop(staged);
      }
    }

    /** The others' turn between check and rename, then the rename (or, with nothing to put there, the removal). */
    method Rename(w: Write) returns (moved: bool)
      requires Anchored() && Lookup(targets, w.path) == w.checked
      modifies this`targets, this`turn, this`history, this`calls
      ensures Anchored() && Grew(old(history), history, if moved then [w] else [])
      ensures turn == old(turn) + 1 && calls == old(calls) + 1
      ensures moved <==> !fails(old(calls)) && (w.after.None? ==> w.path in Theirs(old(turn), old(targets)))
      ensures var hit := Theirs(old(turn), old(targets)); targets == if moved then Put(hit, w.path, w.after) else hit
    {
      var hit := Theirs(turn, targets);
      turn := turn + 1;
      moved := Attempt();
      moved := moved && (w.after.None? ==> w.path in hit);
      targets := if moved then Put(hit, w.path, w.after) else hit;
      Pass(if moved then Some(w) else None);
    }

    /** What installing one file promises, with or without its gate. */
    twostate predicate InstallDone(f: Staged, new failure: Option<Failure>)
      reads this, f
    {
      && (failure.None? <==> f.installed) && old(calls) <= calls
      && Anchored() && Grew(old(history), history, if failure.None? then [InstallOf(f.plan)] else [])
      && stages == (if failure.None? then old(stages) - {f.plan.id} else old(stages))
      && (Undisturbed() ==> targets == if failure.None? then old(targets)[f.plan.path := f.plan.content] else old(targets))
      && (Undisturbed() && failure.None? ==> Lookup(old(targets), f.plan.path) == f.plan.original)
      && (Faultless() && Undisturbed() && Lookup(old(targets), f.plan.path) == f.plan.original ==> failure.None?)
    }

    /** Installed exactly when neither call fails and the read finds the preimage, whatever others do in between. */
    method Install(f: Staged) returns (failure: Option<Failure>)
      requires Anchored() && f.plan.id in stages && stages[f.plan.id] == f.plan.content && !f.installed
      modifies this`targets, this`turn, this`history, this`calls, this`stages, f
      ensures InstallDone(f, failure)
      ensures failure != Some(WriteGateClosed)
      ensures failure.None? <==>
        !fails(old(calls)) && Lookup(old(targets), f.plan.path) == f.plan.original && !fails(old(calls) + 1)
      ensures failure.None? ==> targets == Theirs(old(turn), old(targets))[f.plan.path := f.plan.content]
    {
      var p := f.plan;
      var readable, content := Current(p);
      if !readable {
        return Some(Io);
      }
      if content != p.original {
        return Some(Stale);
      }
      var renamed := Rename(Write(p.path, content, Some(stages[p.id])));
      if !renamed {
        return Some(Io);
      }
      stages := stages - {p.id};
      f.installed := true;
      failure := None;
    }

    /** Content that somebody puts there between check and rename is overwritten by the install... */
    method InstallOverTheirs(f: Staged, theirs: map<string, Bytes>) returns (failure: Option<Failure>)
      requires Anchored() && f.plan.id in stages && stages[f.plan.id] == f.plan.content && !f.installed
      requires Lookup(targets, f.plan.path) == f.plan.original && others(turn) == Some(theirs)
      requires !fails(calls) && !fails(calls + 1)
      modifies this`targets, this`turn, this`history, this`calls, this`stages, f
      ensures failure.None? && targets == theirs[f.plan.path := f.plan.content]
    {
      failure := Install(f);
    }

    /** Every file asks for the write gate again before it is installed. */
    method InstallGated(f: Staged) returns (failure: Option<Failure>)
      requires Anchored() && f.plan.id in stages && stages[f.plan.id] == f.plan.content && !f.installed
      modifies this`targets, this`turn, this`history, this`calls, this`stages, f
      ensures InstallDone(f, failure)
      ensures fails(old(calls)) <==> failure == Some(WriteGateClosed)
    {
      ghost var start := history;
      Interfere();
      ghost var middle := history;
      var open := Attempt();
      if !open {
        return Some(WriteGateClosed);
      }
      failure := Install(f);
      if failure.None? {
        GrewTwice(start, middle, history, [], [InstallOf(f.plan)]);
      } else {
        GrewTwice(start, middle, history, [], []);
      }
    }

    method Rollback(f: Staged) returns (ok: bool)
      requires Anchored()
      requires f.installed && f.plan.original.Some? ==>
                 f.plan.id in backups && backups[f.plan.id] == f.plan.original.value
      modifies this`targets, this`turn, this`history, this`calls, this`backups, f
      ensures f.installed <==> !ok
      ensures Anchored() && Grew(old(history), history, if ok && old(f.installed) then [RestoreOf(f.plan)] else [])
      ensures old(calls) <= calls
      ensures !old(f.installed) ==> ok && targets == old(targets)
      ensures backups == if ok && old(f.installed) && f.plan.original.Some? then old(backups) - {f.plan.id} else old(backups)
      ensures Undisturbed() ==>
        targets == if ok && old(f.installed) then Put(old(targets), f.plan.path, f.plan.original) else old(targets)
      // Restored exactly when neither call fails and the read finds the replacement, whatever others do in between.
      ensures old(f.installed) ==>
        (ok <==> !fails(old(calls)) && Lookup(old(targets), f.plan.path) == Some(f.plan.content) && !fails(old(calls) + 1)
                 && (f.plan.original.None? ==> f.plan.path in Theirs(old(turn), old(targets))))
      ensures ok && old(f.installed) ==>
        targets == Put(Theirs(old(turn), old(targets)), f.plan.path, f.plan.original)
    {
      var p := f.plan;
      if f.installed {
        var readable, content := Current(p);
        if !readable || content != Some(p.content) {
          return false;
        }
        ok := Rename(Write(p.path, content, if p.original.Some? then Some(backups[p.id]) else None));
        if !ok {
          return false;
        }
        if p.original.Some? {
          backups := backups - {p.id};
        }
        f.installed := false;
      }
      ok := true;
    }

    /** ...and by the restore that is to leave other people's changes alone. */
    method RestoreOverTheirs(f: Staged, theirs: map<string, Bytes>) returns (ok: bool)
      requires Anchored() && f.installed && f.plan.path in theirs
      requires f.plan.original.Some? ==> f.plan.id in backups && backups[f.plan.id] == f.plan.original.value
      requires Lookup(targets, f.plan.path) == Some(f.plan.content) && others(turn) == Some(theirs)
      requires !fails(calls) && !fails(calls + 1)
      modifies this`targets, this`turn, this`history, this`calls, this`backups, f
      ensures ok && targets == Put(theirs, f.plan.path, f.plan.original)
    {
      ok := Rollback(f);
    }

    /** `Drop`: the staging file always goes, the preimage only when nothing is installed. */
    method Drop(f: Staged)
      modifies this`stages, this`backups, this`stuck, this`calls
      ensures old(calls) <= calls
      ensures old(stuck) <= stuck <= old(stuck) + {f.plan.id}
      ensures stages.Keys <= old(stages).Keys && backups.Keys <= old(backups).Keys
      ensures AgreeOff(stages, old(stages), f.plan.id) && AgreeOff(backups, old(backups), f.plan.id)
      ensures f.plan.id !in stuck ==> f.plan.id !in stages
      ensures f.plan.id !in stuck && !f.installed ==> f.plan.id !in backups
      ensures f.installed ==> backups == old(backups)
    {
      var removed := Attempt();
      if removed {
        stages := stages - {f.plan.id};
      } else {
        stuck := stuck + {f.plan.id};
      }
      if !f.installed {
        removed := Attempt();
        if removed {
          backups := backups - {f.plan.id};
        } else {
          stuck := stuck + {f.plan.id};
        }
      }
    }

    /** The target reads as the proposal expects it. */
    method ReadsAs(e: Entry) returns (same: bool)
      requires Anchored() && e.expected.Some?
      modifies this`targets, this`turn, this`history, this`calls
      ensures Anchored() && Grew(old(history), history, []) && old(calls) <= calls
      ensures Undisturbed() ==> targets == old(targets)
      ensures same ==> e.expected.value == Lookup(targets, e.landed)
      ensures Faultless() && !same ==> e.expected.value != Lookup(targets, e.landed)
    {
      Interfere();
      var readable := Attempt();
      var actual := if readable then Lookup(targets, e.landed) else None;
      same := actual == e.expected.value && (e.expected.value.None? ==> e.landed !in targets);
    }

    /** The next entry passes exactly when it is acceptable beside the earlier ones and its target is as expected. */
    method CheckNext(entries: seq<Entry>, n: nat, fold: string -> string, seen: set<string>)
      returns (ok: bool)
      requires Anchored() && n < |entries| && seen == Names(entries, n, fold)
      modifies this`targets, this`turn, this`history, this`calls
      ensures Anchored() && Grew(old(history), history, []) && old(calls) <= calls
      ensures Undisturbed() ==> targets == old(targets)
      ensures ok ==>
        var e := entries[n];
        && e.admitted && fold(e.landed) !in seen && |e.content| <= MAX_WRITE_BYTES && e.expected.Some?
        && e.expected.value == Lookup(targets, e.landed)
      ensures Faultless() && !ok ==> !(AcceptableEntries(entries, |entries|, fold) && MatchingEntries(targets, entries))
    {
      var e := entries[n];
      if !e.admitted || fold(e.landed) in seen || |e.content| > MAX_WRITE_BYTES || e.expected.None? {
        UnacceptableEntry(entries, n, fold);
        return false;
      }
      ok := ReadsAs(e);
      StaleEntry(targets, entries, n);
    }

    /** One round of the validation loop. */
    method ValidateNext(entries: seq<Entry>, n: nat, fold: string -> string, seen: set<string>, checked: seq<Checked>, total: nat)
      returns (ok: bool, seen': set<string>, checked': seq<Checked>, total': nat)
      requires Anchored() && n < |entries| && Passed(entries, n, fold, seen, checked, total)
      modifies this`targets, this`turn, this`history, this`calls
      ensures Anchored() && Grew(old(history), history, []) && old(calls) <= calls
      ensures Undisturbed() ==> targets == old(targets)
      ensures ok ==> Passed(entries, n + 1, fold, seen', checked', total')
      ensures ok && MatchingChecked(targets, checked) ==> MatchingChecked(targets, checked')
      ensures Faultless() && !ok ==> !(AcceptableEntries(entries, |entries|, fold) && MatchingEntries(targets, entries))
    {
      seen', checked', total' := seen, checked, total;
      ok := CheckNext(entries, n, fold, seen);
      if ok {
        var e := entries[n];
        var c := Checked(e.landed, e.expected.value, e.content);
        PassOne(entries, n, fold, seen, checked, total);
        if MatchingChecked(targets, checked) {
          NoteOne(targets, checked, c);
        }
        seen', checked', total' := seen + {fold(e.landed)}, checked + [c], total + |e.content|;
      }
    }

    /** Check every entry before anything is written. */
    method Validate(entries: seq<Entry>, fold: string -> string, budget: nat) returns (ok: bool, checked: seq<Checked>)
      requires Anchored()
      modifies this`targets, this`turn, this`history, this`calls
      ensures Anchored() && Grew(old(history), history, []) && old(calls) <= calls
      ensures ok ==> |checked| == |entries| && Admits(checked, entries) && Acceptable(entries, fold, budget)
      ensures Undisturbed() ==> targets == old(targets)
      ensures Undisturbed() && ok ==> MatchingChecked(targets, checked)
      ensures Faultless() && Undisturbed() && !ok ==> !(Acceptable(entries, fold, budget) && MatchingEntries(targets, entries))
    {
      checked := [];
      var seen: set<string> := {};
      var total: nat := 0;
      for n := 0 to |entries|
        invariant Passed(entries, n, fold, seen, checked, total)
        invariant Anchored() && Grew(old(history), history, []) && old(calls) <= calls
        invariant Undisturbed() ==> targets == old(targets) && MatchingChecked(targets, checked)
      {
        ghost var before := history;
        ok, seen, checked, total := ValidateNext(entries, n, fold, seen, checked, total);
        GrewTwice(old(history), before, history, [], []);
        if !ok {
          return;
        }
      }
      assert total == ProposedBytes(entries);
      ok := total <= budget;
    }

    /** The first `n` checked entries are staged, under identifiers from `base` on, and nothing else is new. */
    ghost predicate Staging(checked: seq<Checked>, staged: seq<Staged>, plans: seq<Plan>, n: nat, base: nat,
                            stages0: set<nat>, backups0: set<nat>)
      reads this, staged
    {
      && |plans| == n && Stand(staged, plans) && CarryOut(plans, checked)
      && Numbered(plans, base) && Prepared(plans) && Private(stages0, backups0, base, n)
      && forall i :: 0 <= i < |staged| ==> !staged[i].installed
    }

    /** Stage one more; a failed attempt leaves the earlier ones as they are. */
    method StageNext(checked: seq<Checked>, staged: seq<Staged>, ghost plans: seq<Plan>, n: nat, ghost base: nat,
                     ghost stages0: set<nat>, ghost backups0: set<nat>)
      returns (ok: bool, f: Staged)
      requires Valid() && Anchored() && n < |checked| && nextId == base + n
      requires Staging(checked, staged, plans, n, base, stages0, backups0)
      modifies this`targets, this`turn, this`history, this`calls, this`stages, this`backups, this`nextId, this`stuck
      ensures Valid() && Anchored() && Grew(old(history), history, []) && old(calls) <= calls
      ensures fresh(f) && nextId == base + n + 1 && old(stuck) <= stuck
      ensures (Faultless() ==> ok) && (Undisturbed() ==> targets == old(targets))
      ensures ok ==> Staging(checked, staged + [f], plans + [f.plan], n + 1, base, stages0, backups0)
      ensures !ok ==> Staging(checked, staged, plans, n, base, stages0, backups0)
    {
      Interfere();
      ok, f := Prepare(checked[n].path, checked[n].original, checked[n].content);
    }

    /** Stage the checked entries, stopping at the first failure. */
    method StageAll(checked: seq<Checked>) returns (ok: bool, staged: seq<Staged>, ghost plans: seq<Plan>)
      requires Valid() && Anchored()
      modifies this`targets, this`turn, this`history, this`calls, this`stages, this`backups, this`nextId, this`stuck
      ensures Valid() && Anchored() && Grew(old(history), history, []) && old(calls) <= calls
      ensures Staging(checked, staged, plans, |plans|, old(nextId), old(stages).Keys, old(backups).Keys)
      ensures forall i :: 0 <= i < |staged| ==> fresh(staged[i])
      ensures (ok ==> |plans| == |checked|) && (Faultless() ==> ok) && old(stuck) <= stuck
      ensures Undisturbed() ==> targets == old(targets)
    {
      staged, plans := [], [];
      for n := 0 to |checked|
        invariant Valid() && Anchored() && Grew(old(history), history, []) && old(calls) <= calls
        invariant Staging(checked, staged, plans, n, old(nextId), old(stages).Keys, old(backups).Keys)
        invariant nextId == old(nextId) + n && old(stuck) <= stuck
        invariant forall i :: 0 <= i < |staged| ==> fresh(staged[i])
        invariant Undisturbed() ==> targets == old(targets)
      {
        ghost var before := history;
        var f;
        ok, f := StageNext(checked, staged, plans, n, old(nextId), old(stages).Keys, old(backups).Keys);
        GrewTwice(old(history), before, history, [], []);
        if !ok {
          return;
        }
        staged, plans := staged + [f], plans + [f.plan];
      }
      ok := true;
    }

    /** The first `n` files are installed, as `made` says, and the rest still staged. */
    ghost predicate Installing(staged: seq<Staged>, plans: seq<Plan>, n: nat, made: seq<Write>,
                               files: map<string, Bytes>, start: Turns)
      reads this, staged
    {
      && Stand(staged, plans) && Installs(made, plans, n) && StagedFrom(stages, plans, n)
      && Anchored() && Grew(start, history, made)
      && (forall i :: 0 <= i < |staged| ==> (staged[i].installed <==> i < n))
      && (Undisturbed() ==> targets == Overlay(files, plans, n))
    }

    method InstallNext(staged: seq<Staged>, ghost plans: seq<Plan>, n: nat, ghost made: seq<Write>,
                       ghost files: map<string, Bytes>, ghost start: Turns)
      returns (failure: Option<Failure>)
      requires Installing(staged, plans, n, made, files, start) && n < |plans| && Numbered(plans, Base(plans))
      modifies this`targets, this`turn, this`history, this`calls, this`stages, staged[n]
      ensures failure.None? ==> Installing(staged, plans, n + 1, made + [InstallOf(plans[n])], files, start)
      ensures failure.Some? ==> Installing(staged, plans, n, made, files, start)
      ensures stages.Keys <= old(stages).Keys && old(calls) <= calls
      ensures Faultless() && Undisturbed() && DistinctPaths(plans) && Matching(files, plans) ==> failure.None?
    {
      ghost var before := history;
      NextIsUntouched(files, plans, n);
      OneStageLess(stages, plans, n);
      failure := InstallGated(staged[n]);
      if failure.Some? {
        GrewTwice(start, before, history, made, []);
        return;
      }
      GrewTwice(start, before, history, made, [InstallOf(plans[n])]);
      OneMoreInstall(made, plans, n);
    }

    /** Install in order; stop at the first file that is stale, refused or not movable. */
    method InstallAll(staged: seq<Staged>, ghost plans: seq<Plan>)
      returns (failure: Option<Failure>, ghost k: nat, ghost made: seq<Write>)
      requires Anchored() && Stand(staged, plans) && Numbered(plans, Base(plans)) && Prepared(plans)
      requires forall i :: 0 <= i < |staged| ==> !staged[i].installed
      modifies this`targets, this`turn, this`history, this`calls, this`stages, staged
      ensures k <= |plans| && (failure.None? <==> k == |plans|) && old(calls) <= calls
      ensures Installing(staged, plans, k, made, old(targets), old(history)) && stages.Keys <= old(stages).Keys
      ensures Faultless() && Undisturbed() && DistinctPaths(plans) && Matching(old(targets), plans) ==> failure.None?
    {
      k, made := 0, [];
      for n := 0 to |staged|
        invariant k == n && Installing(staged, plans, n, made, old(targets), old(history))
        invariant stages.Keys <= old(stages).Keys && old(calls) <= calls
      {
        failure := InstallNext(staged, plans, n, made, old(targets), old(history));
        if failure.Some? {
          return;
        }
        made := made + [InstallOf(plans[n])];
        k := k + 1;
      }
      failure := None;
    }

    /** One turn of the rollback loop, with others at work before it too. */
    method RollbackNext(f: Staged) returns (ok: bool)
      requires Anchored()
      requires f.installed && f.plan.original.Some? ==>
                 f.plan.id in backups && backups[f.plan.id] == f.plan.original.value
      modifies this`targets, this`turn, this`history, this`calls, this`backups, f
      ensures (f.installed <==> !ok) && (!old(f.installed) ==> ok) && old(calls) <= calls
      ensures Anchored() && Grew(old(history), history, if ok && old(f.installed) then [RestoreOf(f.plan)] else [])
      ensures backups == if ok && old(f.installed) && f.plan.original.Some? then old(backups) - {f.plan.id} else old(backups)
      ensures Undisturbed() ==>
        targets == if ok && old(f.installed) then Put(old(targets), f.plan.path, f.plan.original) else old(targets)
    {
      ghost var start, was := history, f.installed;
      Interfere();
      ghost var middle := history;
      ok := Rollback(f);
      if ok && was {
        GrewTwice(start, middle, history, [], [RestoreOf(f.plan)]);
      } else {
        GrewTwice(start, middle, history, [], []);
      }
    }

    /** Of `k` installed files `left` are still in place, as `undone` says, each with its preimage on disk. */
    ghost predicate Restoring(staged: seq<Staged>, plans: seq<Plan>, left: nat, k: nat, undone: seq<Write>,
                              files: map<string, Bytes>, calm: bool, start: Turns)
      reads this, staged
    {
      && Stand(staged, plans) && Restores(undone, plans, left, k) && BackedUp(plans, left)
      && Anchored() && Grew(start, history, undone)
      && (forall i :: 0 <= i < |staged| ==> (staged[i].installed <==> i < left))
      && (calm && Undisturbed() ==> targets == Overlay(files, plans, left))
    }

    /** A file that was never installed stays as it is; one that was is restored, or stays in place. */
    method RestoreNext(staged: seq<Staged>, ghost plans: seq<Plan>, ghost left: nat, ghost k: nat, n: nat,
                       ghost undone: seq<Write>, ghost files: map<string, Bytes>, ghost calm: bool, ghost start: Turns)
      returns (ok: bool, ghost left': nat, ghost undone': seq<Write>)
      requires Restoring(staged, plans, left, k, undone, files, calm, start) && n < |plans| && Numbered(plans, Base(plans))
      requires left == if n + 1 < k then n + 1 else k
      requires calm ==> DistinctPaths(plans) && Matching(files, plans)
      modifies this`targets, this`turn, this`history, this`calls, this`backups, staged[n]
      ensures Restoring(staged, plans, left', k, undone', files, calm, start)
      ensures left' == if ok && n < k then n else left
      ensures backups.Keys <= old(backups).Keys && old(calls) <= calls && (n >= k ==> ok)
    {
      ghost var before := history;
      if n < k {
        OneBackupLess(backups, plans, n);
      }
      ok := RollbackNext(staged[n]);
      left', undone' := left, undone;
      if !ok || n >= k {
        GrewTwice(start, before, history, undone, []);
      } else {
        GrewTwice(start, before, history, undone, [RestoreOf(plans[n])]);
        OneMoreRestore(undone, plans, left, k);
        left', undone' := n, undone + [RestoreOf(plans[n])];
        if calm {
          UndoLast(files, plans, n);
        }
      }
    }

    /** Restore in reverse; the first file that cannot be restored ends the attempt. */
    method RollbackAll(staged: seq<Staged>, ghost plans: seq<Plan>, ghost k: nat,
                       ghost files: map<string, Bytes>, ghost calm: bool)
      returns (ok: bool, ghost left: nat, ghost undone: seq<Write>)
      requires Anchored() && Stand(staged, plans) && Numbered(plans, Base(plans)) && k <= |plans|
      requires forall i :: 0 <= i < |staged| ==> (staged[i].installed <==> i < k)
      requires BackedUp(plans, k)
      requires calm ==> DistinctPaths(plans) && Matching(files, plans) && targets == Overlay(files, plans, k)
      modifies this`targets, this`turn, this`history, this`calls, this`backups, staged
      ensures Restoring(staged, plans, left, k, undone, files, calm, old(history)) && (ok <==> left == 0)
      ensures backups.Keys <= old(backups).Keys && old(calls) <= calls
    {
      left, undone := k, [];
      for n := |staged| downto 0
        invariant left == if n < k then n else k
        invariant Restoring(staged, plans, left, k, undone, files, calm, old(history))
        invariant backups.Keys <= old(backups).Keys && old(calls) <= calls
      {
        ok, left, undone := RestoreNext(staged, plans, left, k, n, undone, files, calm, old(history));
        if !ok {
          return;
        }
      }
      ok := true;
    }

    /** Drop every staged file when the call ends. */
    method DropAll(staged: seq<Staged>, ghost plans: seq<Plan>, ghost base: nat)
      requires Stand(staged, plans) && Numbered(plans, base)
      modifies this`stages, this`backups, this`stuck, this`calls
      ensures old(stuck) <= stuck && old(calls) <= calls
      ensures stages.Keys <= old(stages).Keys && backups.Keys <= old(backups).Keys
      ensures forall id :: id in stages && base <= id < base + |plans| ==> id in stuck
      ensures forall id :: id in backups && base <= id < base + |plans| ==> id in stuck || staged[id - base].installed
      ensures forall i :: 0 <= i < |plans| && staged[i].installed && plans[i].id in old(backups) ==>
                plans[i].id in backups && backups[plans[i].id] == old(backups)[plans[i].id]
    {
      for n := 0 to |staged|
        invariant old(stuck) <= stuck && old(calls) <= calls
        invariant stages.Keys <= old(stages).Keys && backups.Keys <= old(backups).Keys
        invariant forall id :: id in stages && base <= id < base + n ==> id in stuck
        invariant forall id :: id in backups && base <= id < base + n ==> id in stuck || staged[id - base].installed
        invariant forall i :: 0 <= i < |plans| && (n <= i || staged[i].installed) && plans[i].id in old(backups) ==>
                    plans[i].id in backups && backups[plans[i].id] == old(backups)[plans[i].id]
      {
        Drop(staged[n]);
      }
    }

    /** Install everything, or restore what was installed. */
    method Commit(staged: seq<Staged>, ghost plans: seq<Plan>, ghost calm: bool)
      returns (outcome: Outcome, ghost k: nat, ghost left: nat, ghost made: seq<Write>, ghost undone: seq<Write>)
      requires Anchored() && Stand(staged, plans) && Numbered(plans, Base(plans)) && Prepared(plans)
      requires forall i :: 0 <= i < |staged| ==> !staged[i].installed
      requires calm ==> DistinctPaths(plans) && Matching(targets, plans)
      modifies this`targets, this`turn, this`history, this`calls, this`stages, this`backups, staged
      ensures left <= k <= |plans|
      ensures Anchored() && Grew(old(history), history, made + undone)
      ensures Installs(made, plans, k) && Restores(undone, plans, left, k)
      ensures Reports(outcome, plans, k, left) && (outcome.Quarantined? ==> BackedUp(plans, left))
      ensures forall i :: 0 <= i < |staged| ==> (staged[i].installed <==> outcome.Quarantined? && i < left)
      ensures stages.Keys <= old(stages).Keys && backups.Keys <= old(backups).Keys
      ensures Undisturbed() && outcome.Applied? ==> targets == Overlay(old(targets), plans, |plans|)
      ensures Undisturbed() && calm && outcome.Refused? ==> targets == old(targets)
      ensures old(calls) <= calls
      ensures Faultless() && Undisturbed() && calm ==> outcome.Applied?
    {
      ghost var files, start := targets, history;
      var failure;
      failure, k, made := InstallAll(staged, plans);
      if failure.Some? {
        outcome, left, undone := TakeBack(staged, plans, k, made, files, calm && Undisturbed(), start, failure.value);
        return;
      }
      left, undone := k, [];
      assert made + undone == made;
      SettleAll(staged);
      outcome := Applied(seq(|staged|, i requires 0 <= i < |staged| => staged[i].plan.path));
    }

    /** The error path of the commit. */
    method TakeBack(staged: seq<Staged>, ghost plans: seq<Plan>, ghost k: nat, ghost made: seq<Write>,
                    ghost files: map<string, Bytes>, ghost calm: bool, ghost start: Turns, failure: Failure)
      returns (outcome: Outcome, ghost left: nat, ghost undone: seq<Write>)
      requires Installing(staged, plans, k, made, files, start) && Numbered(plans, Base(plans)) && BackedUp(plans, k)
      requires calm ==> DistinctPaths(plans) && Matching(files, plans) && Undisturbed()
      modifies this`targets, this`turn, this`history, this`calls, this`backups, staged
      ensures Anchored() && Grew(start, history, made + undone) && Restores(undone, plans, left, k)
      ensures outcome == (if left == 0 then Refused(failure) else Quarantined) && BackedUp(plans, left)
      ensures forall i :: 0 <= i < |staged| ==> (staged[i].installed <==> i < left)
      ensures backups.Keys <= old(backups).Keys && old(calls) <= calls && old(history) <= history
      ensures calm && Undisturbed() ==> targets == Overlay(files, plans, left)
    {
      ghost var middle := history;
      var restored;
      restored, left, undone := RollbackAll(staged, plans, k, files, calm);
      GrewTwice(start, middle, history, made, undone);
      outcome := if restored then Refused(failure) else Quarantined;
    }

    method CommitAndClean(staged: seq<Staged>, ghost plans: seq<Plan>, ghost calm: bool, ghost base: nat)
      returns (outcome: Outcome, ghost k: nat, ghost left: nat, ghost made: seq<Write>, ghost undone: seq<Write>)
      requires Valid() && Anchored() && Stand(staged, plans) && Numbered(plans, base) && Prepared(plans)
      requires forall i :: 0 <= i < |staged| ==> !staged[i].installed
      requires calm ==> DistinctPaths(plans) && Matching(targets, plans)
      modifies this`targets, this`turn, this`history, this`calls, this`stages, this`backups, this`stuck, staged
      ensures Valid() && left <= k <= |plans|
      ensures Anchored() && Grew(old(history), history, made + undone)
      ensures Installs(made, plans, k) && Restores(undone, plans, left, k)
      ensures Reports(outcome, plans, k, left) && (outcome.Quarantined? ==> BackedUp(plans, left))
      ensures old(stuck) <= stuck
      ensures forall id :: id in stages ==> id in old(stages) && (base <= id < base + |plans| ==> id in stuck)
      ensures forall id :: id in backups ==>
                id in old(backups) && (base <= id < base + |plans| ==> id in stuck || id in Retained(outcome, plans, left))
      ensures Undisturbed() && outcome.Applied? ==> targets == Overlay(old(targets), plans, |plans|)
      ensures Undisturbed() && calm && outcome.Refused? ==> targets == old(targets)
      ensures old(calls) <= calls
      ensures Faultless() && Undisturbed() && calm ==> outcome.Applied?
    {
      outcome, k, left, made, undone := Commit(staged, plans, calm);
      DropAll(staged, plans, base);
      forall id | id in backups && base <= id < base + |plans| && id !in stuck
        ensures id in Retained(outcome, plans, left)
      {
        assert plans[id - base].id == id;
      }
    }

    method StageOrClean(checked: seq<Checked>) returns (ok: bool, staged: seq<Staged>, ghost plans: seq<Plan>)
      requires Valid() && Anchored()
      modifies this`targets, this`turn, this`history, this`calls, this`stages, this`backups, this`nextId, this`stuck
      ensures Anchored() && Grew(old(history), history, [])
      ensures Valid() && CarryOut(plans, checked) && old(stuck) <= stuck
      ensures old(calls) <= calls && (Faultless() ==> ok)
      ensures Undisturbed() ==> targets == old(targets)
      ensures ok ==> Stand(staged, plans) && |plans| == |checked| && Numbered(plans, old(nextId)) && Prepared(plans)
      ensures ok ==> forall i :: 0 <= i < |staged| ==> fresh(staged[i]) && !staged[i].installed
      ensures Private(old(stages).Keys, old(backups).Keys, old(nextId), if ok then |plans| else 0)
    {
      ghost var base := nextId;
      ok, staged, plans := StageAll(checked);
      if !ok {
        DropAll(staged, plans, base);
      }
    }

    /** Stage, commit and clean up. */
    method Carry(checked: seq<Checked>)
      returns (outcome: Outcome, ghost plans: seq<Plan>, ghost k: nat, ghost left: nat,
               ghost made: seq<Write>, ghost undone: seq<Write>)
      requires Valid() && Anchored() && DistinctChecked(checked)
      modifies this
      ensures Valid() && CarryOut(plans, checked) && left <= k <= |plans|
      ensures Anchored() && Grew(old(history), history, made + undone)
      ensures Installs(made, plans, k) && Restores(undone, plans, left, k)
      ensures Reports(outcome, plans, k, left) && (outcome.Quarantined? ==> BackedUp(plans, left))
      ensures outcome.Applied? ==> |plans| == |checked|
      ensures Private(old(stages).Keys, old(backups).Keys + Retained(outcome, plans, left), 0, 0)
      ensures Undisturbed() && outcome.Applied? ==> targets == Overlay(old(targets), plans, |plans|)
      ensures Undisturbed() && MatchingChecked(old(targets), checked) && outcome.Refused? ==> targets == old(targets)
      ensures old(calls) <= calls
      ensures Faultless() && Undisturbed() && MatchingChecked(old(targets), checked) ==> outcome.Applied?
    {
      k, left, made, undone := 0, 0, [], [];
      ghost var base, calm := nextId, MatchingChecked(targets, checked);
      var prepared, staged;
      ghost var start := history;
      prepared, staged, plans := StageOrClean(checked);
      ghost var middle := history;
      if !prepared {
        return Refused(Io), plans, k, left, made, undone;
      }
      CalmPlans(plans, checked, targets);
      outcome, k, left, made, undone := CommitAndClean(staged, plans, calm && Undisturbed(), base);
      GrewTwice(start, middle, history, [], made + undone);
    }

    /**
     `apply_proposal`.  `k` files were installed and `left` of them are still in
     place when the call returns.
     */
    method Apply(entries: seq<Entry>, fold: string -> string, budget: nat)
      returns (outcome: Outcome, ghost plans: seq<Plan>, ghost k: nat, ghost left: nat,
               ghost made: seq<Write>, ghost undone: seq<Write>)
      requires Valid() && Anchored()
      modifies this
      ensures Valid() && DistinctPaths(plans) && Realizes(plans, entries)
      ensures left <= k <= |plans|
      // The tree is what the others' turns and exactly these writes have made of the old one, each write after
      // a check that found its target as it should be.
      ensures Anchored() && Grew(old(history), history, made + undone)
      ensures Installs(made, plans, k) && Restores(undone, plans, left, k)
      ensures OnlyPlannedSince(old(history), history, plans, k)
      // A quarantined change can be recovered: the exact preimage is still on disk.
      ensures Reports(outcome, plans, k, left) && (outcome.Quarantined? ==> BackedUp(plans, left))
      ensures outcome.Applied? ==> |plans| == |entries|
      ensures Private(old(stages).Keys, old(backups).Keys + Retained(outcome, plans, left), 0, 0)
      // With nobody else writing, a refusal changes no target and a success changes exactly the proposal's.
      ensures Undisturbed() && outcome.Applied? ==> targets == Overlay(old(targets), plans, |plans|)
      ensures Undisturbed() && outcome.Refused? ==> targets == old(targets)
      // Only an acceptable proposal is applied, whose contents together stay within the budget; without failures or interference every one is, unless it is stale.
      ensures outcome.Applied? ==> Acceptable(entries, fold, budget) && |Flat(AllContents(entries))| <= budget
      ensures outcome.Applied? ==> forall i :: 0 <= i < |entries| ==> entries[i].admitted && |entries[i].content| <= 256_000
      // With the write gate closed nothing is even looked at.
      ensures fails(old(calls)) ==> outcome == Refused(WriteGateClosed) && history == old(history) && targets == old(targets)
      ensures old(calls) <= calls
      ensures Faultless() && Undisturbed() ==>
        && (outcome.Applied? || outcome == Refused(Denied))
        && (outcome.Applied? <==>
              && AcceptableEntries(entries, |entries|, fold) && |Flat(AllContents(entries))| <= budget
              && MatchingEntries(old(targets), entries))
    {
      plans, k, left, made, undone := [], 0, 0, [], [];
      ghost var start := history;
      var open := Attempt();
      if !open {
        return Refused(WriteGateClosed), plans, k, left, made, undone;
      }
      var valid, checked := Validate(entries, fold, budget);
      ghost var middle := history;
      if !valid {
        PlannedSince(start, history, made, undone, plans, left, k);
        return Refused(Denied), plans, k, left, made, undone;
      }
      PathsDiffer(checked, entries, fold);
      outcome, plans, k, left, made, undone := Carry(checked);
      Translate(plans, checked, entries);
      GrewTwice(start, middle, history, [], made + undone);
      PlannedSince(start, history, made, undone, plans, left, k);
    }

    /** A complete batch no longer needs its preimages. */
    method SettleAll(staged: seq<Staged>)
      modifies staged
      ensures forall i :: 0 <= i < |staged| ==> !staged[i].installed
    {
      for n := 0 to |staged|
        invariant forall i :: 0 <= i < n ==> !staged[i].installed
      {
        staged[n].installed := false;
      }
    }

    /** The first `k` plans still have their exact preimage on disk. */
    ghost predicate BackedUp(plans: seq<Plan>, k: nat)
      requires k <= |plans|
      reads this
    {
      Preserved(backups, plans, k)
    }

    /** Every planned file is staged with its content and backed up with its preimage. */
    ghost predicate Prepared(plans: seq<Plan>)
      reads this
    {
      forall i :: 0 <= i < |plans| ==>
        && plans[i].id in stages && stages[plans[i].id] == plans[i].content
        && (plans[i].original.Some? ==> plans[i].id in backups && backups[plans[i].id] == plans[i].original.value)
    }

    /** No private file beyond those that were there, those in use, and those that could not be removed. */
    ghost predicate Private(stages0: set<nat>, backups0: set<nat>, base: nat, count: nat)
      reads this
    {
      && (forall id :: id in stages ==> id in stages0 || id in stuck || base <= id < base + count)
      && (forall id :: id in backups ==> id in backups0 || id in stuck || base <= id < base + count)
    }
  }
}
