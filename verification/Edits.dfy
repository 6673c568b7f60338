/**
 Exact edits: a proposal may change a file only by replacing text that it quotes,
 that it was shown, and that occurs once.  Canonical paths, the folding of names a
 file system may identify, and the content hash are parameters.
 */
module Edits {

  import opened Basics
  import opened ReadBudget

  datatype Edit = Edit(path: string, hash: string, quoted: string, put: string)

  datatype Outcome = Refused | Accepted(files: map<string, string>, originals: map<string, Option<string>>)

  // ---------------------------------------------------------------- occurrences

  /** `str::find`. */
  function Find(text: string, part: string, from: nat): (found: Option<nat>)
    requires from <= |text|
    ensures found.Some? ==> from <= found.value && SliceAt(part, text, found.value)
    ensures forall i :: from <= i < (if found.Some? then found.value else |text| + 1) ==> !SliceAt(part, text, i)
    decreases |text| - from
  {
    if SliceAt(part, text, from) then Some(from)
    else if from == |text| then None
    else Find(text, part, from + 1)
  }

  /** `str::rfind`, looking down from `upto`. */
  function RFind(text: string, part: string, upto: nat): (found: Option<nat>)
    requires upto <= |text|
    ensures found.Some? ==> found.value <= upto && SliceAt(part, text, found.value)
    ensures forall i :: (if found.Some? then found.value + 1 else 0) <= i <= upto ==> !SliceAt(part, text, i)
  {
    if SliceAt(part, text, upto) then Some(upto)
    else if upto == 0 then None
    else RFind(text, part, upto - 1)
  }

  /** `part` occurs in `text` at `i` and nowhere else, overlapping occurrences included. */
  ghost predicate OnlyAt(text: string, part: string, i: nat) {
    SliceAt(part, text, i) && forall j: nat :: SliceAt(part, text, j) ==> j == i
  }

  ghost predicate OccursOnce(text: string, part: string) {
    exists i: nat :: OnlyAt(text, part, i)
  }

  lemma FirstIsLastMeansOnce(text: string, part: string)
    requires Find(text, part, 0).Some?
    ensures Find(text, part, 0) == RFind(text, part, |text|) <==> OccursOnce(text, part)
    ensures forall i: nat :: OnlyAt(text, part, i) ==> Find(text, part, 0) == Some(i)
  {
    var first, last := Find(text, part, 0).value, RFind(text, part, |text|);
    assert last.Some?;
    if first == last.value {
      assert OnlyAt(text, part, first);
    }
  }

  /** What is found in an excerpt is found in the text, at the matching place. */
  lemma FoundInExcerpt(text: string, visible: string, at: nat, part: string, i: nat)
    requires SliceAt(visible, text, at) && SliceAt(part, visible, i)
    ensures SliceAt(part, text, at + i)
  {
    forall k | 0 <= k < |part| ensures text[at + i + k] == part[k] {
      assert visible[i..i + |part|][k] == text[at..at + |visible|][i + k];
    }
  }

  // ---------------------------------------------------------------- one replacement

  /** The same beginning, the new text, the same end. */
  function Spliced(text: string, i: nat, length: nat, put: string): string
    requires i + length <= |text|
  {
    text[..i] + put + text[i + length..]
  }

  /** `replacen(_, _, 1)`. */
  function ReplaceFirst(text: string, quoted: string, put: string): string {
    var found := Find(text, quoted, 0);
    if found.None? then text else Spliced(text, found.value, |quoted|, put)
  }

  /** `result` is `text` with its one occurrence of `quoted` replaced, and nothing outside `visible` touched. */
  ghost predicate ExactEdit(text: string, visible: string, quoted: string, put: string, result: string) {
    exists at: nat, i: nat :: ExactEditAt(text, visible, quoted, put, result, at, i)
  }

  /** The excerpt was taken at `at`, and the quoted text stands at `i`, inside it. */
  ghost predicate ExactEditAt(text: string, visible: string, quoted: string, put: string, result: string, at: nat, i: nat) {
    && SliceAt(visible, text, at) && OnlyAt(text, quoted, i)
    && at <= i && i + |quoted| <= at + |visible|
    && result == Spliced(text, i, |quoted|, put)
    && result == text[..at] + Spliced(visible, i - at, |quoted|, put) + text[at + |visible|..]
  }

  /** One occurrence in the text, seen in the excerpt: the replacement stays within the excerpt. */
  lemma ReplacementIsExact(text: string, visible: string, quoted: string, put: string)
    requires Slice(visible, text) && OccursOnce(text, quoted)
    requires Find(visible, quoted, 0).Some?
    ensures ExactEdit(text, visible, quoted, put, ReplaceFirst(text, quoted, put))
  {
    var at: nat :| SliceAt(visible, text, at);
    var inside := Find(visible, quoted, 0).value;
    FoundInExcerpt(text, visible, at, quoted, inside);
    var i: nat :| OnlyAt(text, quoted, i);
    assert i == at + inside;
    assert ReplaceFirst(text, quoted, put) == Spliced(text, i, |quoted|, put) by {
      FirstIsLastMeansOnce(text, quoted);
    }
    SplicedInside(text, visible, at, inside, |quoted|, put);
    assert ExactEditAt(text, visible, quoted, put, ReplaceFirst(text, quoted, put), at, i);
  }

  lemma SplicedInside(text: string, visible: string, at: nat, i: nat, length: nat, put: string)
    requires SliceAt(visible, text, at) && i + length <= |visible|
    ensures Spliced(text, at + i, length, put) == text[..at] + Spliced(visible, i, length, put) + text[at + |visible|..]
  {
    assert text[..at + i] == text[..at] + visible[..i];
    assert text[at + i + length..] == visible[i + length..] + text[at + |visible|..];
  }

  /** An edit is undone by its reverse, whenever that is unambiguous in turn. */
  lemma EditsUndo(text: string, quoted: string, put: string)
    requires OccursOnce(text, quoted) && OccursOnce(ReplaceFirst(text, quoted, put), put)
    ensures ReplaceFirst(ReplaceFirst(text, quoted, put), put, quoted) == text
  {
    var i: nat :| OnlyAt(text, quoted, i);
    var result := ReplaceFirst(text, quoted, put);
    assert result == Spliced(text, i, |quoted|, put) by {
      FirstIsLastMeansOnce(text, quoted);
    }
    SpliceBack(text, i, quoted, put);
    var k: nat :| OnlyAt(result, put, k);
    assert Find(result, put, 0) == Some(i) by {
      FirstIsLastMeansOnce(result, put);
    }
  }

  lemma SpliceBack(text: string, i: nat, quoted: string, put: string)
    requires SliceAt(quoted, text, i)
    ensures SliceAt(put, Spliced(text, i, |quoted|, put), i)
    ensures Spliced(Spliced(text, i, |quoted|, put), i, |put|, quoted) == text
  {
    var result := Spliced(text, i, |quoted|, put);
    assert text[..i] == result[..i];
    assert result[i + |put|..] == text[i + |quoted|..];
  }

  // ---------------------------------------------------------------- a proposal

  /** What was selected for the planner: excerpts of the files they were read from. */
  ghost predicate Shown(context: map<string, Snapshot>) {
    forall p :: p in context ==>
      Slice(context[p].visible, context[p].original) && (context[p].complete <==> context[p].visible == context[p].original)
  }

  lemma CollectedIsShown(snapshots: map<string, Snapshot>, order: seq<string>, files: map<string, string>, most: nat)
    requires Bounded(snapshots, order, files, most)
    ensures Shown(snapshots)
  {
  }

  /** An edit the context allows. */
  ghost predicate Allowed(context: map<string, Snapshot>, canonical: string -> Option<string>, hash: string -> string, e: Edit) {
    && canonical(e.path).Some? && canonical(e.path).value in context
    && var s := context[canonical(e.path).value];
       && e.hash == hash(s.original)
       && e.quoted != "" && (exists i: nat :: SliceAt(e.quoted, s.visible, i))
       && OccursOnce(s.original, e.quoted)
  }

  /** No two of the first `n` edits go to paths that a file system may take for the same. */
  ghost predicate Apart(edits: seq<Edit>, n: nat, canonical: string -> Option<string>, fold: string -> string)
    requires n <= |edits|
  {
    forall i, j :: 0 <= i < j < n && canonical(edits[i].path).Some? && canonical(edits[j].path).Some? ==>
      fold(canonical(edits[i].path).value) != fold(canonical(edits[j].path).value)
  }

  ghost predicate Acceptable(context: map<string, Snapshot>, edits: seq<Edit>, n: nat, canonical: string -> Option<string>,
                             fold: string -> string, hash: string -> string)
    requires n <= |edits|
  {
    && (forall i :: 0 <= i < n ==> Allowed(context, canonical, hash, edits[i]))
    && Apart(edits, n, canonical, fold)
  }

  /** The proposal holds the result of this edit, beside its original. */
  ghost predicate Carries(context: map<string, Snapshot>, e: Edit, canonical: string -> Option<string>,
                          files: map<string, string>, originals: map<string, Option<string>>) {
    && canonical(e.path).Some?
    && var p := canonical(e.path).value;
       && p in files && p in context && p in originals && originals[p] == Some(context[p].original)
       && ExactEdit(context[p].original, context[p].visible, e.quoted, e.put, files[p])
  }

  /** Some one of the first `n` edits goes to `p`. */
  ghost predicate Targeted(edits: seq<Edit>, n: nat, canonical: string -> Option<string>, p: string)
    requires n <= |edits|
  {
    exists i :: 0 <= i < n && canonical(edits[i].path) == Some(p)
  }

  /** The proposal holds the exact edit of each target, beside its original, and nothing else. */
  ghost predicate Carried(context: map<string, Snapshot>, edits: seq<Edit>, n: nat, canonical: string -> Option<string>,
                          files: map<string, string>, originals: map<string, Option<string>>)
    requires n <= |edits|
  {
    && files.Keys == originals.Keys
    && (forall p :: p in files ==> Targeted(edits, n, canonical, p))
    && (forall i :: 0 <= i < n ==> Carries(context, edits[i], canonical, files, originals))
  }

  /** The checks on one edit, and the text it results in. */
  method ApplyEdit(context: map<string, Snapshot>, e: Edit, canonical: string -> Option<string>, hash: string -> string)
    returns (result: Option<string>)
    requires Shown(context)
    ensures result.Some? <==> Allowed(context, canonical, hash, e)
    ensures result.Some? ==>
      var s := context[canonical(e.path).value]; ExactEdit(s.original, s.visible, e.quoted, e.put, result.value)
  {
    if canonical(e.path).None? || canonical(e.path).value !in context {
      return None;
    }
    var s := context[canonical(e.path).value];
    if e.hash != hash(s.original) {
      return None;
    }
    if e.quoted == "" || Find(s.visible, e.quoted, 0).None? {
      return None;
    }
    ghost var at: nat :| SliceAt(s.visible, s.original, at);
    FoundInExcerpt(s.original, s.visible, at, e.quoted, Find(s.visible, e.quoted, 0).value);
    FirstIsLastMeansOnce(s.original, e.quoted);
    if Find(s.original, e.quoted, 0) != RFind(s.original, e.quoted, |s.original|) {
      return None;
    }
    ReplacementIsExact(s.original, s.visible, e.quoted, e.put);
    return Some(ReplaceFirst(s.original, e.quoted, e.put));
  }

  /** The exact-edit branch of `parse`, once its JSON has been read. */
  method ParseEdits(context: map<string, Snapshot>, edits: seq<Edit>, canonical: string -> Option<string>,
                    fold: string -> string, hash: string -> string)
    returns (outcome: Outcome)
    requires Shown(context)
    ensures outcome.Accepted? <==> Acceptable(context, edits, |edits|, canonical, fold, hash)
    ensures outcome.Accepted? ==> Carried(context, edits, |edits|, canonical, outcome.files, outcome.originals)
  {
    var files: map<string, string>, originals: map<string, Option<string>> := map[], map[];
    var destinations: set<string> := {};
    for n := 0 to |edits|
      invariant Underway(context, edits, n, canonical, fold, hash, files, originals, destinations)
    {
      var ok;
      ok, files, originals, destinations :=
        TakeEdit(context, edits, n, canonical, fold, hash, files, originals, destinations);
      if !ok {
        return Refused;
      }
    }
    return Accepted(files, originals);
  }

  /** The first `n` edits are acceptable and carried, and these are the names they fold to. */
  ghost predicate Underway(context: map<string, Snapshot>, edits: seq<Edit>, n: nat, canonical: string -> Option<string>,
                           fold: string -> string, hash: string -> string,
                           files: map<string, string>, originals: map<string, Option<string>>, destinations: set<string>)
    requires n <= |edits|
  {
    && Acceptable(context, edits, n, canonical, fold, hash)
    && Carried(context, edits, n, canonical, files, originals)
    && destinations == Folded(files.Keys, fold)
  }

  ghost function Folded(paths: set<string>, fold: string -> string): set<string> {
    set p | p in paths :: fold(p)
  }

  lemma FoldedOneMore(files: map<string, string>, fold: string -> string, p: string, content: string)
    ensures Folded(files[p := content].Keys, fold) == Folded(files.Keys, fold) + {fold(p)}
  {
    assert files[p := content].Keys == files.Keys + {p};
  }

  /** One round of the loop. */
  method TakeEdit(context: map<string, Snapshot>, edits: seq<Edit>, n: nat, canonical: string -> Option<string>,
                  fold: string -> string, hash: string -> string,
                  files: map<string, string>, originals: map<string, Option<string>>, destinations: set<string>)
    returns (ok: bool, files': map<string, string>, originals': map<string, Option<string>>, destinations': set<string>)
    requires Shown(context) && n < |edits|
    requires Underway(context, edits, n, canonical, fold, hash, files, originals, destinations)
    ensures ok ==> Underway(context, edits, n + 1, canonical, fold, hash, files', originals', destinations')
    ensures !ok ==> !Acceptable(context, edits, |edits|, canonical, fold, hash)
  {
    files', originals', destinations' := files, originals, destinations;
    var path := canonical(edits[n].path);
    if path.None? {
      NotAllowed(context, edits, n, canonical, fold, hash);
      return false, files', originals', destinations';
    }
    if fold(path.value) in destinations {
      SameDestination(context, edits, n, canonical, fold, files, originals);
      return false, files', originals', destinations';
    }
    var result := ApplyEdit(context, edits[n], canonical, hash);
    if result.None? {
      NotAllowed(context, edits, n, canonical, fold, hash);
      return false, files', originals', destinations';
    }
    UnderwayNext(context, edits, n, canonical, fold, hash, files, originals, destinations, result.value);
    destinations' := destinations + {fold(path.value)};
    files' := files[path.value := result.value];
    originals' := originals[path.value := Some(context[path.value].original)];
    ok := true;
  }

  lemma UnderwayNext(context: map<string, Snapshot>, edits: seq<Edit>, n: nat, canonical: string -> Option<string>,
                     fold: string -> string, hash: string -> string, files: map<string, string>,
                     originals: map<string, Option<string>>, destinations: set<string>, result: string)
    requires n < |edits| && Underway(context, edits, n, canonical, fold, hash, files, originals, destinations)
    requires Allowed(context, canonical, hash, edits[n]) && fold(canonical(edits[n].path).value) !in destinations
    requires var s := context[canonical(edits[n].path).value];
      ExactEdit(s.original, s.visible, edits[n].quoted, edits[n].put, result)
    ensures var p := canonical(edits[n].path).value;
      Underway(context, edits, n + 1, canonical, fold, hash, files[p := result],
               originals[p := Some(context[p].original)], destinations + {fold(p)})
  {
    var p := canonical(edits[n].path).value;
    FoldedApart(files.Keys, fold, p);
    CarryOne(context, edits, n, canonical, files, originals, result);
    OneMoreAcceptable(context, edits, n, canonical, fold, hash, files, originals);
    FoldedOneMore(files, fold, p, result);
  }

  lemma FoldedApart(paths: set<string>, fold: string -> string, p: string)
    requires fold(p) !in Folded(paths, fold)
    ensures p !in paths && forall q :: q in paths ==> fold(q) != fold(p)
  {
    assert forall q :: q in paths ==> fold(q) in Folded(paths, fold);
  }

  lemma NotAllowed(context: map<string, Snapshot>, edits: seq<Edit>, n: nat, canonical: string -> Option<string>,
                   fold: string -> string, hash: string -> string)
    requires n < |edits| && !Allowed(context, canonical, hash, edits[n])
    ensures !Acceptable(context, edits, |edits|, canonical, fold, hash)
  {
  }

  /** A destination that folds to an earlier one. */
  lemma SameDestination(context: map<string, Snapshot>, edits: seq<Edit>, n: nat, canonical: string -> Option<string>,
                        fold: string -> string, files: map<string, string>, originals: map<string, Option<string>>)
    requires n < |edits| && Carried(context, edits, n, canonical, files, originals) && canonical(edits[n].path).Some?
    requires exists p :: p in files && fold(p) == fold(canonical(edits[n].path).value)
    ensures !Apart(edits, |edits|, canonical, fold)
  {
    var p :| p in files && fold(p) == fold(canonical(edits[n].path).value);
    assert Targeted(edits, n, canonical, p);
    var i :| 0 <= i < n && canonical(edits[i].path) == Some(p);
  }

  /** A destination that folds to none of the earlier ones. */
  lemma OneMoreApart(edits: seq<Edit>, n: nat, canonical: string -> Option<string>, fold: string -> string,
                     paths: set<string>)
    requires n < |edits| && Apart(edits, n, canonical, fold) && canonical(edits[n].path).Some?
    requires forall i :: 0 <= i < n ==> canonical(edits[i].path).Some? && canonical(edits[i].path).value in paths
    requires forall p :: p in paths ==> fold(p) != fold(canonical(edits[n].path).value)
    ensures Apart(edits, n + 1, canonical, fold)
  {
  }

  lemma OneMoreAcceptable(context: map<string, Snapshot>, edits: seq<Edit>, n: nat, canonical: string -> Option<string>,
                          fold: string -> string, hash: string -> string,
                          files: map<string, string>, originals: map<string, Option<string>>)
    requires n < |edits| && Acceptable(context, edits, n, canonical, fold, hash)
    requires Carried(context, edits, n, canonical, files, originals)
    requires Allowed(context, canonical, hash, edits[n])
    requires forall p :: p in files ==> fold(p) != fold(canonical(edits[n].path).value)
    ensures Acceptable(context, edits, n + 1, canonical, fold, hash)
  {
    forall i | 0 <= i < n ensures canonical(edits[i].path).Some? && canonical(edits[i].path).value in files.Keys {
      assert Carries(context, edits[i], canonical, files, originals);
    }
    OneMoreApart(edits, n, canonical, fold, files.Keys);
  }

  lemma StillCarries(context: map<string, Snapshot>, e: Edit, canonical: string -> Option<string>,
                     files: map<string, string>, originals: map<string, Option<string>>, p: string, result: string)
    requires Carries(context, e, canonical, files, originals) && p !in files && p in context
    ensures Carries(context, e, canonical, files[p := result], originals[p := Some(context[p].original)])
  {
  }

  lemma OneMoreTarget(edits: seq<Edit>, n: nat, canonical: string -> Option<string>, p: string)
    requires n < |edits| && (Targeted(edits, n, canonical, p) || canonical(edits[n].path) == Some(p))
    ensures Targeted(edits, n + 1, canonical, p)
  {
  }

  lemma CarryOne(context: map<string, Snapshot>, edits: seq<Edit>, n: nat, canonical: string -> Option<string>,
                 files: map<string, string>, originals: map<string, Option<string>>, result: string)
    requires n < |edits| && Carried(context, edits, n, canonical, files, originals)
    requires canonical(edits[n].path).Some?
    requires var p := canonical(edits[n].path).value;
      && p !in files && p in context
      && ExactEdit(context[p].original, context[p].visible, edits[n].quoted, edits[n].put, result)
    ensures var p := canonical(edits[n].path).value;
      Carried(context, edits, n + 1, canonical, files[p := result], originals[p := Some(context[p].original)])
  {
    var p := canonical(edits[n].path).value;
    var files', originals' := files[p := result], originals[p := Some(context[p].original)];
    forall q | q in files' ensures Targeted(edits, n + 1, canonical, q) {
      OneMoreTarget(edits, n, canonical, q);
    }
    assert Carries(context, edits[n], canonical, files', originals');
    forall i | 0 <= i < n ensures Carries(context, edits[i], canonical, files', originals') {
      StillCarries(context, edits[i], canonical, files, originals, p, result);
    }
  }

  // ---------------------------------------------------------------- whole files

  /**
   The whole-file branch of `parse`: replacing a file takes having been shown all of
   it; a path that was not read must still be absent when the proposal is applied.
   */
  method ParseBlocks(context: map<string, Snapshot>, files: map<string, string>) returns (outcome: Outcome)
    requires Shown(context)
    ensures outcome.Accepted? <==> forall p :: p in files && p in context ==> context[p].visible == context[p].original
    ensures outcome.Accepted? ==> outcome.files == files && outcome.originals.Keys == files.Keys
    ensures outcome.Accepted? ==> forall p :: p in files ==>
      outcome.originals[p] == if p in context then Some(context[p].original) else None
  {
    var originals: map<string, Option<string>> := map[];
    var left := files.Keys;
    while left != {}
      invariant left <= files.Keys && originals.Keys == files.Keys - left
      invariant forall p :: p in originals && p in context ==> context[p].visible == context[p].original
      invariant forall p :: p in originals ==>
        originals[p] == if p in context then Some(context[p].original) else None
      decreases |left|
    {
      var p :| p in left;
      left := left - {p};
      if p in context && !context[p].complete {
        return Refused;
      }
      originals := originals[p := if p in context then Some(context[p].original) else None];
    }
    return Accepted(files, originals);
  }
}
