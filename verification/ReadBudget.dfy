/**
 What the planner is shown of the files it selects: one window of lines for each,
 under character budgets.  Hashing and canonical paths are inputs.
 */
module ReadBudget {

  import opened Basics

  const MAX_FILE_CHARS: nat := 4_000
  const MAX_TOTAL_CHARS: nat := 12_000

  datatype Snapshot = Snapshot(original: string, visible: string, complete: bool)

  /** A selector as parsed: malformed, or a canonical path with an inclusive window of lines. */
  datatype Selector = Malformed | Window(path: string, start: nat, end: nat)

  // ---------------------------------------------------------------- lines

  /** `split_inclusive('\n')`: each line keeps its newline; no empty last line. */
  function Lines(text: string): (rows: seq<string>)
    ensures Flat(rows) == text
  {
    if text == "" then []
    else
      var cut := LineEnd(text);
      FlatCons(text[..cut], Lines(text[cut..]));
      [text[..cut]] + Lines(text[cut..])
  }

  /** Not empty, and no newline but at the end. */
  ghost predicate IsLine(row: string) {
    row != "" && forall j :: 0 <= j < |row| - 1 ==> row[j] != '\n'
  }

  ghost predicate Ended(row: string) {
    row != "" && row[|row| - 1] == '\n'
  }

  /** Each row is one line, and only the last may lack its newline. */
  lemma {:induction false} RowsAreLines(text: string, i: nat)
    requires i < |Lines(text)|
    ensures IsLine(Lines(text)[i]) && (i + 1 < |Lines(text)| ==> Ended(Lines(text)[i]))
  {
    var cut := LineEnd(text);
    if i > 0 {
      RowsAreLines(text[cut..], i - 1);
    } else if 1 < |Lines(text)| {
      assert cut < |text|;
    }
  }

  function LineEnd(text: string): (cut: nat)
    requires text != ""
    ensures 0 < cut <= |text|
    ensures cut < |text| ==> text[cut - 1] == '\n'
    ensures forall i :: 0 <= i < cut - 1 ==> text[i] != '\n'
  {
    if text[0] == '\n' || |text| == 1 then 1 else 1 + LineEnd(text[1..])
  }

  /** `part` is a contiguous piece of `whole`. */
  ghost predicate Slice(part: string, whole: string) {
    exists at: nat :: SliceAt(part, whole, at)
  }

  predicate SliceAt(part: string, whole: string, at: nat) {
    at + |part| <= |whole| && whole[at..at + |part|] == part
  }

  function WindowOf(text: string, start: nat, end: nat): string
    requires 0 < start <= end
  {
    var rows := Lines(text);
    var from := Min(start - 1, |rows|);
    Flat(rows[from..Min(from + (end - start + 1), |rows|)])
  }

  lemma CutInThree(rows: seq<string>, from: nat, upto: nat)
    requires from <= upto <= |rows|
    ensures Flat(rows[..from]) + Flat(rows[from..upto]) + Flat(rows[upto..]) == Flat(rows)
  {
    FlatConcat(rows[..from], rows[from..upto]);
    assert rows[..from] + rows[from..upto] == rows[..upto];
    FlatConcat(rows[..upto], rows[upto..]);
    assert rows[..upto] + rows[upto..] == rows;
  }

  lemma WindowRows(text: string, start: nat, end: nat)
    requires 0 < start <= end <= |Lines(text)|
    ensures WindowOf(text, start, end) == Flat(Lines(text)[start - 1..end])
  {
  }

  /** The window is what stands between the rows before `start` and the rows after `end`. */
  lemma WindowIsBetween(text: string, start: nat, end: nat)
    requires 0 < start <= end <= |Lines(text)|
    ensures Flat(Lines(text)[..start - 1]) + WindowOf(text, start, end) + Flat(Lines(text)[end..]) == text
  {
    WindowRows(text, start, end);
    CutInThree(Lines(text), start - 1, end);
  }

  /** A window that ends past the last row is what stands behind the rows before it; one that starts there is empty. */
  lemma WindowPastTheEnd(text: string, start: nat, end: nat)
    requires 0 < start <= end && |Lines(text)| < end
    ensures start <= |Lines(text)| ==> Flat(Lines(text)[..start - 1]) + WindowOf(text, start, end) == text
    ensures start > |Lines(text)| ==> WindowOf(text, start, end) == ""
  {
    var rows := Lines(text);
    if start <= |rows| {
      CutInThree(rows, start - 1, |rows|);
      assert rows[|rows|..] == [];
    } else {
      assert rows[|rows|..|rows|] == [];
    }
  }

  /** `clip_chars`. */
  function Clip(text: string, most: nat): (part: string)
    ensures part <= text && |part| <= most && (|part| < most ==> part == text)
  {
    text[..Min(most, |text|)]
  }

  /** Where row `r` begins in the text. */
  ghost function RowStart(text: string, r: nat): nat
    requires r <= |Lines(text)|
  {
    |Flat(Lines(text)[..r])|
  }

  /** The rows of a window lie between the start of its first row and the start of the row after its last. */
  lemma WindowPlace(text: string, from: nat, upto: nat)
    requires from <= upto <= |Lines(text)|
    ensures RowStart(text, from) + |Flat(Lines(text)[from..upto])| == RowStart(text, upto)
    ensures SliceAt(Flat(Lines(text)[from..upto]), text, RowStart(text, from))
  {
    var rows := Lines(text);
    FlatConcat(rows[..from], rows[from..upto]);
    assert rows[..from] + rows[from..upto] == rows[..upto];
    FlatConcat(rows[..upto], rows[upto..]);
    assert rows[..upto] + rows[upto..] == rows;
    Middle(Flat(rows[..from]), Flat(rows[from..upto]), Flat(rows[upto..]));
  }

  lemma Middle(a: string, b: string, c: string)
    ensures SliceAt(b, (a + b) + c, |a|)
  {
  }

  lemma ClipIsSlice(window: string, text: string, at: nat, most: nat)
    requires SliceAt(window, text, at)
    ensures SliceAt(Clip(window, most), text, at)
  {
  }

  lemma ClippedWindowIsSlice(text: string, start: nat, end: nat, most: nat)
    requires 0 < start <= end
    ensures Slice(Clip(WindowOf(text, start, end), most), text)
  {
    var rows := Lines(text);
    var from := Min(start - 1, |rows|);
    var upto := Min(from + (end - start + 1), |rows|);
    WindowPlace(text, from, upto);
    ClipIsSlice(Flat(rows[from..upto]), text, RowStart(text, from), most);
  }

  // ---------------------------------------------------------------- collection

  function Total(snapshots: map<string, Snapshot>, order: seq<string>): nat
    requires forall p :: p in order ==> p in snapshots
  {
    if order == [] then 0 else Total(snapshots, order[..|order| - 1]) + |snapshots[order[|order| - 1]].visible|
  }

  lemma {:induction false} TotalSame(a: map<string, Snapshot>, b: map<string, Snapshot>, order: seq<string>)
    requires forall p :: p in order ==> p in a && p in b && a[p] == b[p]
    ensures Total(a, order) == Total(b, order)
  {
    if order != [] {
      TotalSame(a, b, order[..|order| - 1]);
    }
  }

  /** A snapshot honestly shows part of the file it was read from. */
  ghost predicate Honest(s: Snapshot, files: map<string, string>, path: string) {
    && path in files && s.original == files[path]
    && Slice(s.visible, s.original) && |s.visible| <= MAX_FILE_CHARS
    && (s.complete <==> s.visible == s.original)
  }

  /** Snapshots with the order they were taken in: each file once, all honest, within the character budget. */
  ghost predicate Bounded(snapshots: map<string, Snapshot>, order: seq<string>, files: map<string, string>, most: nat) {
    && (forall p :: p in order <==> p in snapshots)
    && (forall i, j :: 0 <= i < j < |order| ==> order[i] != order[j])
    && (forall p :: p in snapshots ==> Honest(snapshots[p], files, p))
    && Total(snapshots, order) <= most
  }

  lemma AddSnapshot(snapshots: map<string, Snapshot>, order: seq<string>, files: map<string, string>, most: nat,
                    path: string, s: Snapshot)
    requires Bounded(snapshots, order, files, most) && path !in snapshots && Honest(s, files, path)
    requires Total(snapshots, order) + |s.visible| <= most
    ensures Bounded(snapshots[path := s], order + [path], files, most)
    ensures Total(snapshots[path := s], order + [path]) == Total(snapshots, order) + |s.visible|
  {
    TotalSame(snapshots, snapshots[path := s], order);
    assert (order + [path])[..|order|] == order;
  }

  /** A selector that names something to show: a proper window on a readable, unchanged file. */
  predicate Showable(files: map<string, string>, stale: set<string>, sel: Selector) {
    && sel.Window? && 0 < sel.start <= sel.end && sel.path in files && sel.path !in stale
    && (WindowOf(files[sel.path], sel.start, sel.end) != "" || files[sel.path] == "")
  }

  /** What a selector is answered with when `remaining` characters may still be shown. */
  ghost predicate Answers(files: map<string, string>, sel: Selector, remaining: nat, s: Snapshot)
    requires Showable(files, {}, sel)
  {
    && Honest(s, files, sel.path) && |s.visible| <= remaining
    && s.visible == Clip(WindowOf(files[sel.path], sel.start, sel.end), Min(MAX_FILE_CHARS, remaining))
  }

  /** One selector of `collect_checked`, with `remaining` characters left to show. */
  method TakeOne(files: map<string, string>, stale: set<string>, sel: Selector, remaining: nat)
    returns (taken: Option<Snapshot>)
    requires remaining > 0
    ensures taken.Some? <==> Showable(files, stale, sel)
    ensures taken.Some? ==> Answers(files, sel, remaining, taken.value)
  {
    if sel.Malformed? || sel.start == 0 || sel.end < sel.start || sel.path !in files || sel.path in stale {
      return None;
    }
    var original := files[sel.path];
    var window := WindowOf(original, sel.start, sel.end);
    var visible := Clip(window, Min(MAX_FILE_CHARS, remaining));
    if visible == "" && original != "" {
      return None;
    }
    ClippedWindowIsSlice(original, sel.start, sel.end, Min(MAX_FILE_CHARS, remaining));
    return Some(Snapshot(original, visible, visible == original));
  }

  /** The same, once the budget and the files already shown have been considered. */
  method Follow(files: map<string, string>, stale: set<string>, sel: Selector, snapshots: map<string, Snapshot>, remaining: nat)
    returns (taken: Option<Snapshot>)
    ensures taken.Some? <==> remaining > 0 && Showable(files, stale, sel) && sel.path !in snapshots
    ensures taken.Some? ==> Answers(files, sel, remaining, taken.value)
  {
    if remaining == 0 || (sel.Window? && sel.path in snapshots) {
      return None;
    }
    taken := TakeOne(files, stale, sel, remaining);
  }

  /** Selector `n` is the first one that names something to show of its file. */
  ghost predicate Deciding(files: map<string, string>, stale: set<string>, selectors: seq<Selector>, n: nat) {
    && n < |selectors| && Showable(files, stale, selectors[n])
    && forall i :: 0 <= i < n && Showable(files, stale, selectors[i]) ==> selectors[i].path != selectors[n].path
  }

  /** What a deciding selector has come to, given what is left of the budget. */
  ghost predicate Served(files: map<string, string>, sel: Selector, snapshots: map<string, Snapshot>, remaining: nat)
    requires Showable(files, {}, sel)
  {
    var window := WindowOf(files[sel.path], sel.start, sel.end);
    if sel.path in snapshots then
      var visible := snapshots[sel.path].visible;
      visible <= window && (visible == Clip(window, MAX_FILE_CHARS) || remaining == 0)
    else
      remaining == 0
  }

  /** The first `k` selectors have been followed: the deciding ones are served, and nothing else is shown. */
  ghost predicate Followed(files: map<string, string>, stale: set<string>, selectors: seq<Selector>, k: nat,
                           snapshots: map<string, Snapshot>, remaining: nat) {
    && (forall p :: p in snapshots ==>
          exists n: nat :: n < k && Deciding(files, stale, selectors, n) && selectors[n].path == p)
    && (forall n: nat :: n < k && Deciding(files, stale, selectors, n) ==>
          Served(files, selectors[n], snapshots, remaining))
  }

  /** Within the budget, with `remaining` characters of it left, after `k` selectors. */
  ghost predicate Collected(files: map<string, string>, stale: set<string>, selectors: seq<Selector>, k: nat, most: nat,
                            snapshots: map<string, Snapshot>, order: seq<string>, remaining: nat) {
    && Bounded(snapshots, order, files, most)
    && remaining + Total(snapshots, order) == most
    && Followed(files, stale, selectors, k, snapshots, remaining)
  }

  /**
   `collect_checked`: the first showable window of each file is shown, up to the file
   limit, and falls short of that only when the whole budget has been used.
   */
  method Collect(files: map<string, string>, stale: set<string>, selectors: seq<Selector>, maxChars: nat)
    returns (snapshots: map<string, Snapshot>, order: seq<string>, remaining: nat)
    ensures Collected(files, stale, selectors, |selectors|, Min(maxChars, MAX_TOTAL_CHARS), snapshots, order, remaining)
    ensures Total(snapshots, order) <= 12_000 && Total(snapshots, order) <= maxChars
    ensures forall p :: p in snapshots ==> |snapshots[p].visible| <= 4_000
  {
    snapshots, order := map[], [];
    remaining := Min(maxChars, MAX_TOTAL_CHARS);
    for k := 0 to |selectors|
      invariant Collected(files, stale, selectors, k, Min(maxChars, MAX_TOTAL_CHARS), snapshots, order, remaining)
    {
      snapshots, order, remaining :=
        FollowNext(files, stale, selectors, k, Min(maxChars, MAX_TOTAL_CHARS), snapshots, order, remaining);
    }
  }

  /** One round of the loop. */
  method FollowNext(files: map<string, string>, stale: set<string>, selectors: seq<Selector>, k: nat, ghost most: nat,
                    snapshots: map<string, Snapshot>, order: seq<string>, remaining: nat)
    returns (snapshots': map<string, Snapshot>, order': seq<string>, remaining': nat)
    requires k < |selectors| && Collected(files, stale, selectors, k, most, snapshots, order, remaining)
    ensures Collected(files, stale, selectors, k + 1, most, snapshots', order', remaining')
  {
    var taken := Follow(files, stale, selectors[k], snapshots, remaining);
    if taken.None? {
      CollectNone(files, stale, selectors, k, most, snapshots, order, remaining);
      return snapshots, order, remaining;
    }
    CollectOne(files, stale, selectors, k, most, snapshots, order, remaining, taken.value);
    var path := selectors[k].path;
    return snapshots[path := taken.value], order + [path], remaining - |taken.value.visible|;
  }

  lemma CollectNone(files: map<string, string>, stale: set<string>, selectors: seq<Selector>, k: nat, most: nat,
                    snapshots: map<string, Snapshot>, order: seq<string>, remaining: nat)
    requires Collected(files, stale, selectors, k, most, snapshots, order, remaining) && k < |selectors|
    requires remaining == 0 || !Showable(files, stale, selectors[k]) || selectors[k].path in snapshots
    ensures Collected(files, stale, selectors, k + 1, most, snapshots, order, remaining)
  {
    NothingToServe(files, stale, selectors, k, snapshots, remaining);
  }

  lemma CollectOne(files: map<string, string>, stale: set<string>, selectors: seq<Selector>, k: nat, most: nat,
                   snapshots: map<string, Snapshot>, order: seq<string>, remaining: nat, s: Snapshot)
    requires Collected(files, stale, selectors, k, most, snapshots, order, remaining) && k < |selectors|
    requires remaining > 0 && Showable(files, stale, selectors[k]) && selectors[k].path !in snapshots
    requires Answers(files, selectors[k], remaining, s)
    ensures Collected(files, stale, selectors, k + 1, most, snapshots[selectors[k].path := s], order + [selectors[k].path],
                      remaining - |s.visible|)
  {
    Serve(files, stale, selectors, k, snapshots, remaining, s);
    AddSnapshot(snapshots, order, files, most, selectors[k].path, s);
  }

  lemma NothingToServe(files: map<string, string>, stale: set<string>, selectors: seq<Selector>, k: nat,
                       snapshots: map<string, Snapshot>, remaining: nat)
    requires k < |selectors| && Followed(files, stale, selectors, k, snapshots, remaining)
    requires remaining == 0 || !Showable(files, stale, selectors[k]) || selectors[k].path in snapshots
    ensures Followed(files, stale, selectors, k + 1, snapshots, remaining)
  {
    assert Deciding(files, stale, selectors, k) ==> Served(files, selectors[k], snapshots, remaining);
  }

  lemma Serve(files: map<string, string>, stale: set<string>, selectors: seq<Selector>, k: nat,
              snapshots: map<string, Snapshot>, remaining: nat, s: Snapshot)
    requires k < |selectors| && Followed(files, stale, selectors, k, snapshots, remaining) && remaining > 0
    requires Showable(files, stale, selectors[k]) && selectors[k].path !in snapshots
    requires Answers(files, selectors[k], remaining, s)
    ensures Followed(files, stale, selectors, k + 1, snapshots[selectors[k].path := s], remaining - |s.visible|)
  {
    NotYetServed(files, stale, selectors, k, snapshots, remaining);
    var path := selectors[k].path;
    forall n: nat | n < k + 1 && Deciding(files, stale, selectors, n)
      ensures Served(files, selectors[n], snapshots[path := s], remaining - |s.visible|)
    {
      if n < k {
        StillServed(files, selectors[n], snapshots, remaining, path, s);
      } else {
        JustServed(files, selectors[k], snapshots, remaining, s);
      }
    }
  }

  /** While budget was left, an earlier selector was served in full, and so it stays. */
  lemma StillServed(files: map<string, string>, sel: Selector, snapshots: map<string, Snapshot>, remaining: nat,
                    path: string, s: Snapshot)
    requires Showable(files, {}, sel) && Served(files, sel, snapshots, remaining) && path !in snapshots
    requires 0 < remaining && |s.visible| <= remaining
    ensures Served(files, sel, snapshots[path := s], remaining - |s.visible|)
  {
  }

  lemma JustServed(files: map<string, string>, sel: Selector, snapshots: map<string, Snapshot>, remaining: nat, s: Snapshot)
    requires Showable(files, {}, sel) && Answers(files, sel, remaining, s)
    ensures Served(files, sel, snapshots[sel.path := s], remaining - |s.visible|)
  {
  }

  /** While budget remains, a file without a snapshot has had no showable selector. */
  lemma NotYetServed(files: map<string, string>, stale: set<string>, selectors: seq<Selector>, k: nat,
                     snapshots: map<string, Snapshot>, remaining: nat)
    requires k < |selectors| && Showable(files, stale, selectors[k]) && selectors[k].path !in snapshots && remaining > 0
    requires Followed(files, stale, selectors, k, snapshots, remaining)
    ensures Deciding(files, stale, selectors, k)
  {
    if i :| 0 <= i < k && Showable(files, stale, selectors[i]) && selectors[i].path == selectors[k].path {
      var n := FirstFor(files, stale, selectors, i);
    }
  }

  lemma {:induction false} FirstFor(files: map<string, string>, stale: set<string>, selectors: seq<Selector>, i: nat)
    returns (n: nat)
    requires i < |selectors| && Showable(files, stale, selectors[i])
    ensures n <= i && Deciding(files, stale, selectors, n) && selectors[n].path == selectors[i].path
    decreases i
  {
    if j :| 0 <= j < i && Showable(files, stale, selectors[j]) && selectors[j].path == selectors[i].path {
      n := FirstFor(files, stale, selectors, j);
    } else {
      n := i;
    }
  }
}
