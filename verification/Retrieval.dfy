/**
 Excerpts around search hits, added to what was selected, under the same character
 budget and a token budget in which every byte rendered counts as one token.  The
 scores of the rows and the scanner's verdict are inputs.
 */
module Retrieval {

  import opened Basics
  import opened ReadBudget

  // ---------------------------------------------------------------- the excerpt

  function CharsBetween(lengths: seq<nat>, from: nat, upto: nat): nat
    requires from <= upto <= |lengths|
  {
    if from == upto then 0 else CharsBetween(lengths, from, upto - 1) + lengths[upto - 1]
  }

  lemma {:induction false} CharsBetweenFirst(lengths: seq<nat>, from: nat, upto: nat)
    requires from < upto <= |lengths|
    ensures CharsBetween(lengths, from, upto) == lengths[from] + CharsBetween(lengths, from + 1, upto)
    decreases upto
  {
    if from + 1 < upto {
      CharsBetweenFirst(lengths, from, upto - 1);
    }
  }

  /** The first of the rows with the highest score; the first row when there is none. */
  ghost predicate FirstBest(scores: seq<nat>, best: nat) {
    && (best < |scores| || best == |scores| == 0)
    && (forall i :: 0 <= i < |scores| ==> scores[i] <= scores[best])
    && (forall i :: 0 <= i < best ==> scores[i] < scores[best])
  }

  /**
   `excerpt_start` over the score and length of each row.  The window starts as
   early as it can: at most half its lines and half its characters come before
   the first best-scoring row.
   */
  method ExcerptStart(scores: seq<nat>, lengths: seq<nat>, lines: nat, maxChars: nat)
    returns (start: nat, ghost best: nat)
    requires |scores| == |lengths| && lines > 0
    ensures start > 0 && FirstBest(scores, best)
    // The best row is inside the window.
    ensures start - 1 <= best < start - 1 + lines && best - (start - 1) <= lines / 2
    ensures CharsBetween(lengths, start - 1, best) <= maxChars / 2
    // And the window could not have started earlier.
    ensures start - 1 == 0 || best - (start - 1) == lines / 2 ||
            CharsBetween(lengths, start - 2, best) > maxChars / 2
  {
    var top, topScore := 0, 0;
    for row := 0 to |scores|
      invariant if topScore == 0 then top == 0 else top < row && topScore == scores[top]
      invariant forall i :: 0 <= i < row ==> scores[i] <= topScore
      invariant forall i :: 0 <= i < top ==> scores[i] < topScore
    {
      if scores[row] > topScore {
        top, topScore := row, scores[row];
      }
    }
    best := top;
    var first := top;
    var leading := 0;
    while first > (if top < lines / 2 then 0 else top - lines / 2)
      invariant (if top < lines / 2 then 0 else top - lines / 2) <= first <= top
      invariant leading == CharsBetween(lengths, first, top) <= maxChars / 2
    {
      leading := leading + lengths[first - 1];
      CharsBetweenFirst(lengths, first - 1, top);
      if leading > maxChars / 2 {
        break;
      }
      first := first - 1;
    }
    start := first + 1;
  }

  function Lengths(rows: seq<string>): (lengths: seq<nat>)
    ensures |lengths| == |rows|
  {
    seq(|rows|, i requires 0 <= i < |rows| => |rows[i]|)
  }

  lemma {:induction false} FlatLength(rows: seq<string>, from: nat, upto: nat)
    requires from <= upto <= |rows|
    ensures |Flat(rows[from..upto])| == CharsBetween(Lengths(rows), from, upto)
    decreases upto
  {
    if from < upto {
      FlatLength(rows, from, upto - 1);
      assert rows[from..upto] == rows[from..upto - 1] + [rows[upto - 1]];
      FlatSnoc(rows[from..upto - 1], rows[upto - 1]);
    }
  }

  lemma {:induction false} RowsNotEmpty(text: string, i: nat)
    requires i < |Lines(text)|
    ensures Lines(text)[i] != ""
  {
    if i > 0 {
      RowsNotEmpty(text[LineEnd(text)..], i - 1);
    }
  }

  /** The piece shown takes in the beginning of row `r`. */
  ghost predicate ShowsRow(visible: string, text: string, r: nat) {
    && r < |Lines(text)|
    && exists at: nat :: SliceAt(visible, text, at) && at <= RowStart(text, r) < at + |visible|
  }

  /** A window with less than `most` characters before row `best` still shows that row when clipped to `most`. */
  lemma ClippedWindowShowsRow(text: string, start: nat, lines: nat, best: nat, most: nat)
    requires 0 < start && start - 1 <= best < start - 1 + lines && best < |Lines(text)|
    requires CharsBetween(Lengths(Lines(text)), start - 1, best) < most
    ensures ShowsRow(Clip(WindowOf(text, start, start + lines - 1), most), text, best)
    ensures WindowOf(text, start, start + lines - 1) != ""
  {
    var from := start - 1;
    var upto := Min(from + lines, |Lines(text)|);
    var window := Flat(Lines(text)[from..upto]);
    WindowPlace(text, from, upto);
    RowInside(text, from, best, upto);
    FlatLength(Lines(text), from, best);
    ClippedPieceShowsRow(window, text, RowStart(text, from), best, most);
  }

  /** Row `r` of a window begins after the rows before it, inside the window. */
  lemma RowInside(text: string, from: nat, r: nat, upto: nat)
    requires from <= r < upto <= |Lines(text)|
    ensures RowStart(text, r) == RowStart(text, from) + |Flat(Lines(text)[from..r])|
    ensures RowStart(text, r) < RowStart(text, upto)
  {
    WindowPlace(text, from, r);
    RowBefore(text, r, upto);
  }

  lemma ClippedPieceShowsRow(window: string, text: string, at: nat, r: nat, most: nat)
    requires r < |Lines(text)| && SliceAt(window, text, at)
    requires at <= RowStart(text, r) < at + |window| && RowStart(text, r) - at < most
    ensures window != "" && ShowsRow(Clip(window, most), text, r)
  {
    ClipIsSlice(window, text, at, most);
  }

  lemma RowBefore(text: string, r: nat, s: nat)
    requires r < s <= |Lines(text)|
    ensures RowStart(text, r) < RowStart(text, s)
  {
    WindowPlace(text, r, s);
    RowsNotEmpty(text, r);
    FlatCons(Lines(text)[r], Lines(text)[r + 1..s]);
    assert Lines(text)[r..s] == [Lines(text)[r]] + Lines(text)[r + 1..s];
  }

  // ---------------------------------------------------------------- what an excerpt renders to

  const HASH_DIGITS: nat := 64

  function CharBytes(c: char): (n: nat)
    ensures 1 <= n <= 4
    ensures n == 1 <==> c as int <= 0x7F
    ensures n <= 2 <==> c as int <= 0x7FF
    ensures n <= 3 <==> c as int <= 0xFFFF
  {
    if c as int < 0x80 then 1 else if c as int < 0x800 then 2 else if c as int < 0x1_0000 then 3 else 4
  }

  function Utf8Bytes(text: string): (n: nat)
    ensures |text| <= n <= 4 * |text|
  {
    if text == "" then 0 else Utf8Bytes(text[..|text| - 1]) + CharBytes(text[|text| - 1])
  }

  function Digits(n: nat): nat { if n < 10 then 1 else 1 + Digits(n / 10) }

  function Pow10(k: nat): nat { if k == 0 then 1 else 10 * Pow10(k - 1) }

  lemma {:induction false} DigitsFit(n: nat, k: nat)
    requires 0 < k && n < Pow10(k)
    ensures Digits(n) <= k
  {
    if n >= 10 {
      assert k > 1 && n / 10 < Pow10(k - 1);
      DigitsFit(n / 10, k - 1);
    }
  }

  lemma TwentyDigits()
    ensures U64_MAX < Pow10(20)
  {
    assert Pow10(4) == 10_000;
    assert Pow10(8) == 1_0000_0000;
    assert Pow10(12) == 1_0000_0000_0000;
    assert Pow10(16) == 1_0000_0000_0000_0000;
    assert Pow10(20) == 1_0000_0000_0000_0000_0000;
  }

  // The block that shows a window: what stands before and behind the text that is visible.

  const HEAD := "--- EXISTING FILE: "
  const HASH := " ---\nsha256: "
  const SELECTION := "\nselection: "
  const COMPLETE := "; complete: "
  const TAIL := "\n--- END EXISTING FILE ---"
  const OMITTED := "\n[omitted or truncated "
  const CONTEXT := "context: use "
  const ONLY := "exact edits only]"

  function Decimal(n: nat): string {
    if n < 10 then [DigitChar(n)] else Decimal(n / 10) + [DigitChar(n % 10)]
  }

  function DigitChar(d: nat): char
    requires d < 10
  {
    '0' + d as char
  }

  function Selection(path: string, start: nat, end: nat): string {
    path + "#L" + Decimal(start) + "-L" + Decimal(end)
  }

  function Front(path: string, hash: string, start: nat, end: nat): string {
    HEAD + path + HASH + hash + SELECTION + Selection(path, start, end) + COMPLETE
  }

  function Back(complete: bool): string {
    if complete then TAIL else TAIL + OMITTED + CONTEXT + ONLY
  }

  function Rendered(path: string, hash: string, start: nat, end: nat, s: Snapshot): string {
    Front(path, hash, start, end) + (if s.complete then "true\n" else "false\n") + s.visible + Back(s.complete)
  }

  ghost predicate Ascii(text: string) {
    forall i :: 0 <= i < |text| ==> text[i] as int < 0x80
  }

  lemma {:induction false} AsciiBytes(text: string)
    requires Ascii(text)
    ensures Utf8Bytes(text) == |text|
  {
    if text != "" {
      AsciiBytes(text[..|text| - 1]);
    }
  }

  lemma {:induction false} Utf8Concat(a: string, b: string)
    ensures Utf8Bytes(a + b) == Utf8Bytes(a) + Utf8Bytes(b)
  {
    if b == "" {
      assert a + b == a;
    } else {
      Utf8Concat(a, b[..|b| - 1]);
      assert (a + b)[..|a + b| - 1] == a + b[..|b| - 1];
    }
  }

  lemma {:induction false} DecimalBytes(n: nat)
    ensures |Decimal(n)| == Digits(n) && Ascii(Decimal(n)) && Utf8Bytes(Decimal(n)) == Digits(n)
  {
    if n >= 10 {
      DecimalBytes(n / 10);
    }
    AsciiBytes(Decimal(n));
  }

  lemma SelectionBytes(path: string, start: nat, end: nat)
    ensures Utf8Bytes(Selection(path, start, end)) == Utf8Bytes(path) + 2 + Digits(start) + 2 + Digits(end)
  {
    DecimalBytes(start);
    DecimalBytes(end);
    AsciiBytes("#L");
    AsciiBytes("-L");
    Utf8Concat(path, "#L");
    Utf8Concat(path + "#L", Decimal(start));
    Utf8Concat(path + "#L" + Decimal(start), "-L");
    Utf8Concat(path + "#L" + Decimal(start) + "-L", Decimal(end));
  }

  lemma FrontTextIsAscii()
    ensures Utf8Bytes(HEAD) == 19 && Utf8Bytes(HASH) == 13 && Utf8Bytes(SELECTION) == 12 && Utf8Bytes(COMPLETE) == 12
  {
    AsciiBytes(HEAD);
    AsciiBytes(HASH);
    AsciiBytes(SELECTION);
    AsciiBytes(COMPLETE);
  }

  lemma TailIsAscii()
    ensures Utf8Bytes(TAIL) == 26 && Utf8Bytes("true\n") == 5 && Utf8Bytes("false\n") == 6
  {
    AsciiBytes(TAIL);
    AsciiBytes("true\n");
    AsciiBytes("false\n");
  }

  lemma NoteIsAscii()
    ensures Utf8Bytes(OMITTED) == 23 && Utf8Bytes(CONTEXT) == 13 && Utf8Bytes(ONLY) == 17
  {
    AsciiBytes(OMITTED);
    AsciiBytes(CONTEXT);
    AsciiBytes(ONLY);
  }

  lemma BackBytes(complete: bool)
    ensures Utf8Bytes(Back(complete)) == if complete then 26 else 79
  {
    TailIsAscii();
    NoteIsAscii();
    Utf8Concat(TAIL, OMITTED);
    Utf8Concat(TAIL + OMITTED, CONTEXT);
    Utf8Concat(TAIL + OMITTED + CONTEXT, ONLY);
  }

  lemma FrontBytes(path: string, hash: string, start: nat, end: nat)
    requires |hash| == HASH_DIGITS && Ascii(hash)
    ensures Utf8Bytes(Front(path, hash, start, end)) == 2 * Utf8Bytes(path) + Digits(start) + Digits(end) + 124
  {
    FrontTextIsAscii();
    AsciiBytes(hash);
    SelectionBytes(path, start, end);
    Utf8Concat(HEAD, path);
    Utf8Concat(HEAD + path, HASH);
    Utf8Concat(HEAD + path + HASH, hash);
    Utf8Concat(HEAD + path + HASH + hash, SELECTION);
    Utf8Concat(HEAD + path + HASH + hash + SELECTION, Selection(path, start, end));
    Utf8Concat(HEAD + path + HASH + hash + SELECTION + Selection(path, start, end), COMPLETE);
  }

  /** The bytes of that block. */
  function RenderedBytes(path: string, start: nat, end: nat, s: Snapshot): nat {
    2 * Utf8Bytes(path) + Digits(start) + Digits(end) + Utf8Bytes(s.visible) + if s.complete then 155 else 209
  }

  /** What is counted is exactly the length in UTF-8 of the block that is sent. */
  lemma RenderedBytesAreCounted(path: string, hash: string, start: nat, end: nat, s: Snapshot)
    requires |hash| == HASH_DIGITS && Ascii(hash)
    ensures Utf8Bytes(Rendered(path, hash, start, end, s)) == RenderedBytes(path, start, end, s)
  {
    FrontBytes(path, hash, start, end);
    TailIsAscii();
    BackBytes(s.complete);
    var front := Front(path, hash, start, end);
    var flag := if s.complete then "true\n" else "false\n";
    Utf8Concat(front, flag);
    Utf8Concat(front + flag, s.visible);
    Utf8Concat(front + flag + s.visible, Back(s.complete));
  }

  function Overhead(path: string): nat { Utf8Bytes(path) * 2 + 256 }

  /** The room set aside for a block before it is rendered is always enough for it and its separator. */
  lemma OverheadSuffices(path: string, start: nat, end: nat, s: Snapshot)
    requires start <= U64_MAX && end <= U64_MAX
    ensures RenderedBytes(path, start, end, s) + 2 <= Overhead(path) + 4 * |s.visible|
  {
    TwentyDigits();
    DigitsFit(start, 20);
    DigitsFit(end, 20);
  }

  // ---------------------------------------------------------------- the excerpt of one hit

  /**
   A search hit: its path, the content that was indexed, the score of each of its
   rows, and the scanner's verdict on its excerpt.
   */
  datatype Hit = Hit(path: string, content: string, scores: seq<nat>, flagged: bool)

  const MAX_TOKEN_BUDGET: nat := 8192

  /** The file is still as it was when it was indexed. */
  predicate AsIndexed(files: map<string, string>, h: Hit) {
    h.path in files && files[h.path] == h.content
  }

  /** The excerpt shown for a hit is of the indexed content and takes in its best row. */
  ghost predicate Relevant(s: Snapshot, h: Hit) {
    s.original == h.content && exists best: nat :: FirstBest(h.scores, best) && ShowsRow(s.visible, h.content, best)
  }

  lemma LeadingHalfFits(text: string, start: nat, lines: nat, best: nat, maxChars: nat)
    requires 0 < start && start - 1 <= best < start - 1 + lines && best < |Lines(text)|
    requires 0 < maxChars < 2 * MAX_FILE_CHARS
    requires CharsBetween(Lengths(Lines(text)), start - 1, best) <= maxChars / 2
    ensures ShowsRow(Clip(WindowOf(text, start, start + lines - 1), Min(MAX_FILE_CHARS, maxChars)), text, best)
    ensures WindowOf(text, start, start + lines - 1) != ""
  {
    assert maxChars / 2 < maxChars && maxChars / 2 < MAX_FILE_CHARS;
    ClippedWindowShowsRow(text, start, lines, best, Min(MAX_FILE_CHARS, maxChars));
  }

  /** A window whose clipped text takes in the best row of the hit. */
  ghost predicate Points(h: Hit, start: nat, end: nat, maxChars: nat) {
    && 0 < start <= end && WindowOf(h.content, start, end) != ""
    && exists best: nat :: FirstBest(h.scores, best)
         && ShowsRow(Clip(WindowOf(h.content, start, end), Min(MAX_FILE_CHARS, maxChars)), h.content, best)
  }

  lemma {:induction false} FewRows(text: string)
    ensures |Lines(text)| <= |text|
  {
    if text != "" {
      FewRows(text[LineEnd(text)..]);
    }
  }

  /** A hit as indexing leaves it: some text, a score for each row, and line numbers within the machine's range. */
  ghost predicate Indexed(h: Hit, lines: nat) {
    h.content != "" && |h.scores| == |Lines(h.content)| && |h.content| + lines <= U64_MAX
  }

  method WindowFor(h: Hit, lines: nat, maxChars: nat) returns (start: nat)
    requires Indexed(h, lines) && lines > 0 && 0 < maxChars < 2 * MAX_FILE_CHARS
    ensures Points(h, start, start + lines - 1, maxChars) && start + lines - 1 <= U64_MAX
  {
    ghost var best;
    start, best := ExcerptStart(h.scores, Lengths(Lines(h.content)), lines, maxChars);
    LeadingHalfFits(h.content, start, lines, best, maxChars);
    FewRows(h.content);
  }

  /** The excerpt for one hit. */
  method Excerpt(files: map<string, string>, h: Hit, lines: nat, maxChars: nat)
    returns (taken: Option<Snapshot>, start: nat)
    requires Indexed(h, lines) && lines > 0 && 0 < maxChars < 2 * MAX_FILE_CHARS
    ensures 0 < start && start + lines - 1 <= U64_MAX
    ensures taken.Some? <==> AsIndexed(files, h)
    ensures taken.Some? ==> Honest(taken.value, files, h.path) && |taken.value.visible| <= maxChars && Relevant(taken.value, h)
    ensures taken.Some? ==> taken.value.visible <= WindowOf(h.content, start, start + lines - 1)
  {
    start := WindowFor(h, lines, maxChars);
    var stale := if h.path in files && files[h.path] != h.content then {h.path} else {};
    taken := TakeWindow(files, stale, h, start, start + lines - 1, maxChars);
  }

  method TakeWindow(files: map<string, string>, stale: set<string>, h: Hit, start: nat, end: nat, maxChars: nat)
    returns (taken: Option<Snapshot>)
    requires h.content != "" && Points(h, start, end, maxChars) && maxChars > 0
    requires stale == if h.path in files && files[h.path] != h.content then {h.path} else {}
    ensures taken.Some? <==> AsIndexed(files, h)
    ensures taken.Some? ==> Honest(taken.value, files, h.path) && |taken.value.visible| <= maxChars && Relevant(taken.value, h)
    ensures taken.Some? ==> taken.value.visible <= WindowOf(h.content, start, end)
  {
    taken := TakeOne(files, stale, Window(h.path, start, end), maxChars);
  }

  // ---------------------------------------------------------------- the budget loop

  datatype Retrieved = Retrieved(path: string, start: nat, end: nat, reservation: nat)

  function Reserved(trace: seq<Retrieved>): nat {
    if trace == [] then 0 else Reserved(trace[..|trace| - 1]) + trace[|trace| - 1].reservation
  }

  function Paths(trace: seq<Retrieved>): seq<string> {
    if trace == [] then [] else Paths(trace[..|trace| - 1]) + [trace[|trace| - 1].path]
  }

  lemma ExtendTrace(trace: seq<Retrieved>, t: Retrieved)
    ensures Reserved(trace + [t]) == Reserved(trace) + t.reservation
    ensures Paths(trace + [t]) == Paths(trace) + [t.path]
  {
    assert (trace + [t])[..|trace|] == trace;
  }

  /** Hits that may be retrieved on top of a context: each file once, none shown already. */
  ghost predicate Fresh(hits: seq<Hit>, context: map<string, Snapshot>, lines: nat) {
    && (forall i :: 0 <= i < |hits| ==> hits[i].path !in context && Indexed(hits[i], lines))
    && (forall i, j :: 0 <= i < j < |hits| ==> hits[i].path != hits[j].path)
  }

  /** Of the first `n` hits only, each one shown is shown where it matters; the context is still there. */
  ghost predicate Enriched(hits: seq<Hit>, n: nat, context: map<string, Snapshot>, shown: map<string, Snapshot>)
    requires n <= |hits|
  {
    && (forall p :: p in context ==> p in shown && shown[p] == context[p])
    && (forall i :: n <= i < |hits| ==> hits[i].path !in shown)
    && (forall i :: 0 <= i < n && hits[i].path in shown ==> Relevant(shown[hits[i].path], hits[i]))
  }

  /** Of the first `n` hits exactly those are left out that have changed or were flagged. */
  ghost predicate Complete(files: map<string, string>, hits: seq<Hit>, n: nat, shown: map<string, Snapshot>)
    requires n <= |hits|
  {
    forall i :: 0 <= i < n ==> (hits[i].path in shown <==> AsIndexed(files, hits[i]) && !hits[i].flagged)
  }

  ghost predicate SomeFlagged(files: map<string, string>, hits: seq<Hit>, n: nat)
    requires n <= |hits|
  {
    exists i :: 0 <= i < n && AsIndexed(files, hits[i]) && hits[i].flagged
  }

  lemma ShowHit(files: map<string, string>, hits: seq<Hit>, n: nat, context: map<string, Snapshot>,
                shown: map<string, Snapshot>, s: Snapshot, lines: nat)
    requires Fresh(hits, context, lines) && n < |hits| && Enriched(hits, n, context, shown) && Relevant(s, hits[n])
    requires AsIndexed(files, hits[n]) && !hits[n].flagged && Complete(files, hits, n, shown)
    ensures Enriched(hits, n + 1, context, shown[hits[n].path := s])
    ensures Complete(files, hits, n + 1, shown[hits[n].path := s])
    ensures SomeFlagged(files, hits, n + 1) ==> SomeFlagged(files, hits, n)
  {
    EnrichOne(hits, n, context, shown, s, lines);
    CompleteOne(files, hits, n, context, shown, s, lines);
  }

  lemma EnrichOne(hits: seq<Hit>, n: nat, context: map<string, Snapshot>, shown: map<string, Snapshot>, s: Snapshot, lines: nat)
    requires Fresh(hits, context, lines) && n < |hits| && Enriched(hits, n, context, shown) && Relevant(s, hits[n])
    ensures Enriched(hits, n + 1, context, shown[hits[n].path := s])
  {
    var shown' := shown[hits[n].path := s];
    forall i | 0 <= i < n + 1 && hits[i].path in shown' ensures Relevant(shown'[hits[i].path], hits[i]) {
      assert i < n ==> hits[i].path != hits[n].path;
    }
  }

  lemma CompleteOne(files: map<string, string>, hits: seq<Hit>, n: nat, context: map<string, Snapshot>,
                    shown: map<string, Snapshot>, s: Snapshot, lines: nat)
    requires Fresh(hits, context, lines) && n < |hits| && Complete(files, hits, n, shown)
    requires AsIndexed(files, hits[n]) && !hits[n].flagged
    ensures Complete(files, hits, n + 1, shown[hits[n].path := s])
  {
    forall i | 0 <= i < n ensures hits[i].path != hits[n].path {
    }
  }

  lemma PassOver(files: map<string, string>, hits: seq<Hit>, n: nat, context: map<string, Snapshot>,
                 shown: map<string, Snapshot>)
    requires n < |hits| && Enriched(hits, n, context, shown) && Complete(files, hits, n, shown)
    requires !AsIndexed(files, hits[n]) || hits[n].flagged
    ensures Enriched(hits, n + 1, context, shown) && Complete(files, hits, n + 1, shown)
    ensures SomeFlagged(files, hits, n + 1) <==> SomeFlagged(files, hits, n) || AsIndexed(files, hits[n])
  {
    if AsIndexed(files, hits[n]) {
      assert hits[n].flagged;
    }
  }

  /** The loop's variables: what is shown, in which order, the trace, and what is left to spend. */
  datatype Spending = Spending(shown: map<string, Snapshot>, order: seq<string>, trace: seq<Retrieved>,
                               charsLeft: nat, tokensLeft: nat)

  /** The accounts balance: characters and tokens left are what has not been spent. */
  ghost predicate Balanced(files: map<string, string>, order: seq<string>, tokenBudget: nat, now: Spending) {
    && Bounded(now.shown, now.order, files, MAX_TOTAL_CHARS)
    && now.order == order + Paths(now.trace)
    && now.charsLeft + Total(now.shown, now.order) == MAX_TOTAL_CHARS
    && now.tokensLeft + Reserved(now.trace) == tokenBudget
  }

  /** Every reservation is what the excerpt shown renders to, with its separator. */
  ghost predicate Receipts(now: Spending) {
    forall i :: 0 <= i < |now.trace| ==>
      var t := now.trace[i];
      && t.path in now.shown && 0 < t.start <= t.end
      && now.shown[t.path].visible <= WindowOf(now.shown[t.path].original, t.start, t.end)
      && t.reservation == RenderedBytes(t.path, t.start, t.end, now.shown[t.path]) + 2
  }

  /** The characters that may still be spent on a hit. */
  function Room(now: Spending, h: Hit): (room: nat)
    ensures room <= now.charsLeft && (room > 0 ==> 2 * Utf8Bytes(h.path) + 256 + 4 * room <= now.tokensLeft)
    // And no more than that could be spent.
    ensures room == now.charsLeft || now.tokensLeft < 2 * Utf8Bytes(h.path) + 256 + 4 * (room + 1)
  {
    Min(now.charsLeft, (if now.tokensLeft < Overhead(h.path) then 0 else now.tokensLeft - Overhead(h.path)) / 4)
  }

  function Spend(now: Spending, t: Retrieved, s: Snapshot): Spending
    requires t.reservation <= now.tokensLeft && |s.visible| <= now.charsLeft
  {
    Spending(now.shown[t.path := s], now.order + [t.path], now.trace + [t],
             now.charsLeft - |s.visible|, now.tokensLeft - t.reservation)
  }

  lemma OneMore(before: seq<string>, taken: seq<string>, path: string)
    ensures (before + taken) + [path] == before + (taken + [path])
  {
  }

  lemma SpendKeepsBalance(files: map<string, string>, order: seq<string>, tokenBudget: nat, now: Spending,
                          t: Retrieved, s: Snapshot)
    requires Balanced(files, order, tokenBudget, now) && t.path !in now.shown && Honest(s, files, t.path)
    requires t.reservation <= now.tokensLeft && |s.visible| <= now.charsLeft
    ensures Balanced(files, order, tokenBudget, Spend(now, t, s))
  {
    var next := Spend(now, t, s);
    assert next.order == order + Paths(next.trace) && next.tokensLeft + Reserved(next.trace) == tokenBudget by {
      ExtendTrace(now.trace, t);
      OneMore(order, Paths(now.trace), t.path);
    }
    assert Bounded(next.shown, next.order, files, MAX_TOTAL_CHARS)
           && next.charsLeft + Total(next.shown, next.order) == MAX_TOTAL_CHARS by {
      AddSnapshot(now.shown, now.order, files, MAX_TOTAL_CHARS, t.path, s);
    }
  }

  lemma SpendKeepsReceipts(now: Spending, t: Retrieved, s: Snapshot)
    requires Receipts(now) && t.path !in now.shown
    requires 0 < t.start <= t.end && s.visible <= WindowOf(s.original, t.start, t.end)
    requires t.reservation <= now.tokensLeft && |s.visible| <= now.charsLeft
    requires t.reservation == RenderedBytes(t.path, t.start, t.end, s) + 2
    ensures Receipts(Spend(now, t, s))
  {
    forall i | 0 <= i < |now.trace| + 1
      ensures var u := (now.trace + [t])[i];
        && u.path in now.shown[t.path := s] && 0 < u.start <= u.end
        && now.shown[t.path := s][u.path].visible <= WindowOf(now.shown[t.path := s][u.path].original, u.start, u.end)
        && u.reservation == RenderedBytes(u.path, u.start, u.end, now.shown[t.path := s][u.path]) + 2
    {
      assert i < |now.trace| ==> now.trace[i].path in now.shown;
    }
  }

  /** One hit, with room for it: its excerpt and what that costs, which is never more than is left. */
  method Offer(files: map<string, string>, h: Hit, lines: nat, now: Spending) returns (taken: Option<Snapshot>, t: Retrieved)
    requires Indexed(h, lines) && lines > 0 && Room(now, h) > 0 && now.tokensLeft <= MAX_TOKEN_BUDGET
    ensures taken.Some? <==> AsIndexed(files, h)
    ensures taken.Some? ==> Honest(taken.value, files, h.path) && Relevant(taken.value, h)
    ensures taken.Some? ==>
      && t.path == h.path && 0 < t.start && t.end == t.start + lines - 1
      && taken.value.visible <= WindowOf(h.content, t.start, t.end)
      && t.reservation == RenderedBytes(t.path, t.start, t.end, taken.value) + 2
      && t.reservation <= now.tokensLeft && |taken.value.visible| <= now.charsLeft
  {
    var start;
    taken, start := Excerpt(files, h, lines, Room(now, h));
    t := Retrieved(h.path, start, start + lines - 1, 0);
    if taken.Some? {
      OverheadSuffices(h.path, t.start, t.end, taken.value);
      t := t.(reservation := RenderedBytes(h.path, t.start, t.end, taken.value) + 2);
    }
  }

  /** After `n` hits: the accounts balance, the right hits are shown, and the flag says whether one was flagged. */
  ghost predicate Underway(files: map<string, string>, hits: seq<Hit>, n: nat, context: map<string, Snapshot>,
                           order: seq<string>, tokenBudget: nat, now: Spending, limited: bool)
    requires n <= |hits|
  {
    && Balanced(files, order, tokenBudget, now) && Receipts(now)
    && Enriched(hits, n, context, now.shown) && Complete(files, hits, n, now.shown)
    && (limited <==> SomeFlagged(files, hits, n))
  }

  lemma TakeHit(files: map<string, string>, hits: seq<Hit>, n: nat, context: map<string, Snapshot>, order: seq<string>,
                tokenBudget: nat, now: Spending, limited: bool, t: Retrieved, s: Snapshot, lines: nat)
    requires n < |hits| && Fresh(hits, context, lines) && Underway(files, hits, n, context, order, tokenBudget, now, limited)
    requires AsIndexed(files, hits[n]) && !hits[n].flagged && Honest(s, files, hits[n].path) && Relevant(s, hits[n])
    requires t.path == hits[n].path && t.reservation == RenderedBytes(t.path, t.start, t.end, s) + 2
    requires 0 < t.start <= t.end && s.visible <= WindowOf(s.original, t.start, t.end)
    requires t.reservation <= now.tokensLeft && |s.visible| <= now.charsLeft
    ensures Underway(files, hits, n + 1, context, order, tokenBudget, Spend(now, t, s), limited)
  {
    ShowHit(files, hits, n, context, now.shown, s, lines);
    SpendKeepsBalance(files, order, tokenBudget, now, t, s);
    SpendKeepsReceipts(now, t, s);
  }

  lemma SkipHit(files: map<string, string>, hits: seq<Hit>, n: nat, context: map<string, Snapshot>, order: seq<string>,
                tokenBudget: nat, now: Spending, limited: bool)
    requires n < |hits| && Underway(files, hits, n, context, order, tokenBudget, now, limited)
    requires !AsIndexed(files, hits[n]) || hits[n].flagged
    ensures Underway(files, hits, n + 1, context, order, tokenBudget, now, limited || AsIndexed(files, hits[n]))
  {
    PassOver(files, hits, n, context, now.shown);
  }

  /**
   The budget loop of `retrieve`, on top of what was collected before.  Of the
   `looked` hits it gets to, only changed and flagged ones are left out: the check of
   the exact size never is the reason.
   */
  method Retrieve(files: map<string, string>, hits: seq<Hit>, context: map<string, Snapshot>, order: seq<string>,
                  lines: nat, tokenBudget: nat)
    returns (now: Spending, limited: bool, ghost looked: nat)
    requires Bounded(context, order, files, MAX_TOTAL_CHARS) && Fresh(hits, context, lines)
    requires lines > 0 && tokenBudget <= MAX_TOKEN_BUDGET
    ensures Balanced(files, order, tokenBudget, now) && Receipts(now)
    ensures looked <= |hits| && Enriched(hits, looked, context, now.shown) && Complete(files, hits, looked, now.shown)
    ensures looked < |hits| ==> Room(now, hits[looked]) == 0
    ensures limited <==> looked < |hits| || SomeFlagged(files, hits, looked)
  {
    now := Spending(context, order, [], MAX_TOTAL_CHARS - Total(context, order), tokenBudget);
    limited, looked := false, 0;
    NothingSpent(files, hits, context, order, lines, tokenBudget);
    for n := 0 to |hits|
      invariant looked == n && Underway(files, hits, n, context, order, tokenBudget, now, limited)
    {
      if Room(now, hits[n]) == 0 {
        limited := true;
        break;
      }
      now, limited := LookAt(files, hits, n, context, order, lines, tokenBudget, now, limited);
      looked := n + 1;
    }
  }

  lemma NothingSpent(files: map<string, string>, hits: seq<Hit>, context: map<string, Snapshot>, order: seq<string>,
                     lines: nat, tokenBudget: nat)
    requires Bounded(context, order, files, MAX_TOTAL_CHARS) && Fresh(hits, context, lines)
    ensures Underway(files, hits, 0, context, order, tokenBudget,
                     Spending(context, order, [], MAX_TOTAL_CHARS - Total(context, order), tokenBudget), false)
  {
    assert order + [] == order;
  }

  /** One round of the loop, for a hit with room. */
  method LookAt(files: map<string, string>, hits: seq<Hit>, n: nat, ghost context: map<string, Snapshot>,
                ghost order: seq<string>, lines: nat, ghost tokenBudget: nat, now: Spending, limited: bool)
    returns (now': Spending, limited': bool)
    requires n < |hits| && Fresh(hits, context, lines) && lines > 0 && tokenBudget <= MAX_TOKEN_BUDGET
    requires Underway(files, hits, n, context, order, tokenBudget, now, limited) && Room(now, hits[n]) > 0
    ensures Underway(files, hits, n + 1, context, order, tokenBudget, now', limited')
  {
    var taken, t := Offer(files, hits[n], lines, now);
    if taken.None? {
      SkipHit(files, hits, n, context, order, tokenBudget, now, limited);
      return now, limited;
    }
    if t.reservation > now.tokensLeft || hits[n].flagged {
      SkipHit(files, hits, n, context, order, tokenBudget, now, limited);
      return now, true;
    }
    TakeHit(files, hits, n, context, order, tokenBudget, now, limited, t, taken.value, lines);
    return Spend(now, t, taken.value), limited;
  }
}
