/**
 `Redactors::redact`: every rule's matches on the original text are merged by
 interval union, and each merged interval is replaced by one label.

 The reference is pointwise.  A byte is covered when some match contains it; the
 seam before a byte is bridged when some match contains the byte on either side.
 A maximal run of covered bytes joined by bridged seams is one connected
 component of overlapping matches.
 */
module Redaction {

  import opened Basics

  const SECRET := "[REDACTED_SECRET]"

  datatype Span = Span(start: nat, end: nat, tag: string)

  /** What the regex engine promises about its non-empty matches. */
  predicate ProperSpans(n: nat, spans: seq<Span>) {
    forall i :: 0 <= i < |spans| ==> spans[i].start < spans[i].end <= n
  }

  // ---------------------------------------------------------------- reference

  ghost predicate Covered(spans: seq<Span>, i: nat) {
    exists p :: p in spans && p.start <= i < p.end
  }

  ghost predicate Bridged(spans: seq<Span>, i: nat) {
    exists p :: p in spans && p.start < i < p.end
  }

  /** The component that contains byte `i` ends at the first unbridged seam after it. */
  ghost function ComponentEnd(n: nat, spans: seq<Span>, i: nat): (e: nat)
    requires i < n && ProperSpans(n, spans)
    ensures i < e <= n && !Bridged(spans, e)
    ensures forall j :: i < j < e ==> Bridged(spans, j)
    decreases n - i
  {
    if i + 1 == n || !Bridged(spans, i + 1) then i + 1 else ComponentEnd(n, spans, i + 1)
  }

  ghost predicate HasSecret(spans: seq<Span>, s: nat, e: nat) {
    exists p :: p in spans && p.tag == SECRET && s <= p.start < e
  }

  /** The longest match that starts at `s`; the earliest rule wins a tie. */
  ghost function Lead(spans: seq<Span>, s: nat): (r: Option<Span>)
    ensures r.None? <==> forall p :: p in spans ==> p.start != s
    ensures r.Some? ==> r.value in spans && r.value.start == s
    ensures r.Some? ==> forall p :: p in spans && p.start == s ==> p.end <= r.value.end
  {
    if spans == [] then None
    else
      var rest := Lead(spans[1..], s);
      assert forall p :: p in spans <==> p == spans[0] || p in spans[1..];
      if spans[0].start == s && (rest.None? || spans[0].end >= rest.value.end) then Some(spans[0]) else rest
  }

  ghost function Label(n: nat, spans: seq<Span>, s: nat): string
    requires s < n && ProperSpans(n, spans)
  {
    if HasSecret(spans, s, ComponentEnd(n, spans, s)) then SECRET
    else if Lead(spans, s).Some? then Lead(spans, s).value.tag else ""
  }

  /** What byte `i` contributes: itself, one label per component, or nothing. */
  ghost function Emit(text: string, spans: seq<Span>, i: nat): string
    requires i < |text| && ProperSpans(|text|, spans)
  {
    if !Covered(spans, i) then [text[i]]
    else if Bridged(spans, i) then ""
    else Label(|text|, spans, i)
  }

  ghost predicate Explains(text: string, spans: seq<Span>, parts: seq<string>)
    requires ProperSpans(|text|, spans)
  {
    |parts| == |text| && forall i {:trigger Emit(text, spans, i)} :: 0 <= i < |text| ==> parts[i] == Emit(text, spans, i)
  }

  /** The reference output: what every byte contributes, in order. */
  ghost function Reference(text: string, spans: seq<Span>): string
    requires ProperSpans(|text|, spans)
  {
    Flat(seq(|text|, i requires 0 <= i < |text| => Emit(text, spans, i)))
  }

  /** A component starts where some match starts, so its label is never missing. */
  lemma ComponentStartHasLead(n: nat, spans: seq<Span>, s: nat)
    requires s < n && ProperSpans(n, spans)
    requires Covered(spans, s) && !Bridged(spans, s)
    ensures Lead(spans, s).Some?
  {
    var p :| p in spans && p.start <= s < p.end;
    assert p.start == s;
  }

  /** Bytes that contribute themselves come through unchanged. */
  lemma {:induction false} Untouched(text: string, parts: seq<string>, lo: nat, hi: nat)
    requires lo <= hi <= |text| == |parts|
    requires forall i :: lo <= i < hi ==> parts[i] == [text[i]]
    ensures Flat(parts[..hi]) == Flat(parts[..lo]) + text[lo..hi]
    decreases hi
  {
    if lo < hi {
      Untouched(text, parts, lo, hi - 1);
      assert parts[..hi][..hi - 1] == parts[..hi - 1];
    }
  }

  lemma {:induction false} Silent(parts: seq<string>, lo: nat, hi: nat)
    requires lo <= hi <= |parts|
    requires forall i :: lo <= i < hi ==> parts[i] == ""
    ensures Flat(parts[..hi]) == Flat(parts[..lo])
    decreases hi
  {
    if lo < hi {
      Silent(parts, lo, hi - 1);
      assert parts[..hi][..hi - 1] == parts[..hi - 1];
    }
  }

  /** Closing a component appends exactly what its bytes and the gap before it contribute. */
  lemma CloseParts(text: string, parts: seq<string>, cursor: nat, s: nat, e: nat)
    requires cursor <= s < e <= |text| == |parts|
    requires forall i :: cursor <= i < s ==> parts[i] == [text[i]]
    requires forall i :: s < i < e ==> parts[i] == ""
    ensures Flat(parts[..e]) == Flat(parts[..cursor]) + text[cursor..s] + parts[s]
  {
    Untouched(text, parts, cursor, s);
    Silent(parts, s + 1, e);
    assert parts[..s + 1][..s] == parts[..s];
  }

  /**
   Rule order matters only for a component without a secret, and there only for
   which of two longest matches, with the same extent, names the label.
   */
  lemma RuleOrderOnlyPicksAmongEqualSpans(text: string, spans: seq<Span>, reordered: seq<Span>, i: nat)
    requires ProperSpans(|text|, spans) && ProperSpans(|text|, reordered)
    requires forall p :: p in spans <==> p in reordered
    requires i < |text|
    ensures Emit(text, spans, i) == Emit(text, reordered, i) ||
            (var a, b := Lead(spans, i), Lead(reordered, i);
             && a.Some? && b.Some? && a.value.start == b.value.start == i && a.value.end == b.value.end
             && a.value.tag != SECRET && b.value.tag != SECRET
             && Emit(text, spans, i) == a.value.tag && Emit(text, reordered, i) == b.value.tag)
  {
    assert Covered(spans, i) <==> Covered(reordered, i);
    assert forall j: nat :: Bridged(spans, j) <==> Bridged(reordered, j);
    if Covered(spans, i) && !Bridged(spans, i) {
      ComponentStartHasLead(|text|, spans, i);
      ComponentStartHasLead(|text|, reordered, i);
      var e, e' := ComponentEnd(|text|, spans, i), ComponentEnd(|text|, reordered, i);
      assert e == e' by {
        assert !Bridged(spans, e) && !Bridged(reordered, e');
      }
      assert HasSecret(spans, i, e) <==> HasSecret(reordered, i, e);
    }
  }

  // ---------------------------------------------------------------- the same in terms of the matches found

  /** `found[k]` starts at `s`, is the longest there, and the first of those. */
  ghost predicate Names(found: seq<Span>, s: nat, k: nat) {
    && k < |found| && found[k].start == s && found[k].start != found[k].end
    && forall j :: 0 <= j < |found| && found[j].start == s && found[j].start != found[j].end ==>
         found[j].end < found[k].end || (found[j].end == found[k].end && k <= j)
  }

  lemma {:induction false} LeadSnoc(spans: seq<Span>, p: Span, s: nat)
    ensures Lead(spans + [p], s) ==
      (var prior := Lead(spans, s); if p.start == s && (prior.None? || p.end > prior.value.end) then Some(p) else prior)
  {
    if spans == [] {
      assert [] + [p] == [p];
    } else {
      LeadSnoc(spans[1..], p, s);
      assert (spans + [p])[1..] == spans[1..] + [p];
    }
  }

  /** The lead is the longest match that starts there; of several, that of the earliest rule. */
  lemma {:induction false} LeadIsNamed(found: seq<Span>, s: nat) returns (k: nat)
    requires Lead(NonEmpty(found), s).Some?
    ensures Names(found, s, k) && Lead(NonEmpty(found), s) == Some(found[k])
  {
    var n := |found| - 1;
    var prior, last := NonEmpty(found[..n]), found[n];
    LeadOfOneMore(found, s);
    if Lead(prior, s).None? {
      k := n;
      NoneBefore(found, n, s);
    } else {
      k := LeadIsNamed(found[..n], s);
      if last.start == s && last.start != last.end && last.end > found[k].end {
        NamedAnew(found, s, k);
        k := n;
      } else {
        StillNamed(found, s, k);
      }
    }
  }

  lemma LeadOfOneMore(found: seq<Span>, s: nat)
    requires found != []
    ensures var n := |found| - 1; var prior, p := Lead(NonEmpty(found[..n]), s), found[n];
      Lead(NonEmpty(found), s) ==
        if p.start == s && p.start != p.end && (prior.None? || p.end > prior.value.end) then Some(p) else prior
  {
    var n := |found| - 1;
    if found[n].start != found[n].end {
      LeadSnoc(NonEmpty(found[..n]), found[n], s);
    } else {
      assert NonEmpty(found[..n]) + [] == NonEmpty(found[..n]);
    }
  }

  lemma StillNamed(found: seq<Span>, s: nat, k: nat)
    requires found != [] && Names(found[..|found| - 1], s, k)
    requires var p := found[|found| - 1]; !(p.start == s && p.start != p.end && p.end > found[k].end)
    ensures Names(found, s, k)
  {
    forall j | 0 <= j < |found| - 1 && found[j].start == s && found[j].start != found[j].end
      ensures found[j].end < found[k].end || (found[j].end == found[k].end && k <= j)
    {
      assert found[..|found| - 1][j] == found[j];
    }
  }

  lemma NamedAnew(found: seq<Span>, s: nat, k: nat)
    requires found != [] && Names(found[..|found| - 1], s, k)
    requires var p := found[|found| - 1]; p.start == s && p.start != p.end && p.end > found[k].end
    ensures Names(found, s, |found| - 1)
  {
    forall j | 0 <= j < |found| - 1 && found[j].start == s && found[j].start != found[j].end
      ensures found[j].end < found[|found| - 1].end
    {
      assert found[..|found| - 1][j] == found[j];
    }
  }

  lemma NoneBefore(found: seq<Span>, n: nat, s: nat)
    requires n < |found| && Lead(NonEmpty(found[..n]), s).None?
    ensures forall j :: 0 <= j < n && found[j].start == s ==> found[j].start == found[j].end
  {
    forall j | 0 <= j < n && found[j].start == s ensures found[j].start == found[j].end {
      assert found[..n][j] == found[j] && found[j] in found[..n];
    }
  }

  /** Some match contains byte `i`; some match contains the bytes on both sides of the seam before it. */
  ghost predicate Inside(found: seq<Span>, i: nat) {
    exists p :: p in found && p.start <= i < p.end
  }

  ghost predicate Across(found: seq<Span>, i: nat) {
    exists p :: p in found && p.start < i < p.end
  }

  /** The component that starts at `s` ends at `e`: the first seam after `s` that no match reaches across. */
  ghost predicate Component(found: seq<Span>, s: nat, e: nat) {
    s < e && !Across(found, e) && forall j :: s < j < e ==> Across(found, j)
  }

  lemma SameSeams(found: seq<Span>, i: nat)
    ensures Covered(NonEmpty(found), i) <==> Inside(found, i)
    ensures Bridged(NonEmpty(found), i) <==> Across(found, i)
  {
  }

  lemma ComponentFound(n: nat, found: seq<Span>, s: nat) returns (e: nat)
    requires s < n && ProperSpans(n, NonEmpty(found))
    ensures e == ComponentEnd(n, NonEmpty(found), s) && Component(found, s, e)
  {
    e := ComponentEnd(n, NonEmpty(found), s);
    SameSeams(found, e);
    forall j | s < j < e ensures Across(found, j) {
      SameSeams(found, j);
    }
  }

  ghost predicate SecretFound(found: seq<Span>, s: nat, e: nat) {
    exists p :: p in found && p.start != p.end && p.tag == "[REDACTED_SECRET]" && s <= p.start < e
  }

  /**
   Byte by byte, from the matches as they were found: outside all of them a byte stays; at the start of a
   component stands its label; the rest of the component is gone.
   */
  lemma WhatAByteBecomes(text: string, found: seq<Span>, i: nat) returns (e: nat, k: nat)
    requires i < |text| && forall j :: 0 <= j < |found| ==> found[j].start <= found[j].end <= |text|
    ensures ProperSpans(|text|, NonEmpty(found))
    ensures !Inside(found, i) ==> Emit(text, NonEmpty(found), i) == [text[i]]
    ensures Across(found, i) ==> Emit(text, NonEmpty(found), i) == ""
    ensures Inside(found, i) && !Across(found, i) ==>
      && Component(found, i, e) && Names(found, i, k)
      && Emit(text, NonEmpty(found), i) == if SecretFound(found, i, e) then "[REDACTED_SECRET]" else found[k].tag
  {
    var spans := NonEmpty(found);
    NonEmptyAreProper(|text|, found);
    SameSeams(found, i);
    e, k := 0, 0;
    if Inside(found, i) && !Across(found, i) {
      e := ComponentFound(|text|, found, i);
      ComponentStartHasLead(|text|, spans, i);
      k := LeadIsNamed(found, i);
      SameSecret(found, i, e);
    }
  }

  lemma SameSecret(found: seq<Span>, s: nat, e: nat)
    ensures HasSecret(NonEmpty(found), s, e) <==> SecretFound(found, s, e)
  {
  }

  // ---------------------------------------------------------------- stable sort

  predicate Before(p: Span, q: Span) {
    p.start < q.start || (p.start == q.start && p.end >= q.end)
  }

  ghost predicate Sorted(spans: seq<Span>) {
    forall i, j :: 0 <= i < j < |spans| ==> Before(spans[i], spans[j])
  }

  function Insert(p: Span, sorted: seq<Span>): (r: seq<Span>)
    requires Sorted(sorted)
    ensures Sorted(r) && forall q :: q in r <==> q == p || q in sorted
  {
    if sorted == [] || Before(p, sorted[0]) then [p] + sorted
    else
      var rest := Insert(p, sorted[1..]);
      assert forall q :: q in sorted <==> q == sorted[0] || q in sorted[1..];
      assert forall q :: q in rest ==> Before(sorted[0], q);
      [sorted[0]] + rest
  }

  /** Stable sort by start, longest first. */
  function Sort(spans: seq<Span>): (r: seq<Span>)
    ensures Sorted(r) && forall q :: q in r <==> q in spans
  {
    if spans == [] then []
    else
      assert forall q :: q in spans <==> q == spans[0] || q in spans[1..];
      Insert(spans[0], Sort(spans[1..]))
  }

  ghost function First(spans: seq<Span>, s: nat): Option<Span> {
    if spans == [] then None else if spans[0].start == s then Some(spans[0]) else First(spans[1..], s)
  }

  lemma {:induction false} FirstAfterInsert(p: Span, sorted: seq<Span>, s: nat)
    requires Sorted(sorted)
    ensures First(Insert(p, sorted), s) ==
            (var prior := First(sorted, s);
             if p.start == s && (prior.None? || p.end >= prior.value.end) then Some(p) else prior)
  {
    if sorted == [] {
    } else if Before(p, sorted[0]) {
      FirstIsInside(sorted, s);
      assert ([p] + sorted)[1..] == sorted;
    } else {
      FirstAfterInsert(p, sorted[1..], s);
      var r := [sorted[0]] + Insert(p, sorted[1..]);
      assert r[1..] == Insert(p, sorted[1..]);
      FirstIsInside(sorted[1..], s);
    }
  }

  lemma {:induction false} FirstIsInside(spans: seq<Span>, s: nat)
    ensures First(spans, s).Some? ==> First(spans, s).value in spans && First(spans, s).value.start == s
  {
    if spans != [] { FirstIsInside(spans[1..], s); }
  }

  /** Stability: the head of a start's run in sorted order is the reference's choice. */
  lemma {:induction false} SortedHeadIsLead(spans: seq<Span>, s: nat)
    ensures First(Sort(spans), s) == Lead(spans, s)
  {
    if spans != [] {
      SortedHeadIsLead(spans[1..], s);
      FirstAfterInsert(spans[0], Sort(spans[1..]), s);
    }
  }

  lemma {:induction false} FirstAt(spans: seq<Span>, k: nat)
    requires k < |spans| && forall j :: 0 <= j < k ==> spans[j].start != spans[k].start
    ensures First(spans, spans[k].start) == Some(spans[k])
  {
    if k > 0 { FirstAt(spans[1..], k - 1); }
  }

  // ---------------------------------------------------------------- the merge loop

  ghost predicate SameSpans(sorted: seq<Span>, spans: seq<Span>) {
    forall p :: p in sorted <==> p in spans
  }

  ghost predicate HeadedByLead(spans: seq<Span>, sorted: seq<Span>, s: nat) {
    First(sorted, s) == Lead(spans, s)
  }

  /** All that the loop needs to know about the sort. */
  ghost predicate Arranged(n: nat, spans: seq<Span>, sorted: seq<Span>) {
    && Sorted(sorted) && SameSpans(sorted, spans) && ProperSpans(n, sorted)
    && forall s {:trigger HeadedByLead(spans, sorted, s)} :: HeadedByLead(spans, sorted, s)
  }

  ghost predicate BridgedBy(sorted: seq<Span>, k: nat, i: nat)
    requires k <= |sorted|
  {
    exists j :: 0 <= j < k && sorted[j].start < i < sorted[j].end
  }

  /** `sorted[..k]` has been read; it forms closed components up to `cursor` and one open interval. */
  ghost predicate Progress(n: nat, parts: seq<string>, spans: seq<Span>, sorted: seq<Span>, k: nat,
                           cursor: nat, m: Option<Span>, out: string)
  {
    && cursor <= n == |parts|
    && out == Flat(parts[..cursor])
    && (m.None? ==> k == 0 && cursor == 0)
    && (m.Some? ==> Merging(spans, sorted, k, cursor, m.value) && m.value.end <= n)
  }

  ghost predicate Merging(spans: seq<Span>, sorted: seq<Span>, k: nat, cursor: nat, m: Span) {
    && k <= |sorted|
    && cursor <= m.start < m.end
    && (forall j :: 0 <= j < k ==> sorted[j].end <= cursor || (m.start <= sorted[j].start && sorted[j].end <= m.end))
    && (forall j :: k <= j < |sorted| ==> m.start <= sorted[j].start)
    && (forall i :: m.start < i < m.end ==> BridgedBy(sorted, k, i))
    && Lead(spans, m.start).Some?
    && m.tag == OpenLabel(spans, sorted, k, m.start)
  }

  ghost function OpenLabel(spans: seq<Span>, sorted: seq<Span>, k: nat, s: nat): string
    requires k <= |sorted| && Lead(spans, s).Some?
  {
    if exists j :: 0 <= j < k && s <= sorted[j].start && sorted[j].tag == SECRET then SECRET
    else Lead(spans, s).value.tag
  }

  /** Once no later match reaches into it, the open interval is exactly a component. */
  lemma OpenIntervalIsComponent(n: nat, spans: seq<Span>, sorted: seq<Span>, k: nat, cursor: nat, m: Span)
    requires ProperSpans(n, spans) && SameSpans(sorted, spans)
    requires Merging(spans, sorted, k, cursor, m) && m.end <= n
    requires forall j :: k <= j < |sorted| ==> m.end <= sorted[j].start
    ensures forall i :: cursor <= i < m.start ==> !Covered(spans, i)
    ensures Covered(spans, m.start) && !Bridged(spans, m.start)
    ensures forall i :: m.start < i < m.end ==> Covered(spans, i) && Bridged(spans, i)
    ensures ComponentEnd(n, spans, m.start) == m.end
  {
    forall i | m.start < i < m.end ensures Covered(spans, i) && Bridged(spans, i) {
      assert BridgedBy(sorted, k, i);
      var j :| 0 <= j < k && sorted[j].start < i < sorted[j].end;
      assert sorted[j] in spans;
    }
    assert forall p :: p in spans ==> p in sorted;
    assert Lead(spans, m.start).value in spans;
    assert !Bridged(spans, m.end) && !Bridged(spans, ComponentEnd(n, spans, m.start));
  }

  lemma OpenLabelIsLabel(n: nat, spans: seq<Span>, sorted: seq<Span>, k: nat, s: nat, e: nat)
    requires ProperSpans(n, spans) && SameSpans(sorted, spans)
    requires k <= |sorted| && s < e <= n && e == ComponentEnd(n, spans, s) && Lead(spans, s).Some?
    requires forall j :: 0 <= j < k && s <= sorted[j].start ==> sorted[j].start < e
    requires forall j :: k <= j < |sorted| ==> e <= sorted[j].start
    ensures Label(n, spans, s) == OpenLabel(spans, sorted, k, s)
  {
    if HasSecret(spans, s, e) {
      var p :| p in spans && p.tag == SECRET && s <= p.start < e;
      assert p in sorted;
    }
    if j :| 0 <= j < k && s <= sorted[j].start && sorted[j].tag == SECRET {
      assert sorted[j] in sorted;
    }
  }

  lemma Close(text: string, spans: seq<Span>, parts: seq<string>, sorted: seq<Span>, k: nat, cursor: nat, m: Span)
    requires ProperSpans(|text|, spans) && Explains(text, spans, parts)
    requires SameSpans(sorted, spans) && ProperSpans(|text|, sorted) && Sorted(sorted)
    requires Merging(spans, sorted, k, cursor, m) && m.end <= |text|
    requires k < |sorted| ==> m.end <= sorted[k].start
    ensures Flat(parts[..m.end]) == Flat(parts[..cursor]) + text[cursor..m.start] + m.tag
    ensures forall j :: 0 <= j < k ==> sorted[j].end <= m.end
  {
    PartsOfComponent(text, spans, parts, sorted, k, cursor, m);
    CloseParts(text, parts, cursor, m.start, m.end);
  }

  /** The bytes before the open interval stand for themselves, its first one for the label, the rest for nothing. */
  lemma PartsOfComponent(text: string, spans: seq<Span>, parts: seq<string>, sorted: seq<Span>, k: nat, cursor: nat, m: Span)
    requires ProperSpans(|text|, spans) && Explains(text, spans, parts)
    requires SameSpans(sorted, spans) && ProperSpans(|text|, sorted) && Sorted(sorted)
    requires Merging(spans, sorted, k, cursor, m) && m.end <= |text|
    requires k < |sorted| ==> m.end <= sorted[k].start
    ensures forall i :: cursor <= i < m.start ==> parts[i] == [text[i]]
    ensures parts[m.start] == m.tag
    ensures forall i :: m.start < i < m.end ==> parts[i] == ""
  {
    LaterStartLater(sorted, k, m.end);
    OpenIntervalIsComponent(|text|, spans, sorted, k, cursor, m);
    OpenLabelIsLabel(|text|, spans, sorted, k, m.start, m.end);
    assert parts[m.start] == Emit(text, spans, m.start);
    forall i | cursor <= i < m.start ensures parts[i] == [text[i]] {
      assert parts[i] == Emit(text, spans, i);
    }
    forall i | m.start < i < m.end ensures parts[i] == "" {
      assert parts[i] == Emit(text, spans, i);
    }
  }

  lemma LaterStartLater(sorted: seq<Span>, k: nat, e: nat)
    requires Sorted(sorted) && (k < |sorted| ==> e <= sorted[k].start)
    ensures forall j :: k <= j < |sorted| ==> e <= sorted[j].start
  {
    forall j | k <= j < |sorted| ensures e <= sorted[j].start {
      assert k < j ==> Before(sorted[k], sorted[j]);
    }
  }

  /** An overlapping match extends the open interval and keeps it bridged. */
  lemma Extend(n: nat, spans: seq<Span>, sorted: seq<Span>, k: nat, cursor: nat, m: Span, m': Span)
    requires ProperSpans(n, sorted) && Sorted(sorted)
    requires k < |sorted| && Merging(spans, sorted, k, cursor, m)
    requires sorted[k].start < m.end
    requires m' == Span(m.start, if m.end < sorted[k].end then sorted[k].end else m.end,
                        if sorted[k].tag == SECRET then SECRET else m.tag)
    ensures Merging(spans, sorted, k + 1, cursor, m')
  {
    var p := sorted[k];
    var k' := k + 1;
    forall i | m'.start < i < m'.end ensures BridgedBy(sorted, k', i) {
      if i < m.end {
        assert BridgedBy(sorted, k, i);
      } else {
        assert sorted[k].start < i < sorted[k].end;
      }
    }
  }

  /** The first match past every open interval starts a new one. */
  lemma Open(n: nat, spans: seq<Span>, sorted: seq<Span>, k: nat, cursor: nat)
    requires ProperSpans(n, sorted) && Sorted(sorted)
    requires k < |sorted| && HeadedByLead(spans, sorted, sorted[k].start)
    requires forall j :: 0 <= j < k ==> sorted[j].end <= cursor
    requires cursor <= sorted[k].start
    ensures Merging(spans, sorted, k + 1, cursor, sorted[k])
  {
    var p := sorted[k];
    FirstAt(sorted, k);
    var k' := k + 1;
    forall i | p.start < i < p.end ensures BridgedBy(sorted, k', i) {
      assert sorted[k].start < i < sorted[k].end;
    }
    if j :| 0 <= j < k + 1 && p.start <= sorted[j].start && sorted[j].tag == SECRET {
      assert j == k;
    }
  }

  /** The non-empty matches, in rule order. */
  function NonEmpty(found: seq<Span>): (spans: seq<Span>)
    ensures forall p :: p in spans <==> p in found && p.start != p.end
  {
    if found == [] then []
    else
      var last := found[|found| - 1];
      assert found == found[..|found| - 1] + [last];
      NonEmpty(found[..|found| - 1]) + if last.start != last.end then [last] else []
  }

  method Filter(found: seq<Span>) returns (spans: seq<Span>)
    ensures spans == NonEmpty(found)
  {
    spans := [];
    for i := 0 to |found|
      invariant spans == NonEmpty(found[..i])
    {
      assert found[..i + 1][..i] == found[..i];
      if found[i].start != found[i].end {
        spans := spans + [found[i]];
      }
    }
    assert found[..|found|] == found;
  }

  lemma NonEmptyAreProper(n: nat, found: seq<Span>)
    requires forall i :: 0 <= i < |found| ==> found[i].start <= found[i].end <= n
    ensures ProperSpans(n, NonEmpty(found))
  {
    var spans := NonEmpty(found);
    forall i | 0 <= i < |spans| ensures spans[i].start < spans[i].end <= n {
      assert spans[i] in spans;
    }
  }

  /** `found` lists every rule's matches on the text, rule by rule. */
  method Redact(text: string, found: seq<Span>) returns (out: string)
    requires forall i :: 0 <= i < |found| ==> found[i].start <= found[i].end <= |text|
    ensures ProperSpans(|text|, NonEmpty(found)) && out == Reference(text, NonEmpty(found))
  {
    var spans := Filter(found);
    NonEmptyAreProper(|text|, found);
    ghost var parts := seq(|text|, i requires 0 <= i < |text| => Emit(text, spans, i));
    if spans == [] {
      forall i | 0 <= i < |text| ensures parts[i] == [text[i]] {
        assert parts[i] == Emit(text, spans, i);
      }
      Untouched(text, parts, 0, |text|);
      assert parts[..|text|] == parts && text[0..|text|] == text;
      return text;
    }
    out := MergeAndCut(text, spans, parts);
  }

  method SortSpans(n: nat, spans: seq<Span>) returns (sorted: seq<Span>)
    requires ProperSpans(n, spans)
    ensures Arranged(n, spans, sorted) && (spans != [] ==> sorted != [])
  {
    sorted := Sort(spans);
    assert spans != [] ==> spans[0] in sorted;
    forall i | 0 <= i < |sorted| ensures sorted[i].start < sorted[i].end <= n {
      assert sorted[i] in sorted;
      var j :| 0 <= j < |spans| && spans[j] == sorted[i];
    }
    forall s ensures HeadedByLead(spans, sorted, s) {
      SortedHeadIsLead(spans, s);
    }
  }

  /** One pass of the loop: widen the open interval, or flush it and open the next. */
  method Absorb(text: string, ghost spans: seq<Span>, ghost parts: seq<string>, sorted: seq<Span>, k: nat,
                cursor: nat, merged: Option<Span>, out: string)
    returns (cursor': nat, merged': Option<Span>, out': string)
    requires ProperSpans(|text|, spans) && Explains(text, spans, parts) && k < |sorted|
    requires Arranged(|text|, spans, sorted) && Progress(|text|, parts, spans, sorted, k, cursor, merged, out)
    ensures merged'.Some? && Progress(|text|, parts, spans, sorted, k + 1, cursor', merged', out')
  {
    var p := sorted[k];
    cursor', out' := cursor, out;
    if merged.Some? && p.start < merged.value.end {
      var m := merged.value;
      var m' := Span(m.start, if m.end < p.end then p.end else m.end, if p.tag == SECRET then SECRET else m.tag);
      Extend(|text|, spans, sorted, k, cursor, m, m');
      return cursor, Some(m'), out;
    }
    if merged.Some? {
      var m := merged.value;
      Close(text, spans, parts, sorted, k, cursor, m);
      out' := out + text[cursor..m.start] + m.tag;
      cursor' := m.end;
    }
    Open(|text|, spans, sorted, k, cursor');
    merged' := Some(p);
  }

  method Finish(text: string, ghost spans: seq<Span>, ghost parts: seq<string>, ghost sorted: seq<Span>,
                cursor: nat, m: Span, out: string)
    returns (out': string)
    requires ProperSpans(|text|, spans) && Explains(text, spans, parts)
    requires Arranged(|text|, spans, sorted) && Progress(|text|, parts, spans, sorted, |sorted|, cursor, Some(m), out)
    ensures out' == Flat(parts)
  {
    Close(text, spans, parts, sorted, |sorted|, cursor, m);
    NothingAfter(text, spans, parts, sorted, m.end);
    out' := out + text[cursor..m.start] + m.tag + text[m.end..];
  }

  lemma NothingRead(n: nat, parts: seq<string>, spans: seq<Span>, sorted: seq<Span>)
    requires |parts| == n
    ensures Progress(n, parts, spans, sorted, 0, 0, None, "")
  {
    assert parts[..0] == [];
  }

  method MergeAll(text: string, ghost spans: seq<Span>, ghost parts: seq<string>, sorted: seq<Span>)
    returns (cursor: nat, merged: Option<Span>, out: string)
    requires ProperSpans(|text|, spans) && Explains(text, spans, parts)
    requires Arranged(|text|, spans, sorted) && sorted != []
    ensures merged.Some? && Progress(|text|, parts, spans, sorted, |sorted|, cursor, merged, out)
  {
    cursor, merged, out := 0, None, "";
    NothingRead(|text|, parts, spans, sorted);
    for k := 0 to |sorted|
      invariant Progress(|text|, parts, spans, sorted, k, cursor, merged, out)
      invariant merged.None? ==> k == 0
    {
      cursor, merged, out := Absorb(text, spans, parts, sorted, k, cursor, merged, out);
    }
  }

  method MergeAndCut(text: string, spans: seq<Span>, ghost parts: seq<string>) returns (out: string)
    requires ProperSpans(|text|, spans) && spans != [] && Explains(text, spans, parts)
    ensures out == Flat(parts)
  {
    var sorted := SortSpans(|text|, spans);
    var cursor, merged, pending := MergeAll(text, spans, parts, sorted);
    out := Finish(text, spans, parts, sorted, cursor, merged.value, pending);
  }

  lemma NothingAfter(text: string, spans: seq<Span>, parts: seq<string>, sorted: seq<Span>, cursor: nat)
    requires ProperSpans(|text|, spans) && Explains(text, spans, parts) && SameSpans(sorted, spans)
    requires cursor <= |text| && forall j :: 0 <= j < |sorted| ==> sorted[j].end <= cursor
    ensures Flat(parts) == Flat(parts[..cursor]) + text[cursor..]
  {
    forall i | cursor <= i < |text| ensures parts[i] == [text[i]] {
      assert forall p :: p in spans ==> p in sorted && p.end <= cursor;
      assert parts[i] == Emit(text, spans, i);
    }
    Untouched(text, parts, cursor, |text|);
    assert parts[..|text|] == parts;
  }
}
