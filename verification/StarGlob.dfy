/**
 The basename matcher of the denied-read list: `*` stands for any byte
 sequence, every other byte stands for itself.  The matcher backtracks to the
 last star only; this module shows that doing so loses no match.
 */
module StarGlob {

  import opened Basics

  const STAR: Byte := 42

  /** One chunk of the name per pattern byte; only a star may take anything. */
  ghost predicate Fits(chunks: seq<seq<Byte>>, pattern: seq<Byte>) {
    && |chunks| == |pattern|
    && forall i :: 0 <= i < |pattern| && pattern[i] != STAR ==> chunks[i] == [pattern[i]]
  }

  /** The documented relation: the name can be cut into chunks that fit the pattern. */
  ghost predicate Denotes(name: seq<Byte>, pattern: seq<Byte>) {
    exists chunks: seq<seq<Byte>> :: Fits(chunks, pattern) && Flat(chunks) == name
  }

  /** The same relation by recursion on the pattern, which the proofs follow. */
  ghost predicate Matches(name: seq<Byte>, pattern: seq<Byte>)
    decreases |pattern|
  {
    if pattern == [] then name == []
    else if pattern[0] == STAR then exists k :: 0 <= k <= |name| && Matches(name[k..], pattern[1..])
    else name != [] && name[0] == pattern[0] && Matches(name[1..], pattern[1..])
  }

  lemma {:induction false} ChunksMatch(chunks: seq<seq<Byte>>, pattern: seq<Byte>)
    requires Fits(chunks, pattern)
    ensures Matches(Flat(chunks), pattern)
    decreases |pattern|
  {
    if pattern != [] {
      ChunksMatch(chunks[1..], pattern[1..]);
      FlatCons(chunks[0], chunks[1..]);
      assert chunks == [chunks[0]] + chunks[1..];
      var name := Flat(chunks);
      assert name[|chunks[0]|..] == Flat(chunks[1..]);
    }
  }

  lemma {:induction false} MatchYieldsChunks(name: seq<Byte>, pattern: seq<Byte>) returns (chunks: seq<seq<Byte>>)
    requires Matches(name, pattern)
    ensures Fits(chunks, pattern) && Flat(chunks) == name
    decreases |pattern|
  {
    if pattern == [] {
      chunks := [];
    } else {
      var k := 1;
      if pattern[0] == STAR {
        k :| 0 <= k <= |name| && Matches(name[k..], pattern[1..]);
      }
      var rest := MatchYieldsChunks(name[k..], pattern[1..]);
      chunks := [name[..k]] + rest;
      FlatCons(name[..k], rest);
    }
  }

  lemma MatchesIsDenotes(name: seq<Byte>, pattern: seq<Byte>)
    ensures Matches(name, pattern) <==> Denotes(name, pattern)
  {
    if Matches(name, pattern) {
      var chunks := MatchYieldsChunks(name, pattern);
    }
    if Denotes(name, pattern) {
      var chunks: seq<seq<Byte>> :| Fits(chunks, pattern) && Flat(chunks) == name;
      ChunksMatch(chunks, pattern);
    }
  }

  /** A lone `*` takes any name. */
  lemma LoneStarMatchesAll(name: seq<Byte>)
    ensures Denotes(name, [42])
  {
    FlatOne(name);
    assert Fits([name], [42]);
  }

  /** A pattern without `*` takes itself and nothing else. */
  lemma LiteralMatchesItself(name: seq<Byte>, pattern: seq<Byte>)
    requires 42 !in pattern
    ensures Denotes(name, pattern) <==> name == pattern
  {
    LiteralRun(name, pattern, []);
    assert pattern + [] == pattern;
    MatchesIsDenotes(name, pattern);
  }

  lemma SplitsInTwo(name: seq<Byte>, p: seq<Byte>, q: seq<Byte>) returns (k: nat)
    requires Denotes(name, p + q)
    ensures k <= |name| && Denotes(name[..k], p) && Denotes(name[k..], q)
  {
    var chunks: seq<seq<Byte>> :| Fits(chunks, p + q) && Flat(chunks) == name;
    var a, b := chunks[..|p|], chunks[|p|..];
    FitsPart(chunks, p, q);
    FlatConcat(a, b);
    assert chunks == a + b;
    k := |Flat(a)|;
    assert name[..k] == Flat(a) && name[k..] == Flat(b);
  }

  lemma JoinsUp(a: seq<Byte>, b: seq<Byte>, p: seq<Byte>, q: seq<Byte>)
    requires Denotes(a, p) && Denotes(b, q)
    ensures Denotes(a + b, p + q)
  {
    var c: seq<seq<Byte>> :| Fits(c, p) && Flat(c) == a;
    var d: seq<seq<Byte>> :| Fits(d, q) && Flat(d) == b;
    FlatConcat(c, d);
    assert Fits(c + d, p + q);
  }

  /** A pattern made of two takes exactly the names made of two names that they take. */
  lemma DenotesConcat(name: seq<Byte>, p: seq<Byte>, q: seq<Byte>)
    ensures Denotes(name, p + q) <==> exists k :: 0 <= k <= |name| && Denotes(name[..k], p) && Denotes(name[k..], q)
  {
    if Denotes(name, p + q) {
      var k := SplitsInTwo(name, p, q);
    }
    if k :| 0 <= k <= |name| && Denotes(name[..k], p) && Denotes(name[k..], q) {
      JoinsUp(name[..k], name[k..], p, q);
      assert name == name[..k] + name[k..];
    }
  }

  lemma FitsPart(chunks: seq<seq<Byte>>, p: seq<Byte>, q: seq<Byte>)
    requires Fits(chunks, p + q)
    ensures Fits(chunks[..|p|], p) && Fits(chunks[|p|..], q)
  {
    forall i | 0 <= i < |q| && q[i] != STAR ensures chunks[|p|..][i] == [q[i]] {
      assert (p + q)[|p| + i] == q[i];
    }
    forall i | 0 <= i < |p| && p[i] != STAR ensures chunks[..|p|][i] == [p[i]] {
      assert (p + q)[i] == p[i];
    }
  }

  /** A literal run of the pattern consumes exactly itself. */
  lemma {:induction false} LiteralRun(name: seq<Byte>, literal: seq<Byte>, rest: seq<Byte>)
    requires STAR !in literal
    ensures Matches(name, literal + rest) <==>
            literal <= name && Matches(name[|literal|..], rest)
    decreases |literal|
  {
    if literal == [] {
      assert literal + rest == rest;
      assert name[0..] == name;
    } else {
      var p := literal + rest;
      assert p[1..] == literal[1..] + rest;
      if name != [] {
        LiteralRun(name[1..], literal[1..], rest);
        if literal <= name {
          assert name[1..][|literal| - 1..] == name[|literal|..];
        }
      }
    }
  }

  lemma {:induction false} OnlyStarsMatchEmpty(pattern: seq<Byte>)
    ensures Matches([], pattern) <==> forall i :: 0 <= i < |pattern| ==> pattern[i] == STAR
  {
    if pattern != [] {
      OnlyStarsMatchEmpty(pattern[1..]);
      if pattern[0] == STAR {
        var none: seq<Byte> := [];
        assert none[0..] == [];
        assert forall k :: 0 <= k <= |none| ==> none[k..] == [];
        assert (forall i :: 0 <= i < |pattern| ==> pattern[i] == STAR)
          <==> (forall i :: 0 <= i < |pattern[1..]| ==> pattern[1..][i] == STAR) by {
          if forall i :: 0 <= i < |pattern[1..]| ==> pattern[1..][i] == STAR {
            forall i | 0 <= i < |pattern| ensures pattern[i] == STAR {
              if i > 0 { assert pattern[i] == pattern[1..][i - 1]; }
            }
          }
        }
      }
    }
  }

  /** Some suffix of `name` that starts at `from` or later matches `pattern`. */
  ghost predicate MatchesFrom(name: seq<Byte>, from: nat, pattern: seq<Byte>) {
    exists k :: from <= k <= |name| && Matches(name[k..], pattern)
  }

  /** The alignment under trial: a star-free run of the pattern laid over equal name bytes. */
  ghost predicate Aligned(name: seq<Byte>, pattern: seq<Byte>, starNi: nat, ni: nat, starPi: nat, pi: nat) {
    && starNi <= ni <= |name|
    && starPi <= pi <= |pattern|
    && name[starNi..ni] == pattern[starPi..pi]
    && STAR !in pattern[starPi..pi]
  }

  lemma AlignOne(name: seq<Byte>, pattern: seq<Byte>, starNi: nat, ni: nat, starPi: nat, pi: nat)
    requires Aligned(name, pattern, starNi, ni, starPi, pi)
    requires ni < |name| && pi < |pattern| && pattern[pi] == name[ni] != STAR
    ensures Aligned(name, pattern, starNi, ni + 1, starPi, pi + 1)
  {
    assert name[starNi..ni + 1] == name[starNi..ni] + [name[ni]];
    assert pattern[starPi..pi + 1] == pattern[starPi..pi] + [pattern[pi]];
  }

  /** Under an alignment, trying at `k` comes down to what follows the literal run. */
  lemma AlignedTry(name: seq<Byte>, pattern: seq<Byte>, starNi: nat, ni: nat, starPi: nat, pi: nat, k: nat)
    requires Aligned(name, pattern, starNi, ni, starPi, pi)
    requires starNi <= k <= |name|
    ensures Matches(name[k..], pattern[starPi..]) ==>
              k + (ni - starNi) <= |name| && Matches(name[k + (ni - starNi)..], pattern[pi..])
    ensures k == starNi ==> (Matches(name[k..], pattern[starPi..]) <==> Matches(name[ni..], pattern[pi..]))
  {
    var run := pattern[starPi..pi];
    assert |run| == ni - starNi by { assert |name[starNi..ni]| == |run|; }
    assert pattern[starPi..] == run + pattern[pi..];
    LiteralRun(name[k..], run, pattern[pi..]);
    if k + |run| <= |name| {
      assert name[k..][|run|..] == name[k + |run|..];
    }
    if k == starNi {
      assert run <= name[k..] by { assert name[k..][..|run|] == name[starNi..ni]; }
    }
  }

  /** Why backtracking to the last star is enough: a second star absorbs every later try of the first. */
  lemma SecondStarAbsorbsFirst(name: seq<Byte>, pattern: seq<Byte>, starNi: nat, ni: nat, starPi: nat, pi: nat)
    requires Aligned(name, pattern, starNi, ni, starPi, pi)
    requires pi < |pattern| && pattern[pi] == STAR
    ensures MatchesFrom(name, starNi, pattern[starPi..]) <==> MatchesFrom(name, ni, pattern[pi + 1..])
  {
    assert pattern[pi..][1..] == pattern[pi + 1..];
    if MatchesFrom(name, starNi, pattern[starPi..]) {
      var k :| starNi <= k <= |name| && Matches(name[k..], pattern[starPi..]);
      AlignedTry(name, pattern, starNi, ni, starPi, pi, k);
      var at := k + (ni - starNi);
      var j :| 0 <= j <= |name[at..]| && Matches(name[at..][j..], pattern[pi + 1..]);
      assert name[at..][j..] == name[at + j..];
    }
    if MatchesFrom(name, ni, pattern[pi + 1..]) {
      var m :| ni <= m <= |name| && Matches(name[m..], pattern[pi + 1..]);
      assert name[ni..][m - ni..] == name[m..];
      assert Matches(name[ni..], pattern[pi..]);
      AlignedTry(name, pattern, starNi, ni, starPi, pi, starNi);
    }
  }

  /** A dead end at the current alignment leaves only later starts. */
  lemma DeadEnd(name: seq<Byte>, pattern: seq<Byte>, starNi: nat, ni: nat, starPi: nat, pi: nat)
    requires Aligned(name, pattern, starNi, ni, starPi, pi)
    requires ni < |name|
    requires pi < |pattern| ==> pattern[pi] != STAR && pattern[pi] != name[ni]
    ensures MatchesFrom(name, starNi, pattern[starPi..]) <==> MatchesFrom(name, starNi + 1, pattern[starPi..])
    ensures !Matches(name[starNi..], pattern[starPi..])
  {
    AlignedTry(name, pattern, starNi, ni, starPi, pi, starNi);
  }

  /** At the end of the name the alignment in hand is the only one left. */
  lemma NameExhausted(name: seq<Byte>, pattern: seq<Byte>, starNi: nat, starPi: nat, pi: nat)
    requires Aligned(name, pattern, starNi, |name|, starPi, pi)
    ensures MatchesFrom(name, starNi, pattern[starPi..]) <==> Matches([], pattern[pi..])
    ensures Matches(name[starNi..], pattern[starPi..]) <==> Matches([], pattern[pi..])
  {
    assert name[|name|..] == [];
    AlignedTry(name, pattern, starNi, |name|, starPi, pi, starNi);
    if MatchesFrom(name, starNi, pattern[starPi..]) {
      var k :| starNi <= k <= |name| && Matches(name[k..], pattern[starPi..]);
      AlignedTry(name, pattern, starNi, |name|, starPi, pi, k);
    }
  }

  datatype Star = NoStar | LastStar(pi: nat)

  /** What is left to decide, before any star and after the last one seen. */
  ghost predicate Remaining(name: seq<Byte>, pattern: seq<Byte>, star: Star, starNi: nat) {
    match star
    case NoStar => Matches(name, pattern)
    case LastStar(starPi) => starPi <= |pattern| && MatchesFrom(name, starNi, pattern[starPi..])
  }

  ghost function Origin(star: Star): nat { if star.NoStar? then 0 else star.pi }

  /** What the loop keeps: an alignment under trial, and the question it still has to decide. */
  ghost predicate Searching(answer: bool, name: seq<Byte>, pattern: seq<Byte>, star: Star, starNi: nat, ni: nat, pi: nat) {
    && Aligned(name, pattern, starNi, ni, Origin(star), pi)
    && (star.NoStar? ==> starNi == 0)
    && (answer <==> Remaining(name, pattern, star, starNi))
  }

  lemma SeesStar(answer: bool, name: seq<Byte>, pattern: seq<Byte>, star: Star, starNi: nat, ni: nat, pi: nat)
    requires Searching(answer, name, pattern, star, starNi, ni, pi) && pi < |pattern| && pattern[pi] == STAR
    ensures Searching(answer, name, pattern, LastStar(pi + 1), ni, ni, pi + 1)
  {
    SecondStarAbsorbsFirst(name, pattern, starNi, ni, Origin(star), pi);
    if star.NoStar? {
      FirstStar(name, pattern, ni, pi);
    }
  }

  lemma SeesLiteral(answer: bool, name: seq<Byte>, pattern: seq<Byte>, star: Star, starNi: nat, ni: nat, pi: nat)
    requires Searching(answer, name, pattern, star, starNi, ni, pi)
    requires ni < |name| && pi < |pattern| && pattern[pi] == name[ni] != STAR
    ensures Searching(answer, name, pattern, star, starNi, ni + 1, pi + 1)
  {
    AlignOne(name, pattern, starNi, ni, Origin(star), pi);
  }

  lemma Begins(answer: bool, name: seq<Byte>, pattern: seq<Byte>)
    requires answer <==> Matches(name, pattern)
    ensures Searching(answer, name, pattern, NoStar, 0, 0, 0)
  {
    assert name[0..0] == pattern[0..0] == [];
  }

  lemma Mismatch(answer: bool, name: seq<Byte>, pattern: seq<Byte>, star: Star, starNi: nat, ni: nat, pi: nat)
    requires Searching(answer, name, pattern, star, starNi, ni, pi) && ni < |name|
    requires pi == |pattern| || (pattern[pi] != STAR && pattern[pi] != name[ni])
    ensures star.NoStar? ==> !answer
    ensures star.LastStar? ==> Searching(answer, name, pattern, star, starNi + 1, starNi + 1, star.pi)
  {
    DeadEnd(name, pattern, starNi, ni, Origin(star), pi);
    assert name[0..] == name && pattern[0..] == pattern;
  }

  lemma NameUsedUp(answer: bool, name: seq<Byte>, pattern: seq<Byte>, star: Star, starNi: nat, pi: nat)
    requires Searching(answer, name, pattern, star, starNi, |name|, pi)
    ensures answer <==> forall i :: 0 <= i < |pattern[pi..]| ==> pattern[pi..][i] == STAR
  {
    NameExhausted(name, pattern, starNi, Origin(star), pi);
    assert name[0..] == name && pattern[0..] == pattern;
    OnlyStarsMatchEmpty(pattern[pi..]);
  }

  method Match(name: seq<Byte>, pattern: seq<Byte>) returns (matched: bool)
    ensures matched <==> Denotes(name, pattern)
  {
    MatchesIsDenotes(name, pattern);
    assert name[0..] == name && pattern[0..] == pattern;
    matched := Search(name, pattern, Denotes(name, pattern));
  }

  /** The two loops of `star_glob`. */
  method Search(name: seq<Byte>, pattern: seq<Byte>, ghost answer: bool) returns (matched: bool)
    requires answer <==> Matches(name, pattern)
    ensures matched <==> answer
  {
    Begins(answer, name, pattern);
    var ni: nat, pi: nat := 0, 0;
    var star: Star, starNi: nat := NoStar, 0;
    while ni < |name|
      invariant Searching(answer, name, pattern, star, starNi, ni, pi)
      decreases |name| - starNi, |pattern| - pi
    {
      if pi < |pattern| && pattern[pi] == STAR {
        SeesStar(answer, name, pattern, star, starNi, ni, pi);
        pi := pi + 1;
        star, starNi := LastStar(pi), ni;
      } else if pi < |pattern| && pattern[pi] == name[ni] {
        SeesLiteral(answer, name, pattern, star, starNi, ni, pi);
        pi, ni := pi + 1, ni + 1;
      } else {
        Mismatch(answer, name, pattern, star, starNi, ni, pi);
        if star.NoStar? {
          return false;
        }
        starNi := starNi + 1;
        ni := starNi;
        pi := star.pi;
      }
    }
    NameUsedUp(answer, name, pattern, star, starNi, pi);
    matched := OnlyStars(pattern, pi);
  }

  /** The loop after the name is used up: what remains of the pattern may only be stars. */
  method OnlyStars(pattern: seq<Byte>, from: nat) returns (only: bool)
    requires from <= |pattern|
    ensures only <==> forall i :: 0 <= i < |pattern[from..]| ==> pattern[from..][i] == STAR
  {
    var pi := from;
    while pi < |pattern| && pattern[pi] == STAR
      invariant from <= pi <= |pattern|
      invariant forall i :: from <= i < pi ==> pattern[i] == STAR
    {
      pi := pi + 1;
    }
    if pi < |pattern| {
      assert pattern[from..][pi - from] == pattern[pi];
    }
    return pi == |pattern|;
  }

  /** Before any star the whole name is matched from its start, not from any later byte. */
  lemma FirstStar(name: seq<Byte>, pattern: seq<Byte>, ni: nat, pi: nat)
    requires Aligned(name, pattern, 0, ni, 0, pi)
    requires pi < |pattern| && pattern[pi] == STAR
    ensures Matches(name, pattern) <==> MatchesFrom(name, ni, pattern[pi + 1..])
  {
    assert name[0..] == name && pattern[0..] == pattern;
    AlignedTry(name, pattern, 0, ni, 0, pi, 0);
    assert pattern[pi..][1..] == pattern[pi + 1..];
    if Matches(name[ni..], pattern[pi..]) {
      var j :| 0 <= j <= |name[ni..]| && Matches(name[ni..][j..], pattern[pi + 1..]);
      assert name[ni..][j..] == name[ni + j..];
    }
    if MatchesFrom(name, ni, pattern[pi + 1..]) {
      var m :| ni <= m <= |name| && Matches(name[m..], pattern[pi + 1..]);
      assert name[ni..][m - ni..] == name[m..];
    }
  }
}
