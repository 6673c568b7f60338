/**
 Two-generation log retention.  A record that would push the current file over
 the bound moves it to the previous generation first.  Every file operation may
 fail, or be the last one before a crash, and a failing write may leave a torn
 record behind.
 */
module BoundedLog {

  import opened Basics

  const NEWLINE: Byte := 10

  // ---------------------------------------------------------------- what the append sequence leaves

  datatype Generations = Generations(previous: Option<Bytes>, current: Bytes)

  function Record(line: Bytes): Bytes { line + [NEWLINE] }

  /** A record is its line and a newline. */
  lemma RecordIsOneLine(line: Bytes)
    ensures var r := Record(line); |r| == |line| + 1 && r[|line|] == 10 && r[..|line|] == line
  {
  }

  /** One append that meets no failure; an oversized record is refused. */
  function Appended(g: Generations, line: Bytes, bound: nat): Generations {
    var r := Record(line);
    if |r| > bound then g
    else if |g.current| + |r| > bound then Generations(Some(g.current), r)
    else Generations(g.previous, g.current + r)
  }

  function After(lines: seq<Bytes>, bound: nat): Generations {
    if lines == [] then Generations(None, []) else Appended(After(lines[..|lines| - 1], bound), lines[|lines| - 1], bound)
  }

  /** The records that were not refused. */
  function Kept(lines: seq<Bytes>, bound: nat): seq<Bytes> {
    if lines == [] then []
    else
      var r := Record(lines[|lines| - 1]);
      Kept(lines[..|lines| - 1], bound) + if |r| > bound then [] else [r]
  }

  function Held(g: Generations): Bytes { (if g.previous.Some? then g.previous.value else []) + g.current }

  /** The generations hold these records: `older` in the previous file and `newer` in the current one. */
  ghost predicate Holds(g: Generations, older: seq<Bytes>, newer: seq<Bytes>, bound: nat) {
    && (if g.previous.Some? then g.previous.value == Flat(older) else older == [])
    && g.current == Flat(newer) && |g.current| <= bound
    && (g.previous.Some? ==> |g.previous.value| <= bound < |g.previous.value| + |g.current|)
  }

  lemma AppendHolds(g: Generations, line: Bytes, bound: nat, older: seq<Bytes>, newer: seq<Bytes>)
    returns (lost': seq<Bytes>, older': seq<Bytes>, newer': seq<Bytes>)
    requires Holds(g, older, newer, bound) && |Record(line)| <= bound
    ensures Holds(Appended(g, line, bound), older', newer', bound)
    ensures older + newer + [Record(line)] == lost' + older' + newer'
    ensures newer' != [] && newer'[|newer'| - 1] == Record(line)
    ensures g.previous.None? && Appended(g, line, bound).previous.None? ==> lost' == []
  {
    var r := Record(line);
    FlatOne(r);
    if |g.current| + |r| > bound {
      lost', older', newer' := older, newer, [r];
    } else {
      FlatConcat(newer, [r]);
      lost', older', newer' := [], older, newer + [r];
    }
  }

  lemma Regroup(lost: seq<Bytes>, before: seq<Bytes>, record: Bytes, dropped: seq<Bytes>, older: seq<Bytes>, newer: seq<Bytes>)
    requires before + [record] == dropped + older + newer
    ensures (lost + before) + [record] == (lost + dropped) + older + newer
  {
    assert (lost + before) + [record] == lost + (before + [record]);
  }

  /**
   For every append sequence: the two files are whole records, exactly the
   newest ones in order, each file within the bound; from the first rotation on
   together they hold more than one bound's worth of bytes.
   */
  lemma {:induction false} NewestRecordsAreHeld(lines: seq<Bytes>, bound: nat)
    returns (lost: seq<Bytes>, older: seq<Bytes>, newer: seq<Bytes>)
    ensures Kept(lines, bound) == lost + older + newer
    ensures Holds(After(lines, bound), older, newer, bound)
    ensures Kept(lines, bound) != [] ==> newer != []
    ensures After(lines, bound).previous.None? ==> lost == []
  {
    if lines == [] {
      lost, older, newer := [], [], [];
    } else {
      var n := |lines| - 1;
      lost, older, newer := NewestRecordsAreHeld(lines[..n], bound);
      if |Record(lines[n])| <= bound {
        var dropped;
        var before := older + newer;
        assert Kept(lines[..n], bound) == lost + before;
        dropped, older, newer := AppendHolds(After(lines[..n], bound), lines[n], bound, older, newer);
        Regroup(lost, before, Record(lines[n]), dropped, older, newer);
        lost := lost + dropped;
      }
    }
  }

  /** Previous followed by current is a suffix of all accepted records, cut at a record boundary. */
  lemma HeldIsSuffix(lines: seq<Bytes>, bound: nat) returns (cut: nat)
    ensures cut <= |Kept(lines, bound)| && Held(After(lines, bound)) == Flat(Kept(lines, bound)[cut..])
    ensures Kept(lines, bound) != [] ==> cut < |Kept(lines, bound)|
    ensures |Held(After(lines, bound))| <= 2 * bound
    ensures cut > 0 ==> |Held(After(lines, bound))| > bound
  {
    var lost, older, newer := NewestRecordsAreHeld(lines, bound);
    cut := |lost|;
    assert Kept(lines, bound)[cut..] == older + newer;
    FlatConcat(older, newer);
  }

  // ---------------------------------------------------------------- the file operations

  datatype Outcome = Written | TooLong | Refused

  class Log {
    const bound: nat
    /** Operation number `n` fails; a write that fails as operation `n` leaves `torn(n)` bytes. */
    const fails: nat -> bool
    const torn: nat -> nat
    var calls: nat
    var current: Option<Bytes>
    var previous: Option<Bytes>

    /** Every chunk any append put into the log, whole or torn: no longer held, in the previous file, in the current. */
    ghost var lost: seq<Bytes>
    ghost var older: seq<Bytes>
    ghost var newer: seq<Bytes>
    /** A failure hit between dropping the old generation and completing the record that needed the room. */
    ghost var cut: bool

    ghost predicate Valid()
      reads this
    {
      && Contents(current) == Flat(newer) && |Contents(current)| <= bound
      && Contents(previous) == Flat(older) && |Contents(previous)| <= bound
      && (previous.None? ==> older == [])
      && (!cut && previous.Some? ==> |Contents(previous)| + |Contents(current)| > bound)
    }

    ghost function History(): seq<Bytes>
      reads this
    {
      lost + older + newer
    }

    static function Contents(f: Option<Bytes>): Bytes { if f.Some? then f.value else [] }

    constructor (bound: nat, fails: nat -> bool, torn: nat -> nat)
      ensures Valid() && this.bound == bound && History() == [] && current.None? && previous.None? && !cut && calls == 0
    {
      this.bound, this.fails, this.torn, calls := bound, fails, torn, 0;
      current, previous, lost, older, newer, cut := None, None, [], [], [], false;
    }

    /** No file operation, and no wait for the lease, has failed. */
    ghost predicate Faultless()
      reads this
    {
      forall n :: 0 <= n < calls ==> !fails(n)
    }

    method Attempt() returns (ok: bool)
      modifies this`calls
      ensures calls == old(calls) + 1 && (ok <==> !fails(old(calls)))
    {
      ok := !fails(calls);
      calls := calls + 1;
    }

    /** Make room: remove the previous file, rename the current one, create a new current file. */
    method Rotate() returns (ok: bool)
      requires Valid() && current.Some?
      modifies this
      ensures Valid() && History() == old(History()) && old(lost) <= lost
      ensures ok ==> current == Some([]) && previous == old(current) && cut
      ensures old(calls) <= calls && (Faultless() ==> ok)
      ensures !ok ==> cut || (previous == old(previous) && current == old(current) && cut == old(cut))
    {
      var removed := Attempt();
      if !removed {
        return false;
      }
      previous, lost, older, cut := None, lost + older, [], true;
      var renamed := Attempt();
      if !renamed {
        return false;
      }
      previous, current, older, newer := current, None, newer, [];
      ok := Attempt();
      if ok {
        current := Some([]);
      }
    }

    /** `append_until`, from the moment the lease is held. */
    method Append(line: Bytes) returns (outcome: Outcome)
      requires Valid()
      modifies this
      ensures Valid() && old(lost) <= lost
      ensures outcome == TooLong <==> |Record(line)| > bound
      ensures old(calls) <= calls && (Faultless() ==> outcome != Refused && (!old(cut) ==> !cut))
      // What is in the two files is always the newest part of everything ever appended.
      ensures outcome == Written ==> History() == old(History()) + [Record(line)] && newer != []
      ensures outcome != Written ==>
                History() == old(History()) || exists part :: part <= Record(line) && History() == old(History()) + [part]
      ensures outcome == Written && |old(Contents(current))| + |Record(line)| > bound ==> !cut
      ensures outcome == Written ==>
                Generations(previous, Contents(current)) == Appended(Generations(old(previous), old(Contents(current))), line, bound)
    {
      if |line| + 1 > bound {
        return TooLong;
      }
      var ok := MakeRoom(line);
      if !ok {
        return Refused;
      }
      ghost var part;
      outcome, part := WriteRecord(line, |old(Contents(current))| + |Record(line)| > bound);
    }

    /** Open the current file, and rotate when the record would not fit. */
    method MakeRoom(line: Bytes) returns (ok: bool)
      requires Valid() && |Record(line)| <= bound
      modifies this
      ensures Valid() && History() == old(History()) && old(lost) <= lost && old(calls) <= calls && (Faultless() ==> ok)
      ensures var rotates := |old(Contents(current))| + |Record(line)| > bound;
        ok ==>
          (current.Some?
           && if rotates then current.value == [] && previous.Some? && previous.value == old(Contents(current))
              else current.value == old(Contents(current)) && previous == old(previous) && cut == old(cut))
    {
      ok := Attempt();
      if !ok {
        return;
      }
      if current.None? {
        current := Some([]);
      }
      if |current.value| + |line| + 1 > bound {
        ok := Rotate();
      }
    }

    method PutChunk(part: Bytes)
      requires Valid() && current.Some? && |current.value| + |part| <= bound
      modifies this`current, this`newer
      ensures Valid() && current == Some(old(current.value) + part) && newer == old(newer) + [part]
      ensures History() == old(History()) + [part]
    {
      FlatOne(part);
      FlatConcat(newer, [part]);
      current, newer := Some(current.value + part), newer + [part];
    }

    /** Append the record, or on a failure some beginning of it. */
    method WriteRecord(line: Bytes, ghost rotated: bool) returns (outcome: Outcome, ghost part: Bytes)
      requires Valid() && current.Some? && |current.value| + |line| + 1 <= bound
      requires rotated ==> current.value == [] && previous.Some? && |previous.value| + |line| + 1 > bound
      modifies this`current, this`newer, this`cut, this`calls
      ensures Valid() && old(calls) <= calls && (Faultless() ==> outcome == Written)
      ensures outcome == Written || outcome == Refused
      ensures newer == old(newer) + [part] && History() == old(History()) + [part]
      ensures part <= Record(line) && (outcome == Written ==> part == Record(line))
      ensures outcome == Written ==> cut == (old(cut) && !rotated)
      ensures current == Some(old(current.value) + part)
    {
      var complete := Attempt();
      var bytes := Record(line);
      if !complete {
        bytes := bytes[..Min(torn(calls - 1), |bytes|)];
      }
      part := bytes;
      PutChunk(bytes);
      if complete && rotated {
        cut := false;
      }
      outcome := if complete then Written else Refused;
    }
  }
}
