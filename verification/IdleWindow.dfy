/**
 The idle window of one session.  The store slides it at most once per touch
 interval instead of on every request; the reference slides it every time.
 `deadline` is the session's absolute expiry, the same for both.
 */
module IdleWindow {

  const TOUCH_CEILING_SEC: real := 60.0

  /** A hundredth of the idle limit or a minute, whichever is shorter. */
  function TouchInterval(idle: real): (interval: real)
    ensures interval <= 60.0 && 100.0 * interval <= idle && (interval == 60.0 || 100.0 * interval == idle)
  {
    if idle / 100.0 <= TOUCH_CEILING_SEC then idle / 100.0 else TOUCH_CEILING_SEC
  }

  datatype Window = Dead | Open(last: real)

  predicate Expired(last: real, idle: real, deadline: real, now: real) {
    now >= deadline || now >= last + idle
  }

  /** One request to the store: expiry is recorded at once, activity only when the interval has passed. */
  function Throttled(w: Window, idle: real, deadline: real, now: real): Window {
    match w
    case Dead => Dead
    case Open(last) =>
      if Expired(last, idle, deadline, now) then Dead
      else if now - last >= TouchInterval(idle) then Open(now)
      else w
  }

  /** One request to a store that records all activity. */
  function Exact(w: Window, idle: real, deadline: real, now: real): Window {
    match w
    case Dead => Dead
    case Open(last) => if Expired(last, idle, deadline, now) then Dead else Open(now)
  }

  function ThrottledRun(created: real, idle: real, deadline: real, times: seq<real>): Window {
    if times == [] then Open(created)
    else Throttled(ThrottledRun(created, idle, deadline, times[..|times| - 1]), idle, deadline, times[|times| - 1])
  }

  function ExactRun(created: real, idle: real, deadline: real, times: seq<real>): Window {
    if times == [] then Open(created)
    else Exact(ExactRun(created, idle, deadline, times[..|times| - 1]), idle, deadline, times[|times| - 1])
  }

  predicate Ordered(created: real, times: seq<real>) {
    && (forall i :: 0 <= i < |times| ==> created <= times[i])
    && forall i, j :: 0 <= i < j < |times| ==> times[i] <= times[j]
  }

  function Latest(created: real, times: seq<real>): real {
    if times == [] then created else times[|times| - 1]
  }

  /**
   For every sequence of request times: a session the throttled store still
   accepts is one the exact store accepts, and its recorded activity is behind
   by less than the touch interval.
   */
  lemma {:induction false} ThrottledRefinesExact(created: real, idle: real, deadline: real, times: seq<real>)
    requires idle > 0.0 && Ordered(created, times)
    ensures var t, e := ThrottledRun(created, idle, deadline, times), ExactRun(created, idle, deadline, times);
            t.Open? ==> e.Open? && t.last <= e.last == Latest(created, times) && e.last - t.last < TouchInterval(idle)
  {
    if times != [] {
      var n := |times| - 1;
      ThrottledRefinesExact(created, idle, deadline, times[..n]);
      assert Latest(created, times[..n]) <= times[n];
    }
  }

  /** Gaps shorter than the idle limit minus the interval. */
  predicate Busy(created: real, idle: real, times: seq<real>) {
    forall i :: 0 <= i < |times| ==> Gap(created, times, i) < idle - TouchInterval(idle)
  }

  function Gap(created: real, times: seq<real>, i: nat): real
    requires i < |times|
  {
    times[i] - if i == 0 then created else times[i - 1]
  }

  /** For a session used that often the two stores always give the same answer. */
  lemma {:induction false} BusySessionsAgree(created: real, idle: real, deadline: real, times: seq<real>)
    requires idle > 0.0 && Ordered(created, times) && Busy(created, idle, times)
    ensures ThrottledRun(created, idle, deadline, times).Open? <==> ExactRun(created, idle, deadline, times).Open?
  {
    if times != [] {
      var n := |times| - 1;
      assert Busy(created, idle, times[..n]) by {
        forall i | 0 <= i < n ensures Gap(created, times[..n], i) < idle - TouchInterval(idle) {
          assert Gap(created, times[..n], i) == Gap(created, times, i);
        }
      }
      BusySessionsAgree(created, idle, deadline, times[..n]);
      ThrottledRefinesExact(created, idle, deadline, times[..n]);
      assert Gap(created, times, n) == times[n] - Latest(created, times[..n]);
    }
  }

  /** Beyond that gap the throttled store may end a session that the exact one keeps. */
  lemma LongGapMayDisagree()
    ensures ThrottledRun(0.0, 100.0, 1000.0, [0.9, 100.5]).Dead?
    ensures ExactRun(0.0, 100.0, 1000.0, [0.9, 100.5]).Open?
  {
    var times := [0.9, 100.5];
    assert times[..1] == [0.9] && times[..1][..0] == [];
    assert ThrottledRun(0.0, 100.0, 1000.0, [0.9]) == Open(0.0) by { assert [0.9][..0] == []; }
    assert ExactRun(0.0, 100.0, 1000.0, [0.9]) == Open(0.9);
  }
}
