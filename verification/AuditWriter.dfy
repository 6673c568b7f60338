/**
 The queued audit path: callers submit lines with a non-blocking send, one writer
 thread appends them in order, and a flush is a barrier in the same queue.
 Lines carry their submission number.  Callers, flushers and the writer take
 their steps in any order.
 */
module AuditWriter {

  datatype Job = Line(id: nat) | Barrier(flush: nat, mark: nat)

  /** What became of a line the writer (or an inline append) handled. */
  datatype Handled = Handled(id: nat, written: bool)

  /**
   `accepted` lists the lines that entered the queue; `done` those the writer
   finished; `lost` those left behind by a writer that is gone; `inlined` those a
   caller appended itself; `dropped` those refused by a full queue.
   */
  datatype State = State(capacity: nat, queue: seq<Job>, hand: seq<nat>, connected: bool, submitted: nat,
                         accepted: seq<nat>, done: seq<Handled>, lost: seq<nat>, inlined: seq<Handled>,
                         dropped: seq<nat>, answered: map<nat, nat>)

  datatype Step =
    | Log(appends: bool)       // `appends` is the sink's answer, should the line be appended inline
    | SendBarrier(flush: nat)
    | Take                     // the writer receives the next job
    | Finish(appends: bool)    // the writer's append returned
    | WriterGone

  function Lines(jobs: seq<Job>): seq<nat> {
    if jobs == [] then []
    else
      var last := jobs[|jobs| - 1];
      Lines(jobs[..|jobs| - 1]) + if last.Line? then [last.id] else []
  }

  function Ids(hs: seq<Handled>): seq<nat> {
    seq(|hs|, i requires 0 <= i < |hs| => hs[i].id)
  }

  predicate Enabled(s: State, e: Step) {
    match e
    case Log(_) => true
    case SendBarrier(_) => s.connected && |s.queue| < s.capacity
    case Take => s.connected && s.hand == [] && s.queue != []
    case Finish(_) => s.connected && s.hand != []
    case WriterGone => s.connected
  }

  function Next(s: State, e: Step): State
    requires Enabled(s, e)
  {
    match e
    case Log(appends) =>
      var id, t := s.submitted, s.(submitted := s.submitted + 1);
      if !s.connected then t.(inlined := s.inlined + [Handled(id, appends)])
      else if |s.queue| < s.capacity then t.(queue := s.queue + [Line(id)], accepted := s.accepted + [id])
      else t.(dropped := s.dropped + [id])
    case SendBarrier(flush) =>
      s.(queue := s.queue + [Barrier(flush, |s.accepted|)])
    case Take =>
      match s.queue[0] {
        case Line(id) => s.(queue := s.queue[1..], hand := [id])
        case Barrier(flush, mark) => s.(queue := s.queue[1..], answered := s.answered[flush := mark])
      }
    case Finish(appends) =>
      s.(hand := [], done := s.done + [Handled(s.hand[0], appends)])
    case WriterGone =>
      s.(connected := false, queue := [], hand := [], lost := s.hand + Lines(s.queue))
  }

  predicate Init(s: State) {
    && s.connected && s.queue == [] && s.hand == [] && s.submitted == 0 && s.accepted == [] && s.done == []
    && s.lost == [] && s.inlined == [] && s.dropped == [] && s.answered == map[] && 0 < s.capacity
  }

  // ---------------------------------------------------------------- invariant

  ghost predicate Ascending(ids: seq<nat>, below: nat) {
    && (forall i :: 0 <= i < |ids| ==> ids[i] < below)
    && (forall i, j :: 0 <= i < j < |ids| ==> ids[i] < ids[j])
  }

  /** A queued barrier stands behind exactly the lines its mark counts. */
  ghost predicate MarksOk(s: State) {
    forall i :: 0 <= i < |s.queue| && s.queue[i].Barrier? ==>
      s.queue[i].mark == |s.done| + |s.hand| + |Lines(s.queue[..i])|
  }

  ghost predicate Partition(s: State) {
    forall id :: 0 <= id < s.submitted <==> id in s.accepted || id in s.dropped || id in Ids(s.inlined)
  }

  ghost predicate Disjoint(s: State) {
    && (forall id :: id in s.accepted ==> id !in s.dropped && id !in Ids(s.inlined))
    && (forall id :: id in s.dropped ==> id !in Ids(s.inlined))
  }

  /** The queue is bounded, and each barrier in it, or answered, stands where it should. */
  ghost predicate QueueOk(s: State) {
    && |s.queue| <= s.capacity && |s.hand| <= 1
    && (s.connected ==> s.lost == []) && (!s.connected ==> s.queue == [] && s.hand == [])
    && MarksOk(s) && (forall f :: f in s.answered ==> s.answered[f] <= |s.done|)
  }

  /** The accepted lines are those done, in hand, queued and left behind, in submission order. */
  ghost predicate LinesOk(s: State) {
    s.accepted == Ids(s.done) + s.hand + Lines(s.queue) + s.lost && Ascending(s.accepted, s.submitted)
  }

  ghost predicate PlacesOk(s: State) { Partition(s) && Disjoint(s) }

  ghost predicate Inv(s: State) { QueueOk(s) && LinesOk(s) && PlacesOk(s) }

  lemma LinesSnoc(jobs: seq<Job>, job: Job)
    ensures Lines(jobs + [job]) == Lines(jobs) + if job.Line? then [job.id] else []
  {
    assert (jobs + [job])[..|jobs|] == jobs;
  }

  lemma {:induction false} LinesTail(jobs: seq<Job>)
    requires jobs != []
    ensures Lines(jobs) == (if jobs[0].Line? then [jobs[0].id] else []) + Lines(jobs[1..])
  {
    var n := |jobs| - 1;
    if n == 0 {
      assert jobs[..0] == [] && jobs[1..] == [];
    } else {
      LinesTail(jobs[..n]);
      assert jobs[..n][1..] == jobs[1..][..n - 1];
    }
  }

  lemma EnqueueKeepsQueue(s: State, appends: bool)
    requires Inv(s) && s.connected && |s.queue| < s.capacity
    ensures QueueOk(Next(s, Log(appends)))
  {
    var t := Next(s, Log(appends));
    forall i | 0 <= i < |t.queue| && t.queue[i].Barrier?
      ensures t.queue[i].mark == |t.done| + |t.hand| + |Lines(t.queue[..i])|
    {
      assert t.queue[..i] == s.queue[..i];
    }
  }

  lemma EnqueueKeepsLines(s: State, appends: bool)
    requires Inv(s) && s.connected && |s.queue| < s.capacity
    ensures LinesOk(Next(s, Log(appends)))
  {
    var t := Next(s, Log(appends));
    LinesSnoc(s.queue, Line(s.submitted));
    assert t.accepted == Ids(t.done) + t.hand + Lines(t.queue) + t.lost;
  }

  lemma EnqueueKeepsPlaces(s: State, appends: bool)
    requires Inv(s) && s.connected && |s.queue| < s.capacity
    ensures PlacesOk(Next(s, Log(appends)))
  {
  }

  lemma EnqueueKeepsInv(s: State, appends: bool)
    requires Inv(s) && s.connected && |s.queue| < s.capacity
    ensures Inv(Next(s, Log(appends)))
  {
    EnqueueKeepsQueue(s, appends);
    EnqueueKeepsLines(s, appends);
    EnqueueKeepsPlaces(s, appends);
  }

  lemma DropKeepsInv(s: State, appends: bool)
    requires Inv(s) && s.connected && |s.queue| >= s.capacity
    ensures Inv(Next(s, Log(appends)))
  {
  }

  lemma InlineKeepsInv(s: State, appends: bool)
    requires Inv(s) && !s.connected
    ensures Inv(Next(s, Log(appends)))
  {
    assert Ids(Next(s, Log(appends)).inlined) == Ids(s.inlined) + [s.submitted];
  }

  lemma BarrierKeepsInv(s: State, flush: nat)
    requires Inv(s) && Enabled(s, SendBarrier(flush))
    ensures Inv(Next(s, SendBarrier(flush)))
  {
    var t := Next(s, SendBarrier(flush));
    LinesSnoc(s.queue, Barrier(flush, |s.accepted|));
    forall i | 0 <= i < |t.queue| && t.queue[i].Barrier?
      ensures t.queue[i].mark == |t.done| + |t.hand| + |Lines(t.queue[..i])|
    {
      assert t.queue[..i] == s.queue[..i];
      assert s.queue[..|s.queue|] == s.queue;
    }
  }

  lemma TakeKeepsMarks(s: State)
    requires Inv(s) && Enabled(s, Take)
    ensures MarksOk(Next(s, Take))
  {
    var t := Next(s, Take);
    forall i | 0 <= i < |t.queue| && t.queue[i].Barrier?
      ensures t.queue[i].mark == |t.done| + |t.hand| + |Lines(t.queue[..i])|
    {
      LinesTail(s.queue[..i + 1]);
      assert s.queue[..i + 1][1..] == t.queue[..i];
    }
  }

  lemma TakeKeepsInv(s: State)
    requires Inv(s) && Enabled(s, Take)
    ensures Inv(Next(s, Take))
  {
    TakeKeepsMarks(s);
    LinesTail(s.queue);
    assert s.queue[..0] == [];
  }

  lemma FinishKeepsInv(s: State, appends: bool)
    requires Inv(s) && Enabled(s, Finish(appends))
    ensures Inv(Next(s, Finish(appends)))
  {
    var t := Next(s, Finish(appends));
    assert Ids(t.done) == Ids(s.done) + s.hand;
  }

  lemma StepKeepsInv(s: State, e: Step)
    requires Inv(s) && Enabled(s, e)
    ensures Inv(Next(s, e))
  {
    match e
    case Log(appends) =>
      if !s.connected {
        InlineKeepsInv(s, appends);
      } else if |s.queue| < s.capacity {
        EnqueueKeepsInv(s, appends);
      } else {
        DropKeepsInv(s, appends);
      }
    case SendBarrier(flush) => BarrierKeepsInv(s, flush);
    case Take => TakeKeepsInv(s);
    case Finish(appends) => FinishKeepsInv(s, appends);
    case WriterGone =>
      assert Next(s, e).accepted == Ids(s.done) + [] + [] + (s.hand + Lines(s.queue));
  }

  // ---------------------------------------------------------------- runs

  ghost predicate Runs(s: State, steps: seq<Step>, t: State)
    decreases |steps|
  {
    if steps == [] then s == t
    else
      var n := |steps| - 1;
      exists mid :: Runs(s, steps[..n], mid) && Enabled(mid, steps[n]) && t == Next(mid, steps[n])
  }

  lemma InitHasInv(s: State)
    requires Init(s)
    ensures Inv(s)
  {
    assert Ids(s.done) == [] && Ids(s.inlined) == [];
  }

  lemma {:induction false} RunsKeepInv(s: State, steps: seq<Step>, t: State)
    requires Inv(s) && Runs(s, steps, t)
    ensures Inv(t) && t.capacity == s.capacity
    decreases |steps|
  {
    if steps != [] {
      var n := |steps| - 1;
      var mid :| Runs(s, steps[..n], mid) && Enabled(mid, steps[n]) && t == Next(mid, steps[n]);
      RunsKeepInv(s, steps[..n], mid);
      StepKeepsInv(mid, steps[n]);
    }
  }

  function Count(id: nat, ids: seq<nat>): nat {
    if ids == [] then 0 else Count(id, ids[..|ids| - 1]) + if ids[|ids| - 1] == id then 1 else 0
  }

  lemma {:induction false} CountConcat(id: nat, a: seq<nat>, b: seq<nat>)
    ensures Count(id, a + b) == Count(id, a) + Count(id, b)
  {
    if b == [] {
      assert a + b == a;
    } else {
      CountConcat(id, a, b[..|b| - 1]);
      assert (a + b)[..|a + b| - 1] == a + b[..|b| - 1];
    }
  }

  lemma {:induction false} CountDistinct(id: nat, ids: seq<nat>)
    requires forall i, j :: 0 <= i < j < |ids| ==> ids[i] != ids[j]
    ensures Count(id, ids) == if id in ids then 1 else 0
  {
    if ids != [] {
      CountDistinct(id, ids[..|ids| - 1]);
      assert ids == ids[..|ids| - 1] + [ids[|ids| - 1]];
    }
  }

  /** Every submitted line is in exactly one place, and the bounded queue stays within its bound. */
  lemma EveryLineInOnePlace(s: State, steps: seq<Step>, t: State, id: nat)
    requires Init(s) && Runs(s, steps, t) && id < t.submitted
    ensures |t.queue| <= s.capacity
    ensures (if id in t.dropped then 1 else 0) + (if id in Ids(t.inlined) then 1 else 0)
            + Count(id, Ids(t.done)) + Count(id, t.hand) + Count(id, Lines(t.queue)) + Count(id, t.lost) == 1
  {
    InitHasInv(s);
    RunsKeepInv(s, steps, t);
    CountDistinct(id, t.accepted);
    CountConcat(id, Ids(t.done) + t.hand + Lines(t.queue), t.lost);
    CountConcat(id, Ids(t.done) + t.hand, Lines(t.queue));
    CountConcat(id, Ids(t.done), t.hand);
  }

  // ---------------------------------------------------------------- why a line is where it is

  /** After the first `n` steps the run is at `mid`. */
  ghost predicate Passes(s: State, steps: seq<Step>, n: nat, mid: State) {
    n < |steps| && Runs(s, steps[..n], mid) && Enabled(mid, steps[n])
  }

  lemma PassesEarlier(s: State, steps: seq<Step>, n: nat, mid: State)
    requires steps != [] && Passes(s, steps[..|steps| - 1], n, mid)
    ensures Passes(s, steps, n, mid)
  {
    assert steps[..|steps| - 1][..n] == steps[..n];
  }

  /** Line `id` was submitted while the queue was full; while it had room; or when the writer was gone. */
  ghost predicate Overflowed(s: State, steps: seq<Step>, id: nat) {
    exists n: nat, mid :: Passes(s, steps, n, mid) && steps[n].Log? && mid.submitted == id && mid.connected && |mid.queue| == mid.capacity
  }

  ghost predicate HadRoom(s: State, steps: seq<Step>, id: nat) {
    exists n: nat, mid :: Passes(s, steps, n, mid) && steps[n].Log? && mid.submitted == id && mid.connected && |mid.queue| < mid.capacity
  }

  ghost predicate AppendedInline(s: State, steps: seq<Step>, h: Handled) {
    exists n: nat, mid :: Passes(s, steps, n, mid) && steps[n] == Log(h.written) && mid.submitted == h.id && !mid.connected
  }

  /** The writer had it in hand, and this was the sink's answer. */
  ghost predicate FinishedSo(s: State, steps: seq<Step>, h: Handled) {
    exists n: nat, mid :: Passes(s, steps, n, mid) && steps[n] == Finish(h.written) && mid.hand == [h.id]
  }

  lemma OverflowedStays(s: State, steps: seq<Step>, id: nat)
    requires steps != [] && Overflowed(s, steps[..|steps| - 1], id)
    ensures Overflowed(s, steps, id)
  {
    var n: nat, mid :| Passes(s, steps[..|steps| - 1], n, mid) && steps[..|steps| - 1][n].Log? && mid.submitted == id
                       && mid.connected && |mid.queue| == mid.capacity;
    PassesEarlier(s, steps, n, mid);
  }

  lemma HadRoomStays(s: State, steps: seq<Step>, id: nat)
    requires steps != [] && HadRoom(s, steps[..|steps| - 1], id)
    ensures HadRoom(s, steps, id)
  {
    var n: nat, mid :| Passes(s, steps[..|steps| - 1], n, mid) && steps[..|steps| - 1][n].Log? && mid.submitted == id
                       && mid.connected && |mid.queue| < mid.capacity;
    PassesEarlier(s, steps, n, mid);
  }

  lemma InlineStays(s: State, steps: seq<Step>, h: Handled)
    requires steps != [] && AppendedInline(s, steps[..|steps| - 1], h)
    ensures AppendedInline(s, steps, h)
  {
    var n: nat, mid :| Passes(s, steps[..|steps| - 1], n, mid) && steps[..|steps| - 1][n] == Log(h.written) && mid.submitted == h.id
                       && !mid.connected;
    PassesEarlier(s, steps, n, mid);
  }

  lemma FinishedStays(s: State, steps: seq<Step>, h: Handled)
    requires steps != [] && FinishedSo(s, steps[..|steps| - 1], h)
    ensures FinishedSo(s, steps, h)
  {
    var n: nat, mid :| Passes(s, steps[..|steps| - 1], n, mid) && steps[..|steps| - 1][n] == Finish(h.written) && mid.hand == [h.id];
    PassesEarlier(s, steps, n, mid);
  }

  lemma {:induction false} DroppedWhenFull(s: State, steps: seq<Step>, t: State)
    requires Init(s) && Runs(s, steps, t)
    ensures forall id :: id in t.dropped ==> Overflowed(s, steps, id)
    decreases |steps|
  {
    if steps != [] {
      var n := |steps| - 1;
      var mid :| Runs(s, steps[..n], mid) && Enabled(mid, steps[n]) && t == Next(mid, steps[n]);
      DroppedWhenFull(s, steps[..n], mid);
      InitHasInv(s);
      RunsKeepInv(s, steps[..n], mid);
      assert Passes(s, steps, n, mid);
      forall id | id in t.dropped ensures Overflowed(s, steps, id) {
        if id in mid.dropped { OverflowedStays(s, steps, id); }
      }
    }
  }

  lemma {:induction false} AcceptedWithRoom(s: State, steps: seq<Step>, t: State)
    requires Init(s) && Runs(s, steps, t)
    ensures forall id :: id in t.accepted ==> HadRoom(s, steps, id)
    decreases |steps|
  {
    if steps != [] {
      var n := |steps| - 1;
      var mid :| Runs(s, steps[..n], mid) && Enabled(mid, steps[n]) && t == Next(mid, steps[n]);
      AcceptedWithRoom(s, steps[..n], mid);
      assert Passes(s, steps, n, mid);
      forall id | id in t.accepted ensures HadRoom(s, steps, id) {
        if id in mid.accepted { HadRoomStays(s, steps, id); }
      }
    }
  }

  lemma {:induction false} InlinedWhenGone(s: State, steps: seq<Step>, t: State)
    requires Init(s) && Runs(s, steps, t)
    ensures forall h :: h in t.inlined ==> AppendedInline(s, steps, h)
    decreases |steps|
  {
    if steps != [] {
      var n := |steps| - 1;
      var mid :| Runs(s, steps[..n], mid) && Enabled(mid, steps[n]) && t == Next(mid, steps[n]);
      InlinedWhenGone(s, steps[..n], mid);
      assert Passes(s, steps, n, mid);
      forall h | h in t.inlined ensures AppendedInline(s, steps, h) {
        if h in mid.inlined { InlineStays(s, steps, h); }
      }
    }
  }

  lemma FinishAddsOne(s: State, e: Step, h: Handled)
    requires Inv(s) && Enabled(s, e) && h in Next(s, e).done && h !in s.done
    ensures e == Finish(h.written) && s.hand == [h.id]
  {
  }

  lemma {:induction false} DoneAsTheSinkSaid(s: State, steps: seq<Step>, t: State)
    requires Init(s) && Runs(s, steps, t)
    ensures forall h :: h in t.done ==> FinishedSo(s, steps, h)
    decreases |steps|
  {
    if steps != [] {
      var n := |steps| - 1;
      var mid :| Runs(s, steps[..n], mid) && Enabled(mid, steps[n]) && t == Next(mid, steps[n]);
      DoneAsTheSinkSaid(s, steps[..n], mid);
      InitHasInv(s);
      RunsKeepInv(s, steps[..n], mid);
      assert Passes(s, steps, n, mid);
      forall h | h in t.done ensures FinishedSo(s, steps, h) {
        if h in mid.done {
          FinishedStays(s, steps, h);
        } else {
          FinishAddsOne(mid, steps[n], h);
        }
      }
    }
  }

  /**
   Over every run: only a full queue drops a line, only a line submitted when the writer was gone is appended
   by its caller, and a line counts as written exactly when the sink said so.
   */
  lemma EveryPlaceHasItsReason(s: State, steps: seq<Step>, t: State)
    requires Init(s) && Runs(s, steps, t)
    ensures forall id :: id in t.dropped ==> Overflowed(s, steps, id)
    ensures forall id :: id in t.accepted ==> HadRoom(s, steps, id)
    ensures forall h :: h in t.inlined ==> AppendedInline(s, steps, h)
    ensures forall h :: h in t.done ==> FinishedSo(s, steps, h)
  {
    DroppedWhenFull(s, steps, t);
    AcceptedWithRoom(s, steps, t);
    InlinedWhenGone(s, steps, t);
    DoneAsTheSinkSaid(s, steps, t);
  }

  // ---------------------------------------------------------------- the writer gets through

  predicate WriterOnly(steps: seq<Step>) {
    forall i :: 0 <= i < |steps| ==> steps[i].Take? || steps[i].Finish?
  }

  lemma Then(s: State, steps: seq<Step>, mid: State, e: Step) returns (steps': seq<Step>)
    requires Runs(s, steps, mid) && WriterOnly(steps) && Enabled(mid, e) && (e.Take? || e.Finish?)
    ensures Runs(s, steps', Next(mid, e)) && WriterOnly(steps')
  {
    steps' := steps + [e];
    assert steps'[..|steps|] == steps;
  }

  lemma FinishGetsOn(s: State)
    requires Inv(s) && s.connected && s.hand != []
    ensures var t := Next(s, Finish(true));
      Inv(t) && t.connected && t.hand == [] && t.queue == s.queue && t.accepted == s.accepted && t.answered == s.answered
  {
    StepKeepsInv(s, Finish(true));
  }

  lemma TakeGetsOn(s: State)
    requires Inv(s) && s.connected && s.hand == [] && s.queue != []
    ensures var t := Next(s, Take);
      && Inv(t) && t.connected && t.queue == s.queue[1..] && t.accepted == s.accepted
      && (forall f :: f in s.answered ==> f in t.answered)
      && forall j :: j in s.queue && j.Barrier? ==> j in t.queue || j.flush in t.answered
  {
    StepKeepsInv(s, Take);
    assert s.queue == [s.queue[0]] + s.queue[1..];
  }

  /** Left to itself the writer empties the queue: every line that entered it is finished. */
  lemma {:induction false} WriterDrains(s: State, steps: seq<Step>, mid: State) returns (steps': seq<Step>, t: State)
    requires Runs(s, steps, mid) && WriterOnly(steps) && Inv(mid) && mid.connected
    ensures Runs(s, steps', t) && WriterOnly(steps') && t.connected && t.queue == [] && t.hand == []
    ensures t.accepted == mid.accepted == Ids(t.done)
    ensures forall j :: j in mid.queue && j.Barrier? ==> j.flush in t.answered
    ensures forall f :: f in mid.answered ==> f in t.answered
    decreases |mid.queue|, |mid.hand|
  {
    if mid.hand != [] {
      FinishGetsOn(mid);
      steps' := Then(s, steps, mid, Finish(true));
      steps', t := WriterDrains(s, steps', Next(mid, Finish(true)));
    } else if mid.queue != [] {
      TakeGetsOn(mid);
      steps' := Then(s, steps, mid, Take);
      steps', t := WriterDrains(s, steps', Next(mid, Take));
    } else {
      steps', t := steps, mid;
    }
  }

  /** The writer finishes lines in submission order, skipping none that entered the queue. */
  lemma WriterFollowsQueueOrder(s: State, steps: seq<Step>, t: State)
    requires Init(s) && Runs(s, steps, t)
    ensures Ids(t.done) <= t.accepted
    ensures forall i, j :: 0 <= i < j < |t.done| ==> t.done[i].id < t.done[j].id
  {
    InitHasInv(s);
    RunsKeepInv(s, steps, t);
    forall i, j | 0 <= i < j < |t.done| ensures t.done[i].id < t.done[j].id {
      assert t.accepted[i] == Ids(t.done)[i] && t.accepted[j] == Ids(t.done)[j];
    }
  }

  /**
   An answered flush: from the moment its barrier is sent, through any later
   steps, if it has been answered then everything queued before it has been
   written or refused.
   */
  lemma AnsweredFlushIsDrained(s: State, steps: seq<Step>, mid: State, flush: nat, more: seq<Step>, t: State)
    requires Init(s) && Runs(s, steps, mid) && Enabled(mid, SendBarrier(flush))
    requires flush !in mid.answered && forall j :: j in mid.queue && j.Barrier? ==> j.flush != flush
    requires Runs(Next(mid, SendBarrier(flush)), more, t) && SendBarrier(flush) !in more
    requires flush in t.answered
    ensures mid.accepted <= Ids(t.done)
  {
    InitHasInv(s);
    RunsKeepInv(s, steps, mid);
    StepKeepsInv(mid, SendBarrier(flush));
    SentWithItsMark(mid, flush);
    DrainedAfter(Next(mid, SendBarrier(flush)), more, t, flush, mid.accepted);
  }

  lemma SentWithItsMark(s: State, flush: nat)
    requires Enabled(s, SendBarrier(flush)) && flush !in s.answered
    requires forall j :: j in s.queue && j.Barrier? ==> j.flush != flush
    ensures Marked(Next(s, SendBarrier(flush)), flush, |s.accepted|) && Next(s, SendBarrier(flush)).accepted == s.accepted
  {
  }

  lemma DrainedAfter(start: State, more: seq<Step>, t: State, flush: nat, before: seq<nat>)
    requires Inv(start) && Marked(start, flush, |before|) && start.accepted == before
    requires Runs(start, more, t) && SendBarrier(flush) !in more && flush in t.answered
    ensures before <= Ids(t.done)
  {
    RunsKeepInv(start, more, t);
    MarkTravels(start, more, t, flush, |before|);
    AcceptedGrows(start, more, t);
    Drained(t, flush, before);
  }

  lemma Drained(t: State, flush: nat, before: seq<nat>)
    requires Inv(t) && flush in t.answered && t.answered[flush] == |before| && before <= t.accepted
    ensures before <= Ids(t.done)
  {
    assert Ids(t.done) <= t.accepted;
  }

  /** Whatever carries this flush's number, queued or answered, carries the mark it was sent with. */
  ghost predicate Marked(s: State, flush: nat, mark: nat) {
    && (forall j :: j in s.queue && j.Barrier? && j.flush == flush ==> j.mark == mark)
    && (flush in s.answered ==> s.answered[flush] == mark)
  }

  lemma MarkKept(s: State, e: Step, flush: nat, mark: nat)
    requires Marked(s, flush, mark) && Enabled(s, e) && e != SendBarrier(flush)
    ensures Marked(Next(s, e), flush, mark)
  {
    if e.Take? {
      assert s.queue[0] in s.queue;
    }
  }

  lemma {:induction false} MarkTravels(s: State, steps: seq<Step>, t: State, flush: nat, mark: nat)
    requires Marked(s, flush, mark) && Runs(s, steps, t)
    requires SendBarrier(flush) !in steps
    ensures Marked(t, flush, mark)
    decreases |steps|
  {
    if steps != [] {
      var n := |steps| - 1;
      var mid :| Runs(s, steps[..n], mid) && Enabled(mid, steps[n]) && t == Next(mid, steps[n]);
      assert steps == steps[..n] + [steps[n]];
      MarkTravels(s, steps[..n], mid, flush, mark);
      MarkKept(mid, steps[n], flush, mark);
    }
  }

  lemma {:induction false} AcceptedGrows(s: State, steps: seq<Step>, t: State)
    requires Runs(s, steps, t)
    ensures s.accepted <= t.accepted
    decreases |steps|
  {
    if steps != [] {
      var n := |steps| - 1;
      var mid :| Runs(s, steps[..n], mid) && Enabled(mid, steps[n]) && t == Next(mid, steps[n]);
      AcceptedGrows(s, steps[..n], mid);
    }
  }
}
