/** Runs given by their events: the synchronous view of a write, a flush and a close is spelt out
    in steps of the machine, so that every theorem about runs holds of it. */
module BlobRuns {
  import opened Segment
  import opened BlobProtocol
  import opened BlobTheorems
  import opened BlobSync

  predicate StepIf(c: Config, s: State, ev: Event, t: State, asked: bool) {
    Enabled(c, s, ev) && t == Apply(c, s, ev)
  }

  /** The event can happen in `s` and leads to `t`; unfolded on demand. */
  predicate Step(c: Config, s: State, ev: Event, t: State) {
    forall asked :: StepIf(c, s, ev, t, asked)
  }

  /** Each event can happen where the ones before it lead, and the last leads to `t`. */
  ghost predicate Goes(c: Config, s: State, evs: seq<Event>, t: State)
    decreases |evs|
  {
    if evs == [] then s == t else exists u :: Step(c, s, evs[0], u) && Goes(c, u, evs[1..], t)
  }

  lemma GoesOne(c: Config, s: State, ev: Event)
    requires Enabled(c, s, ev)
    ensures Goes(c, s, [ev], Apply(c, s, ev))
  {
    var t := Apply(c, s, ev);
    assert Step(c, s, ev, t) && [ev][1..] == [] && Goes(c, t, [], t);
  }

  lemma {:induction false} GoesThen(c: Config, s: State, a: seq<Event>, t: State, b: seq<Event>, u: State)
    requires Goes(c, s, a, t) && Goes(c, t, b, u)
    ensures Goes(c, s, a + b, u)
    decreases |a|
  {
    if a == [] {
      assert a + b == b;
    } else {
      var v :| Step(c, s, a[0], v) && Goes(c, v, a[1..], t);
      GoesThen(c, v, a[1..], t, b, u);
      assert (a + b)[1..] == a[1..] + b && (a + b)[0] == a[0];
    }
  }

  predicate SafeStepIf(c: Config, s: State, ev: Event, t: State, asked: bool) {
    Stepped(c, s, ev, t)
  }

  predicate SafeStep(c: Config, s: State, ev: Event, t: State) {
    forall asked :: SafeStepIf(c, s, ev, t, asked)
  }

  /** The same with safe steps alone. */
  ghost predicate Leads(c: Config, s: State, evs: seq<Event>, t: State)
    decreases |evs|
  {
    if evs == [] then s == t else exists u :: SafeStep(c, s, evs[0], u) && Leads(c, u, evs[1..], t)
  }

  lemma LeadsOne(c: Config, s: State, ev: Event)
    requires Enabled(c, s, ev) && SafeEvent(c, s, ev)
    ensures Leads(c, s, [ev], Apply(c, s, ev))
  {
    var t := Apply(c, s, ev);
    assert SafeStep(c, s, ev, t) && [ev][1..] == [] && Leads(c, t, [], t);
  }

  lemma {:induction false} LeadsThen(c: Config, s: State, a: seq<Event>, t: State, b: seq<Event>, u: State)
    requires Leads(c, s, a, t) && Leads(c, t, b, u)
    ensures Leads(c, s, a + b, u)
    decreases |a|
  {
    if a == [] {
      assert a + b == b;
    } else {
      var v :| SafeStep(c, s, a[0], v) && Leads(c, v, a[1..], t);
      LeadsThen(c, v, a[1..], t, b, u);
      assert (a + b)[1..] == a[1..] + b && (a + b)[0] == a[0];
    }
  }

  lemma SafeStepKeeps(c: Config, s: State, ev: Event, t: State)
    requires Good(c, s) && SafeStep(c, s, ev, t)
    ensures Good(c, t)
  {
    assert SafeStepIf(c, s, ev, t, true);
    SteppedKeeps(c, s, ev, t);
  }

  ghost predicate RunsToIf(c: Config, trace: seq<State>, evs: seq<Event>, s: State, t: State, asked: bool) {
    IsRun(c, trace, evs) && trace[0] == s && trace[|evs|] == t
  }

  ghost predicate RunsTo(c: Config, trace: seq<State>, evs: seq<Event>, s: State, t: State) {
    forall asked :: RunsToIf(c, trace, evs, s, t, asked)
  }

  lemma RunStays(c: Config, s: State)
    requires Good(c, s)
    ensures RunsTo(c, [s], [], s, s)
  {
  }

  lemma RunOn(c: Config, s: State, u: State, evs: seq<Event>, rest: seq<State>, t: State)
    requires Good(c, s) && evs != [] && SafeStep(c, s, evs[0], u) && RunsTo(c, rest, evs[1..], u, t)
    ensures RunsTo(c, [s] + rest, evs, s, t)
  {
    assert RunsToIf(c, rest, evs[1..], u, t, true);
    RunFrom(c, s, u, evs, rest);
  }

  lemma {:induction false} LeadsRuns(c: Config, s: State, evs: seq<Event>, t: State) returns (trace: seq<State>)
    requires Good(c, s) && Leads(c, s, evs, t)
    ensures RunsTo(c, trace, evs, s, t)
    decreases |evs|
  {
    if evs == [] {
      trace := [s];
      RunStays(c, s);
    } else {
      var u :| SafeStep(c, s, evs[0], u) && Leads(c, u, evs[1..], t);
      SafeStepKeeps(c, s, evs[0], u);
      var rest := LeadsRuns(c, u, evs[1..], t);
      trace := [s] + rest;
      RunOn(c, s, u, evs, rest, t);
    }
  }

  /** Safe events that can happen one after the other from a good state make a run in the sense
      of the theorems. */
  lemma LeadsIsRun(c: Config, s: State, evs: seq<Event>, t: State) returns (trace: seq<State>)
    requires Good(c, s) && Leads(c, s, evs, t)
    ensures IsRun(c, trace, evs) && trace[0] == s && trace[|evs|] == t
  {
    trace := LeadsRuns(c, s, evs, t);
    assert RunsToIf(c, trace, evs, s, t, true);
  }

  lemma RunFrom(c: Config, s: State, u: State, evs: seq<Event>, rest: seq<State>)
    requires Good(c, s) && evs != [] && SafeStep(c, s, evs[0], u)
    requires IsRun(c, rest, evs[1..]) && rest[0] == u
    ensures IsRun(c, [s] + rest, evs)
  {
    assert SafeStepIf(c, s, evs[0], u, true);
    var trace := [s] + rest;
    forall i | 0 <= i < |evs| ensures Stepped(c, trace[i], evs[i], trace[i + 1]) {
      if i > 0 {
        assert trace[i] == rest[i - 1] && trace[i + 1] == rest[i];
        assert Stepped(c, rest[i - 1], evs[1..][i - 1], rest[i]);
      }
    }
  }

  // ---- One turn of the flusher ----

  function FlushEvents(s: State): seq<Event>
    requires |s.queue| > 0 && s.queue[0] < |s.blocks|
  {
    var b := s.blocks[s.queue[0]];
    if b.pos == 0 then [DoPop] else [DoPop, DoPwrite(AlignUp(b.pos)), DoReturn]
  }

  /** A turn of the flusher is a pop, a whole write and a return; an empty block is only popped. */
  lemma FlushFrontRuns(c: Config, s: State)
    requires CanFlush(c, s)
    ensures Leads(c, s, FlushEvents(s), FlushFront(c, s))
  {
    var n := AlignUp(s.blocks[s.queue[0]].pos);
    LeadsOne(c, s, DoPop);
    if s.blocks[s.queue[0]].pos > 0 {
      var t := StartFlush(s);
      StartShape(c, s);
      LeadsOne(c, t, DoPwrite(n));
      var u := Pwrite(c, t, n);
      PwriteKeepsShape(c, t, n);
      LeadsOne(c, u, DoReturn);
      LeadsThen(c, s, [DoPop], t, [DoPwrite(n)], u);
      LeadsThen(c, s, [DoPop] + [DoPwrite(n)], u, [DoReturn], Return(u));
      assert FlushEvents(s) == [DoPop] + [DoPwrite(n)] + [DoReturn];
    }
  }

  lemma StartShape(c: Config, s: State)
    requires Shape(c, s) && |s.queue| > 0
    ensures Shape(c, StartFlush(s))
  {
  }

  lemma PwriteKeepsShape(c: Config, s: State, n: nat)
    requires Shape(c, s) && s.flushing.Some? && s.flushed + n <= c.capacity
    ensures Shape(c, Pwrite(c, s, n))
  {
    assert BlockShape(c, |s.segs|, s.blocks[s.flushing.value]);
  }

  // ---- A whole write ----

  function WriteEvents(c: Config, s: State, e: Entry): seq<Event>
    requires CanSync(c, s, e)
  {
    if Oversized(c, e) || !Rotates(c, s, e) || |Park(c, s, e).free| > 0 then [DoWrite(e)]
    else [DoWrite(e)] + FlushEvents(Park(c, s, e)) + [DoResume]
  }

  /** A write that finds the pool dry is a park, a turn of the flusher and a resume; any other
      write is one step. */
  lemma WriteSyncRuns(c: Config, s: State, e: Entry)
    requires Settled(c, s) && Storable(|e.blob|) && CanSync(c, s, e)
    ensures Leads(c, s, WriteEvents(c, s, e), WriteSync(c, s, e))
  {
    LeadsOne(c, s, DoWrite(e));
    if !Oversized(c, e) && Rotates(c, s, e) && |Park(c, s, e).free| == 0 {
      ParkGood(c, s, e);
      var p := Park(c, s, e);
      QueuedFits(c, p);
      FlushFrontRuns(c, p);
      FlushFrontKeeps(c, p);
      FlushFrontLeaves(c, p);
      var f := FlushFront(c, p);
      LeadsOne(c, f, DoResume);
      LeadsThen(c, s, [DoWrite(e)], p, FlushEvents(p), f);
      LeadsThen(c, s, [DoWrite(e)] + FlushEvents(p), f, [DoResume], WriteSync(c, s, e));
    }
  }

  // ---- Close ----

  function DrainEvents(c: Config, s: State): seq<Event>
    decreases |s.queue|
  {
    if CanFlush(c, s) then
      FlushFrontLeaves(c, s);
      FlushEvents(s) + DrainEvents(c, FlushFront(c, s))
    else []
  }

  lemma {:induction false} DrainRuns(c: Config, s: State)
    ensures Leads(c, s, DrainEvents(c, s), Drain(c, s))
    decreases |s.queue|
  {
    if CanFlush(c, s) {
      FlushFrontLeaves(c, s);
      FlushFrontRuns(c, s);
      var f := FlushFront(c, s);
      DrainRuns(c, f);
      LeadsThen(c, s, FlushEvents(s), f, DrainEvents(c, f), Drain(c, f));
    }
  }

  function StopEvents(c: Config, s: State): seq<Event>
    requires Shape(c, s)
  {
    [DoCloseEnqueue, DoCloseStop] + DrainEvents(c, CloseEnqueue(c, s).(running := false)) + [DoLeave, DoExit]
  }

  lemma DrainThenExit(c: Config, r: State)
    requires Good(c, r) && Closing(r)
    ensures Leads(c, r, DrainEvents(c, r) + [DoLeave, DoExit], Drain(c, r).(left := true, exited := true))
  {
    DrainRuns(c, r);
    DrainKeeps(c, r);
    var d := Drain(c, r);
    LeadsOne(c, d, DoLeave);
    LeadsOne(c, d.(left := true), DoExit);
    LeadsThen(c, d, [DoLeave], d.(left := true), [DoExit], d.(left := true, exited := true));
    assert [DoLeave] + [DoExit] == [DoLeave, DoExit];
    LeadsThen(c, r, DrainEvents(c, r), d, [DoLeave, DoExit], d.(left := true, exited := true));
  }

  lemma StopLeads(c: Config, q: State)
    requires Shape(c, q) && q.closing
    ensures Leads(c, q, [DoCloseStop], q.(running := false))
  {
    LeadsOne(c, q, DoCloseStop);
  }

  lemma CloseThenStop(c: Config, s: State)
    requires Shape(c, s) && !s.closing && s.waiting.None?
    ensures Leads(c, s, [DoCloseEnqueue, DoCloseStop], CloseEnqueue(c, s).(running := false))
  {
    var q := CloseEnqueue(c, s);
    LeadsOne(c, s, DoCloseEnqueue);
    StopLeads(c, q);
    LeadsThen(c, s, [DoCloseEnqueue], q, [DoCloseStop], q.(running := false));
    assert [DoCloseEnqueue] + [DoCloseStop] == [DoCloseEnqueue, DoCloseStop];
  }

  /** A close between calls is a run too: the last block is queued, the flusher is told to stop,
      drains the queue and leaves. */
  lemma StoppedRuns(c: Config, s: State)
    requires Settled(c, s)
    ensures Shape(c, s) && Leads(c, s, StopEvents(c, s), Stopped(c, s))
  {
    CloseThenStop(c, s);
    CloseBegins(c, s);
    var r := CloseEnqueue(c, s).(running := false);
    DrainThenExit(c, r);
    LeadsThen(c, s, [DoCloseEnqueue, DoCloseStop], r, DrainEvents(c, r) + [DoLeave, DoExit], Stopped(c, s));
    assert [DoCloseEnqueue, DoCloseStop] + (DrainEvents(c, r) + [DoLeave, DoExit]) == StopEvents(c, s);
  }
}
