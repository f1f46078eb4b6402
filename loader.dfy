/**
 * The PCB loader's flags and its start (js/pcb-loader.js lines 17-29 and
 * 141-237): `finishIfReady` starts the fade-out at most once, and only
 * after the drawing is done and the page is ready (or the hold has
 * elapsed); `startAnimation` runs once and queues the traces and fadeIns.
 */
module Loader {
  import opened Wrappers
  import opened Euclid
  import opened Measure
  import opened Traces
  import opened Scheduling
  import opened LoadingDots

  /** A trace as it goes into the trace queue: the element, its length and its drawing time. */
  datatype TraceItem = TraceItem(el: Trace, len: real, dur: real)

  /** The attributes of an element that fades in (a component body, a via or a label). */
  datatype FadeIn = FadeIn(delay: Option<string>, opacity: Option<string>)

  /** A fading element as it goes into its queue: which element, and the opacity it fades to. */
  datatype FadeInItem = FadeInItem(index: nat, opacity: real)

  /**
   * The fade-in queue `startAnimation` builds, element by element; the
   * properties of what a run of it shows are FadeInsOnce and FadeInRunComplete.
   */
  function FadeInQueue(parse: string -> Option<real>, fadeIns: seq<FadeIn>): (q: seq<Timed<FadeInItem>>)
    ensures |q| == |fadeIns|
    ensures forall k :: 0 <= k < |q| ==>
      q[k] == Timed(Delay(parse, fadeIns[k].delay), FadeInItem(k, Num(parse, fadeIns[k].opacity, 1.0)))
  {
    seq(|fadeIns|, k requires 0 <= k < |fadeIns| =>
      Timed(Delay(parse, fadeIns[k].delay), FadeInItem(k, Num(parse, fadeIns[k].opacity, 1.0))))
  }

  /** An element that sits at two places of a sequence is counted at least twice. */
  lemma CountTwice<T>(s: seq<T>, i: int, j: int)
    requires 0 <= i < j < |s| && s[i] == s[j]
    ensures multiset(s)[s[i]] >= 2
  {
    assert s == s[..j] + [s[j]] + s[j + 1..];
    assert s[..j][i] == s[i];
  }

  /** An element that sits at one place only is counted once. */
  lemma CountOnce<T>(s: seq<T>, a: int)
    requires 0 <= a < |s| && forall i :: 0 <= i < |s| && i != a ==> s[i] != s[a]
    ensures multiset(s)[s[a]] == 1
  {
    assert s == s[..a] + [s[a]] + s[a + 1..];
    assert forall i :: 0 <= i < a ==> s[..a][i] != s[a];
    var t := s[a + 1..];
    assert forall i :: 0 <= i < |t| ==> t[i] != s[a] by {
      forall i | 0 <= i < |t|
        ensures t[i] != s[a]
      {
        assert t[i] == s[a + 1 + i];
      }
    }
  }

  /**
   * The fade-in entries in any order, as a finished `scheduleByDelay` runs
   * them: every fading element comes exactly once, with its own delay and
   * the opacity it fades to.
   */
  lemma FadeInsOnce(parse: string -> Option<real>, fadeIns: seq<FadeIn>, r: seq<Timed<FadeInItem>>)
    requires multiset(r) == multiset(FadeInQueue(parse, fadeIns))
    ensures |r| == |fadeIns|
    ensures forall i :: 0 <= i < |r| ==>
      r[i].what.index < |fadeIns|
      && r[i].what.opacity == Num(parse, fadeIns[r[i].what.index].opacity, 1.0)
      && r[i].delay == Delay(parse, fadeIns[r[i].what.index].delay)
    ensures forall k :: 0 <= k < |fadeIns| ==>
      exists i :: 0 <= i < |r| && r[i].what == FadeInItem(k, Num(parse, fadeIns[k].opacity, 1.0))
    ensures forall i, j :: 0 <= i < j < |r| ==> r[i].what.index != r[j].what.index
  {
    var q := FadeInQueue(parse, fadeIns);
    assert |r| == |multiset(r)| == |multiset(q)| == |q|;
    forall i | 0 <= i < |r|
      ensures r[i].what.index < |q| && r[i] == q[r[i].what.index]
    {
      assert r[i] in multiset(q);
      var m :| 0 <= m < |q| && q[m] == r[i];
    }
    forall k | 0 <= k < |fadeIns|
      ensures exists i :: 0 <= i < |r| && r[i].what == FadeInItem(k, Num(parse, fadeIns[k].opacity, 1.0))
    {
      assert q[k] in multiset(r);
      var i :| 0 <= i < |r| && r[i] == q[k];
    }
    forall i, j | 0 <= i < j < |r|
      ensures r[i].what.index != r[j].what.index
    {
      if r[i].what.index == r[j].what.index {
        var a := r[i].what.index;
        CountTwice(r, i, j);
        CountOnce(q, a);
      }
    }
  }

  /**
   * Once a fade-in run has no frame pending it has run every fading element
   * exactly once, in delay order, each with the opacity it fades to.
   */
  lemma FadeInRunComplete(run: Scheduler<FadeInItem>, parse: string -> Option<real>, fadeIns: seq<FadeIn>)
    requires run.Valid() && !run.pending && run.queue == FadeInQueue(parse, fadeIns)
    ensures |run.ran| == |fadeIns| && SortedByDelay(run.ran)
    ensures forall i :: 0 <= i < |run.ran| ==>
      run.ran[i].what.index < |fadeIns|
      && run.ran[i].what.opacity == Num(parse, fadeIns[run.ran[i].what.index].opacity, 1.0)
    ensures forall k :: 0 <= k < |fadeIns| ==>
      exists i :: 0 <= i < |run.ran| && run.ran[i].what == FadeInItem(k, Num(parse, fadeIns[k].opacity, 1.0))
    ensures forall i, j :: 0 <= i < j < |run.ran| ==> run.ran[i].what.index != run.ran[j].what.index
  {
    var r := run.ran;
    assert r == run.items by {
      assert run.items[..run.idx] == run.items;
    }
    FadeInsOnce(parse, fadeIns, r);
    var q := FadeInQueue(parse, fadeIns);
    forall k | 0 <= k < |fadeIns|
      ensures exists i :: 0 <= i < |r| && r[i].what == FadeInItem(k, Num(parse, fadeIns[k].opacity, 1.0))
    {
      assert q[k] in multiset(r);
      var i :| 0 <= i < |r| && r[i] == q[k];
    }
  }

  /** The queue entry of a trace whose `getTraceLength` is len: its delay, the length and the clamped duration. */
  function TraceEntry(parse: string -> Option<real>, el: Trace, len: real): (e: Timed<TraceItem>)
    ensures e.delay == Delay(parse, el.delayAttr) && e.what.el == el && e.what.len == len
    ensures 0.25 * Speed <= e.what.dur <= 0.85 * Speed && e.what.dur == Duration(len)
  {
    Timed(Delay(parse, el.delayAttr), TraceItem(el, len, Duration(len)))
  }

  predicate DistinctTraces(traces: seq<Trace>) {
    forall i, j :: 0 <= i < j < |traces| ==> traces[i] != traces[j]
  }

  /**
   * How many traces, from the first on, have a `dataset`. The trace loop
   * reads `el.dataset.delay` of each, which throws a TypeError at the first
   * trace without one.
   */
  function WithDataset(traces: seq<Trace>): (n: nat)
    ensures n <= |traces|
    ensures forall k :: 0 <= k < n ==> traces[k].hasDataset
    ensures n < |traces| ==> !traces[n].hasDataset
  {
    if traces == [] || !traces[0].hasDataset then 0 else 1 + WithDataset(traces[1..])
  }

  /**
   * The trace loop of `startAnimation`: measure each trace and queue it with
   * its delay and duration. `complete` is false when a trace without a
   * `dataset` ends the loop with a TypeError, after it has been measured.
   */
  method QueueTraces(sqrt: real -> real, parse: string -> Option<real>, show: real -> string, traces: seq<Trace>)
    returns (queue: seq<Timed<TraceItem>>, complete: bool)
    requires IsSqrt(sqrt) && DistinctTraces(traces)
    modifies set t | t in traces
    ensures complete == (WithDataset(traces) == |traces|)
    ensures |queue| == WithDataset(traces)
    ensures forall k :: 0 <= k < |queue| ==>
      queue[k] == TraceEntry(parse, traces[k], old(traces[k].Reported(sqrt, parse)))
    ensures forall k :: 0 <= k < |traces| ==>
      traces[k].len == if k <= WithDataset(traces) then old(traces[k].LenAfter(sqrt, parse, show)) else old(traces[k].len)
  {
    queue := [];
    var i := 0;
    while i < |traces|
      invariant 0 <= i <= |traces|
      invariant forall k :: 0 <= k < i ==> traces[k].hasDataset
      invariant |queue| == i
      invariant forall k :: 0 <= k < i ==>
        queue[k] == TraceEntry(parse, traces[k], old(traces[k].Reported(sqrt, parse)))
      invariant forall k :: 0 <= k < i ==> traces[k].len == old(traces[k].LenAfter(sqrt, parse, show))
      invariant forall k :: i <= k < |traces| ==> unchanged(traces[k])
    {
      var entry, ok := QueueTrace(sqrt, parse, show, traces[i]);
      if !ok {
        return queue, false;
      }
      queue := queue + [entry];
      i := i + 1;
    }
    complete := true;
  }

  /**
   * One round of the trace loop: measure el, then read its delay, which
   * throws (ok false) when el has no `dataset`.
   */
  method QueueTrace(sqrt: real -> real, parse: string -> Option<real>, show: real -> string, el: Trace)
    returns (entry: Timed<TraceItem>, ok: bool)
    requires IsSqrt(sqrt)
    modifies el
    ensures ok == el.hasDataset
    ensures ok ==> entry == TraceEntry(parse, el, old(el.Reported(sqrt, parse)))
    ensures el.len == old(el.LenAfter(sqrt, parse, show))
  {
    var len := el.GetTraceLength(sqrt, parse, show);
    if !el.hasDataset {
      // `el.dataset.delay` throws: the loop and `startAnimation` end here.
      return Timed(0.0, TraceItem(el, len, 0.0)), false;
    }
    entry, ok := Timed(Delay(parse, el.delayAttr), TraceItem(el, len, Duration(len))), true;
  }

  /** The fade-in loop of `startAnimation`. */
  method QueueFadeIns(parse: string -> Option<real>, fadeIns: seq<FadeIn>) returns (queue: seq<Timed<FadeInItem>>)
    ensures queue == FadeInQueue(parse, fadeIns)
  {
    queue := [];
    var j := 0;
    while j < |fadeIns|
      invariant 0 <= j <= |fadeIns|
      invariant queue == FadeInQueue(parse, fadeIns)[..j]
    {
      queue := queue + [Timed(Num(parse, fadeIns[j].delay, 0.0) * 1000.0 * Speed,
                              FadeInItem(j, Num(parse, fadeIns[j].opacity, 1.0)))];
      j := j + 1;
    }
  }

  /**
   * The trace loop and the two `scheduleByDelay` calls of `startAnimation`;
   * a trace loop that ends with a TypeError schedules nothing (both results null).
   */
  method Schedule(sqrt: real -> real, parse: string -> Option<real>, show: real -> string,
                  traces: seq<Trace>, fadeIns: seq<FadeIn>)
    returns (traceRun: Scheduler?<TraceItem>, fadeInRun: Scheduler?<FadeInItem>)
    requires IsSqrt(sqrt) && DistinctTraces(traces)
    modifies set t | t in traces
    ensures (traceRun != null) == (fadeInRun != null) == (WithDataset(traces) == |traces|)
    ensures traceRun != null ==> fresh(traceRun) && traceRun.Valid() && fresh(fadeInRun) && fadeInRun.Valid()
    ensures traceRun != null ==> |traceRun.queue| == |traces| && forall k :: 0 <= k < |traces| ==>
      traceRun.queue[k] == TraceEntry(parse, traces[k], old(traces[k].Reported(sqrt, parse)))
    ensures fadeInRun != null ==> fadeInRun.queue == FadeInQueue(parse, fadeIns)
    ensures forall k :: 0 <= k < |traces| ==>
      traces[k].len == if k <= WithDataset(traces) then old(traces[k].LenAfter(sqrt, parse, show)) else old(traces[k].len)
  {
    var traceQueue, complete := QueueTraces(sqrt, parse, show, traces);
    if !complete {
      return null, null;
    }
    traceRun := new Scheduler(traceQueue);
    var fadeInQueue := QueueFadeIns(parse, fadeIns);
    fadeInRun := new Scheduler(fadeInQueue);
  }

  class PcbLoader {
    /** `DEBUG_PCB_LOADING`; false in the shipped script. */
    const debug: bool
    var started: bool
    var done: bool
    var pageReady: bool
    var allowForceFinish: bool
    var finishing: bool
    /** Whether `loadingDotsTimer` holds an interval. */
    var dotsTimer: bool
    /** Whether the `ANIM_END` timeout is set and has not fired yet. */
    var animTimer: bool
    /** Whether the `POST_ANIM_HOLD` timeout is set and has not fired yet. */
    var holdTimer: bool
    /** How many times the fade-out has been started. */
    ghost var fades: nat

    /** The conditions under which `finishIfReady` lets the fade start. */
    predicate Ready()
      reads this
    {
      !debug && done && (pageReady || allowForceFinish)
    }

    /**
     * The fade starts at most once, and only when it may; the timers are set
     * in order: `ANIM_END` by `startAnimation`, the hold once the drawing is done.
     */
    ghost predicate Safe()
      reads this
    {
      fades == (if finishing then 1 else 0) && (finishing ==> Ready())
      && (animTimer ==> started) && (holdTimer ==> done) && (allowForceFinish ==> done)
    }

    /** Between events: Safe, and the fade is not held back once it may start. */
    ghost predicate Valid()
      reads this
    {
      Safe() && (Ready() ==> finishing)
    }

    constructor(debug: bool)
      ensures Valid() && this.debug == debug
      ensures !started && !done && !pageReady && !allowForceFinish && !finishing
      ensures !dotsTimer && !animTimer && !holdTimer
      ensures fades == 0
    {
      this.debug := debug;
      started, done, pageReady, allowForceFinish, finishing := false, false, false, false, false;
      dotsTimer, animTimer, holdTimer := false, false, false;
      fades := 0;
    }

    /** `finishIfReady()`. */
    method FinishIfReady()
      requires Safe()
      modifies this
      ensures Valid()
      ensures finishing == (old(finishing) || Ready())
      ensures fades == old(fades) + (if finishing && !old(finishing) then 1 else 0)
      ensures dotsTimer == (old(dotsTimer) && !(finishing && !old(finishing)))
      ensures started == old(started) && done == old(done) && pageReady == old(pageReady)
      ensures allowForceFinish == old(allowForceFinish)
      ensures animTimer == old(animTimer) && holdTimer == old(holdTimer)
    {
      if debug {
        return;
      }
      if finishing || !done {
        return;
      }
      if !pageReady && !allowForceFinish {
        return;
      }
      finishing := true;
      if dotsTimer {
        dotsTimer := false;
      }
      fades := fades + 1;
    }

    /** The page's `load` event, an already complete document, or the `MAX_WAIT` (6000 ms) safety timer. */
    method PageLoaded()
      requires Valid()
      modifies this
      ensures Valid()
      ensures pageReady && finishing == (old(finishing) || Ready())
      ensures fades == old(fades) + (if finishing && !old(finishing) then 1 else 0)
      ensures dotsTimer == (old(dotsTimer) && !(finishing && !old(finishing)))
      ensures started == old(started) && done == old(done) && allowForceFinish == old(allowForceFinish)
      ensures animTimer == old(animTimer) && holdTimer == old(holdTimer)
    {
      pageReady := true;
      FinishIfReady();
    }

    /**
     * The `ANIM_END` timeout (2440 ms, when the last trace is drawn): the
     * drawing is done, and the `POST_ANIM_HOLD` timeout is set.
     */
    method AnimationEnd()
      requires Valid() && animTimer
      modifies this
      ensures Valid()
      ensures done && finishing == (old(finishing) || Ready())
      ensures fades == old(fades) + (if finishing && !old(finishing) then 1 else 0)
      ensures dotsTimer == (old(dotsTimer) && !(finishing && !old(finishing)))
      ensures !animTimer && holdTimer
      ensures started == old(started) && pageReady == old(pageReady) && allowForceFinish == old(allowForceFinish)
    {
      animTimer := false;
      done := true;
      FinishIfReady();
      holdTimer := true;
    }

    /** The `POST_ANIM_HOLD` timeout after `ANIM_END`: the fade may start without the page. */
    method HoldElapsed()
      requires Valid() && holdTimer
      modifies this
      ensures Valid()
      ensures allowForceFinish && finishing == (old(finishing) || Ready())
      ensures fades == old(fades) + (if finishing && !old(finishing) then 1 else 0)
      ensures dotsTimer == (old(dotsTimer) && !(finishing && !old(finishing)))
      ensures !holdTimer && animTimer == old(animTimer)
      ensures started == old(started) && done == old(done) && pageReady == old(pageReady)
    {
      holdTimer := false;
      allowForceFinish := true;
      FinishIfReady();
    }

    /** `prefers-reduced-motion`: no drawing, the loader leaves at once. */
    method ReducedMotion()
      requires Valid()
      modifies this
      ensures Valid()
      ensures pageReady && done && finishing == (old(finishing) || !debug)
      ensures fades == old(fades) + (if finishing && !old(finishing) then 1 else 0)
      ensures dotsTimer == (old(dotsTimer) && !(finishing && !old(finishing)))
      ensures started == old(started) && allowForceFinish == old(allowForceFinish)
      ensures animTimer == old(animTimer) && holdTimer == old(holdTimer)
    {
      pageReady := true;
      done := true;
      FinishIfReady();
    }

    /**
     * `startAnimation()`: the first call starts the dots of the scope's
     * labels, measures every trace, collects the fading elements, hands both
     * queues to `scheduleByDelay` and sets the `ANIM_END` timeout; a trace
     * without a `dataset` ends it with a TypeError before anything is
     * scheduled. Any later call does nothing.
     */
    method StartAnimation(sqrt: real -> real, parse: string -> Option<real>, show: real -> string,
                          labels: seq<Label>, traces: seq<Trace>, fadeIns: seq<FadeIn>)
      returns (dots: Animation?, traceRun: Scheduler?<TraceItem>, fadeInRun: Scheduler?<FadeInItem>)
      requires Valid() && IsSqrt(sqrt) && Distinct(labels) && DistinctTraces(traces)
      modifies this, set l | l in labels, set t | t in traces
      ensures Valid() && started
      ensures done == old(done) && pageReady == old(pageReady) && allowForceFinish == old(allowForceFinish)
      ensures finishing == old(finishing) && fades == old(fades) && holdTimer == old(holdTimer)
      ensures old(started) ==> dots == null && traceRun == null && fadeInRun == null
      ensures old(started) ==> dotsTimer == old(dotsTimer) && animTimer == old(animTimer)
      ensures old(started) ==> forall l :: l in labels ==> unchanged(l)
      ensures old(started) ==> forall t :: t in traces ==> unchanged(t)
      ensures !old(started) ==> started && dotsTimer == (old(dotsTimer) || labels != [])
      ensures !old(started) ==> dots != null && fresh(dots) && dots.labels == labels
      ensures !old(started) ==> dots.frame == (if labels == [] then 1 else 2)
      ensures !old(started) ==> forall k :: 0 <= k < |labels| ==>
        labels[k].State() == Ticked(old(labels[k].State()), labels[k].dotCount, 1)
      ensures !old(started) ==> forall k :: 0 <= k < |traces| ==>
        traces[k].len == if k <= WithDataset(traces) then old(traces[k].LenAfter(sqrt, parse, show)) else old(traces[k].len)
      ensures !old(started) ==> animTimer == (WithDataset(traces) == |traces|)
      ensures !old(started) ==> (traceRun != null) == (fadeInRun != null) == animTimer
      ensures !old(started) && animTimer ==> fresh(traceRun) && traceRun.Valid() && fresh(fadeInRun) && fadeInRun.Valid()
      ensures !old(started) && animTimer ==> |traceRun.queue| == |traces| && forall k :: 0 <= k < |traces| ==>
        traceRun.queue[k] == TraceEntry(parse, traces[k], old(traces[k].Reported(sqrt, parse)))
      ensures !old(started) && animTimer ==> fadeInRun.queue == FadeInQueue(parse, fadeIns)
    {
      if started {
        return null, null, null;
      }
      dots, traceRun, fadeInRun := Begin(sqrt, parse, show, labels, traces, fadeIns);
    }

    /** The first `startAnimation()`, past its guard. */
    method Begin(sqrt: real -> real, parse: string -> Option<real>, show: real -> string,
                 labels: seq<Label>, traces: seq<Trace>, fadeIns: seq<FadeIn>)
      returns (dots: Animation, traceRun: Scheduler?<TraceItem>, fadeInRun: Scheduler?<FadeInItem>)
      requires Valid() && !started && IsSqrt(sqrt) && Distinct(labels) && DistinctTraces(traces)
      modifies this, set l | l in labels, set t | t in traces
      ensures Valid() && started && dotsTimer == (old(dotsTimer) || labels != [])
      ensures done == old(done) && pageReady == old(pageReady) && allowForceFinish == old(allowForceFinish)
      ensures finishing == old(finishing) && fades == old(fades) && holdTimer == old(holdTimer)
      ensures fresh(dots) && dots.labels == labels && dots.frame == (if labels == [] then 1 else 2)
      ensures forall k :: 0 <= k < |labels| ==>
        labels[k].State() == Ticked(old(labels[k].State()), labels[k].dotCount, 1)
      ensures forall k :: 0 <= k < |traces| ==>
        traces[k].len == if k <= WithDataset(traces) then old(traces[k].LenAfter(sqrt, parse, show)) else old(traces[k].len)
      ensures animTimer == (WithDataset(traces) == |traces|)
      ensures (traceRun != null) == (fadeInRun != null) == animTimer
      ensures animTimer ==> fresh(traceRun) && traceRun.Valid() && fresh(fadeInRun) && fadeInRun.Valid()
      ensures animTimer ==> |traceRun.queue| == |traces| && forall k :: 0 <= k < |traces| ==>
        traceRun.queue[k] == TraceEntry(parse, traces[k], old(traces[k].Reported(sqrt, parse)))
      ensures animTimer ==> fadeInRun.queue == FadeInQueue(parse, fadeIns)
    {
      started := true;

      dots := new Animation(labels);
      var running := dots.Start();
      if running {
        dotsTimer := true;
      }

      traceRun, fadeInRun := ScheduleAll(sqrt, parse, show, traces, fadeIns);
    }

    /** The rest of the first `startAnimation()`: the traces and fadeIns, then the `ANIM_END` timeout. */
    method ScheduleAll(sqrt: real -> real, parse: string -> Option<real>, show: real -> string,
                       traces: seq<Trace>, fadeIns: seq<FadeIn>)
      returns (traceRun: Scheduler?<TraceItem>, fadeInRun: Scheduler?<FadeInItem>)
      requires Valid() && started && !animTimer && IsSqrt(sqrt) && DistinctTraces(traces)
      modifies this, set t | t in traces
      ensures Valid() && started && dotsTimer == old(dotsTimer)
      ensures done == old(done) && pageReady == old(pageReady) && allowForceFinish == old(allowForceFinish)
      ensures finishing == old(finishing) && fades == old(fades) && holdTimer == old(holdTimer)
      ensures forall k :: 0 <= k < |traces| ==>
        traces[k].len == if k <= WithDataset(traces) then old(traces[k].LenAfter(sqrt, parse, show)) else old(traces[k].len)
      ensures animTimer == (WithDataset(traces) == |traces|)
      ensures (traceRun != null) == (fadeInRun != null) == animTimer
      ensures animTimer ==> fresh(traceRun) && traceRun.Valid() && fresh(fadeInRun) && fadeInRun.Valid()
      ensures animTimer ==> |traceRun.queue| == |traces| && forall k :: 0 <= k < |traces| ==>
        traceRun.queue[k] == TraceEntry(parse, traces[k], old(traces[k].Reported(sqrt, parse)))
      ensures animTimer ==> fadeInRun.queue == FadeInQueue(parse, fadeIns)
    {
      traceRun, fadeInRun := Schedule(sqrt, parse, show, traces, fadeIns);
      animTimer := traceRun != null;
    }
  }
}
