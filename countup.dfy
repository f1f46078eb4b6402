/**
 * The stat counters of the "why" section (js/main.js, lines 201-218): a
 * number counts up to its target over 1600 ms with an ease-out cubic, one
 * animation frame at a time, and then shows the target itself.
 *
 * Frame timestamps are the `now` argument of `Tick`; the start time is the
 * constructor's argument (the source reads `performance.now()`).
 */
module CountUp {
  import opened Wrappers

  const Duration: real := 1600.0

  /** The text of a counter: a number followed by the suffix. */
  datatype Display = Display(value: real, suffix: string)

  function Min(a: real, b: real): real {
    if a < b then a else b
  }

  /** `Math.min((now - start) / duration, 1)`. */
  function Progress(start: real, now: real): (t: real)
    ensures t <= 1.0
    ensures t == 1.0 <==> now - start >= Duration
    ensures start <= now ==> 0.0 <= t
    ensures t < 1.0 ==> t * Duration == now - start
  {
    Min((now - start) / Duration, 1.0)
  }

  lemma ProgressMonotone(start: real, now1: real, now2: real)
    requires now1 <= now2
    ensures Progress(start, now1) <= Progress(start, now2)
  {
  }

  function Cube(x: real): real {
    x * x * x
  }

  /** Ease-out cubic, `1 - (1 - t)^3`. */
  function Eased(t: real): real {
    1.0 - Cube(1.0 - t)
  }

  lemma CubeMonotone(a: real, b: real)
    requires a <= b
    ensures Cube(a) <= Cube(b)
  {
    var d := b - a;
    var m := a + b / 2.0;
    assert a * a + a * b + b * b == m * m + 3.0 * b * b / 4.0;
    assert a * a + a * b + b * b >= 0.0;
    assert Cube(b) - Cube(a) == d * (a * a + a * b + b * b);
  }

  /** The eased value never decreases as time goes on. */
  lemma EasedMonotone(t1: real, t2: real)
    requires t1 <= t2
    ensures Eased(t1) <= Eased(t2)
  {
    CubeMonotone(1.0 - t2, 1.0 - t1);
  }

  /** The easing starts at exactly 0 and ends at exactly 1. */
  lemma EasedEnds()
    ensures Eased(0.0) == 0.0 && Eased(1.0) == 1.0
  {
  }

  /** On [0, 1] the easing stays between 0 and 1. */
  lemma EasedRange(t: real)
    requires 0.0 <= t <= 1.0
    ensures 0.0 <= Eased(t) <= 1.0
  {
    CubeMonotone(0.0, 1.0 - t);
    CubeMonotone(1.0 - t, 1.0);
  }

  /** `Math.round`: the nearest integer, halves rounded up. */
  function Round(x: real): (n: int)
    ensures x - 0.5 < n as real <= x + 0.5
  {
    (x + 0.5).Floor
  }

  lemma RoundMonotone(a: real, b: real)
    requires a <= b
    ensures Round(a) <= Round(b)
  {
    assert Round(a) as real <= a + 0.5 <= b + 0.5 < Round(b) as real + 1.0;
  }

  /** The number a frame shows while the count runs, at progress t. */
  function Shown(target: real, t: real): int {
    Round(Eased(t) * target)
  }

  lemma ScaleMonotone(a: real, b: real, c: real)
    requires a <= b && 0.0 <= c
    ensures a * c <= b * c
  {
    assert b * c - a * c == (b - a) * c;
  }

  /** For a non-negative target the counter never counts down from one frame to a later one. */
  lemma ShownNeverDecreases(target: real, start: real, now1: real, now2: real)
    requires 0.0 <= target && now1 <= now2
    ensures Shown(target, Progress(start, now1)) <= Shown(target, Progress(start, now2))
  {
    var t1, t2 := Progress(start, now1), Progress(start, now2);
    ProgressMonotone(start, now1, now2);
    EasedMonotone(t1, t2);
    var e1, e2 := Eased(t1), Eased(t2);
    ScaleMonotone(e1, e2, target);
    RoundMonotone(e1 * target, e2 * target);
  }

  lemma RoundScaled(e: real, target: real)
    requires 0.0 <= e <= 1.0 && 0.0 <= target
    ensures 0 <= Round(e * target) <= Round(target)
  {
    var x := e * target;
    ScaleMonotone(0.0, e, target);
    assert 0.0 <= x;
    ScaleMonotone(e, 1.0, target);
    assert x <= target;
    RoundMonotone(0.0, x);
    RoundMonotone(x, target);
  }

  /** While counting, a frame shows a number between 0 and the rounded target. */
  lemma ShownBounded(target: real, t: real)
    requires 0.0 <= target && 0.0 <= t <= 1.0
    ensures 0 <= Shown(target, t) <= Round(target)
  {
    EasedRange(t);
    RoundScaled(Eased(t), target);
  }

  /** One `countUp(el)` call: its element's text and the frame it has requested. */
  class Counter {
    const target: real
    const suffix: string
    const start: real
    /** `el.textContent`, None while it still holds the markup's text. */
    var text: Option<Display>
    /** The `why__stat-num--done` class. */
    var done: bool
    /** A call of `tick` is requested for the next frame. */
    var pending: bool

    /** `countUp(el)` up to its first `requestAnimationFrame(tick)`. */
    constructor (target: real, suffix: string, start: real)
      ensures this.target == target && this.suffix == suffix && this.start == start
      ensures text == None && !done && pending
    {
      this.target, this.suffix, this.start := target, suffix, start;
      text := None;
      done := false;
      pending := true;
    }

    /**
     * `tick(now)`: show the eased count and ask for another frame, or, once
     * the progress has reached 1, show the target itself and stop.
     */
    method Tick(now: real)
      modifies this
      ensures var t := Progress(start, now);
        && pending == (t < 1.0)
        && text == Some(if t < 1.0 then Display(Shown(target, t) as real, suffix) else Display(target, suffix))
        && done == (old(done) || t == 1.0)
    {
      var t := Progress(start, now);
      text := Some(Display(Shown(target, t) as real, suffix));
      if t < 1.0 {
        pending := true;
      } else {
        text := Some(Display(target, suffix));
        done := true;
        pending := false;
      }
    }
  }
}
