/**
 * The "loading..." labels of the PCB loader (`startLoadingDots`,
 * js/pcb-loader.js lines 115-139): a frame counter cycling 1, 2, 3 that
 * either lights the first `frame` dot characters of a label or, in older
 * markup, rewrites the label's text as its base followed by `frame` dots.
 */
module LoadingDots {
  import opened Wrappers
  import opened Measure

  /** The `opacity` of a dot that is lit and of one that is not. */
  const Lit: real := 1.0
  const Dim: real := 0.18

  /** `frame % 3 + 1`. */
  function NextFrame(frame: nat): (next: nat)
    ensures 1 <= next <= 3
    ensures 1 <= frame <= 2 ==> next == frame + 1
    ensures frame == 3 ==> next == 1
  {
    frame % 3 + 1
  }

  /** The frame runs 1, 2, 3, 1, ...: every frame comes back after three ticks and not sooner. */
  lemma FrameCycle(frame: nat)
    requires 1 <= frame <= 3
    ensures NextFrame(NextFrame(NextFrame(frame))) == frame
    ensures NextFrame(frame) != frame && NextFrame(NextFrame(frame)) != frame
  {
  }

  /** n dots. */
  function Dots(n: nat): (d: string)
    ensures |d| == n && forall k :: 0 <= k < n ==> d[k] == '.'
  {
    if n == 0 then [] else Dots(n - 1) + ['.']
  }

  /** s without its trailing run of dots. */
  function DropDots(s: string): (r: string)
    ensures |r| <= |s| && r == s[..|r|]
    ensures r == [] || r[|r| - 1] != '.'
    ensures forall k :: |r| <= k < |s| ==> s[k] == '.'
  {
    if s != [] && s[|s| - 1] == '.' then DropDots(s[..|s| - 1]) else s
  }

  /**
   * `text.replace(/\.+\s*$/, '').trim()`: the label text without the dots
   * (and white space) it ends with.
   */
  function Base(text: string): string {
    Trim(DropDots(TrimEnd(text)))
  }

  /** What a label shows in old markup: its base followed by `frame` dots. */
  function FallbackText(base: string, frame: nat): (t: string)
    ensures |t| == |base| + frame && t[..|base|] == base
    ensures forall k :: |base| <= k < |t| ==> t[k] == '.'
  {
    base + Dots(frame)
  }

  lemma {:induction false} TrimEndKeeps(s: string)
    requires s == [] || !IsSpace(s[|s| - 1])
    ensures TrimEnd(s) == s
  {
  }

  lemma {:induction false} TrimStartKeeps(s: string)
    requires s == [] || !IsSpace(s[0])
    ensures TrimStart(s) == s
  {
  }

  /** A trimmed base that does not end in a dot is recovered from its fallback text. */
  lemma BaseOfFallback(base: string, frame: nat)
    requires base == [] || (!IsSpace(base[0]) && !IsSpace(base[|base| - 1]) && base[|base| - 1] != '.')
    ensures Base(FallbackText(base, frame)) == base
  {
    var t := FallbackText(base, frame);
    TrimEndKeeps(t);
    DropDotsOfFallback(base, frame);
    TrimStartKeeps(base);
    TrimEndKeeps(base);
  }

  lemma {:induction false} DropDotsOfFallback(base: string, frame: nat)
    requires base == [] || base[|base| - 1] != '.'
    ensures DropDots(FallbackText(base, frame)) == base
    decreases frame
  {
    if frame > 0 {
      assert FallbackText(base, frame)[..|base| + frame - 1] == FallbackText(base, frame - 1);
      DropDotsOfFallback(base, frame - 1);
    } else {
      assert FallbackText(base, 0) == base;
    }
  }

  /** What a tick writes into a label: dot opacities, text and `dataset.base`. */
  datatype LabelState = LabelState(opacities: seq<real>, text: string, base: Option<string>)

  /** The opacities of `count` dot characters in a frame: the first `frame` are lit. */
  function Opacities(count: nat, frame: nat): (o: seq<real>)
    ensures |o| == count
    ensures forall i :: 0 <= i < count ==> (o[i] == Lit <==> i < frame)
    ensures forall i :: 0 <= i < count ==> o[i] == Lit || o[i] == Dim
  {
    seq(count, i => if i < frame then Lit else Dim)
  }

  /** One label's part of `tickDots` in the given frame. */
  function Ticked(s: LabelState, dotCount: nat, frame: nat): LabelState {
    if dotCount > 0 then LabelState(Opacities(dotCount, frame), s.text, s.base)
    else
      var base := if s.base.None? || s.base.value == [] then Base(s.text) else s.base.value;
      LabelState(s.opacities, FallbackText(base, frame), Some(base))
  }

  /** Once a fallback label has shown a frame, its base stays as it is on every later tick. */
  lemma FallbackBaseStable(s: LabelState, frame1: nat, frame2: nat)
    ensures Ticked(Ticked(s, 0, frame1), 0, frame2).base == Ticked(s, 0, frame1).base
    ensures Ticked(Ticked(s, 0, frame1), 0, frame2).text == FallbackText(Ticked(s, 0, frame1).base.value, frame2)
  {
    var base := Ticked(s, 0, frame1).base.value;
    if base == [] {
      BaseOfFallback([], frame1);
    }
  }

  /** A `.pcb-loading-text` element. */
  class Label {
    /** How many `.pcb-loading-dot-char` children it has. */
    const dotCount: nat
    var opacities: seq<real>
    var text: string
    var base: Option<string>

    constructor(dotCount: nat, text: string)
      ensures this.dotCount == dotCount && this.text == text
      ensures opacities == seq(dotCount, i => Lit) && base == None
    {
      this.dotCount := dotCount;
      this.text := text;
      opacities := seq(dotCount, i => Lit);
      base := None;
    }

    function State(): LabelState
      reads this
    {
      LabelState(opacities, text, base)
    }

    /** The label's part of `tickDots`. */
    method Show(frame: nat)
      modifies this
      ensures State() == Ticked(old(State()), dotCount, frame)
    {
      if dotCount > 0 {
        var o: seq<real> := [];
        var i := 0;
        while i < dotCount
          invariant 0 <= i <= dotCount
          invariant o == Opacities(dotCount, frame)[..i]
          invariant text == old(text) && base == old(base)
        {
          o := o + [if i < frame then Lit else Dim];
          i := i + 1;
        }
        opacities := o;
        return;
      }
      if base.None? || base.value == [] {
        base := Some(Trim(DropDots(TrimEnd(text))));
      }
      text := base.value + Dots(frame);
    }
  }

  predicate Distinct(labels: seq<Label>) {
    forall i, j :: 0 <= i < j < |labels| ==> labels[i] != labels[j]
  }

  /** The dots animation of one loader scope. */
  class Animation {
    const labels: seq<Label>
    var frame: nat

    constructor(labels: seq<Label>)
      ensures this.labels == labels && frame == 1
    {
      this.labels := labels;
      frame := 1;
    }

    /** `tickDots`: every label shows the current frame, then the frame advances. */
    method Tick()
      requires Distinct(labels)
      modifies this, set l | l in labels
      ensures frame == NextFrame(old(frame))
      ensures forall k :: 0 <= k < |labels| ==>
        labels[k].State() == Ticked(old(labels[k].State()), labels[k].dotCount, old(frame))
    {
      var i := 0;
      while i < |labels|
        invariant 0 <= i <= |labels|
        invariant frame == old(frame)
        invariant forall k :: 0 <= k < i ==>
          labels[k].State() == Ticked(old(labels[k].State()), labels[k].dotCount, old(frame))
        invariant forall k :: i <= k < |labels| ==> labels[k].State() == old(labels[k].State())
      {
        labels[i].Show(frame);
        i := i + 1;
      }
      frame := frame % 3 + 1;
    }

    /**
     * `startLoadingDots(scope)`: nothing without labels, else one tick; running
     * tells whether the 360 ms interval is set.
     */
    method Start() returns (running: bool)
      requires Distinct(labels) && frame == 1
      modifies this, set l | l in labels
      ensures running == (labels != [])
      ensures labels == [] ==> frame == 1
      ensures labels != [] ==> frame == 2 && forall k :: 0 <= k < |labels| ==>
        labels[k].State() == Ticked(old(labels[k].State()), labels[k].dotCount, 1)
    {
      if labels == [] {
        return false;
      }
      Tick();
      running := true;
    }
  }
}
