/**
 * The length of a `.pcb-trace` element (`getTraceLength`, js/pcb-loader.js
 * lines 62-92) and the timing `startAnimation` derives from it (lines
 * 170-177 and 190).
 */
module Traces {
  import opened Wrappers
  import opened Euclid
  import opened Measure

  /** `ANIM_TOTAL`, the length of the whole drawing in milliseconds. */
  const AnimTotal: real := 4000.0
  /** `_S`: how much slower than the 2300 ms baseline the drawing runs. */
  const Speed: real := AnimTotal / 2300.0

  /** The element's tag, with the attributes `getTraceLength` reads for it. */
  datatype Shape =
    | LineShape(x1: Option<string>, y1: Option<string>, x2: Option<string>, y2: Option<string>)
    | PolylineShape(points: Option<string>)
    | OtherShape

  /** The browser's `el.getTotalLength`: missing, throwing, or returning a number. */
  datatype TotalLength = NoTotalLength | Throws | Returns(value: real)

  /** The length read off the element's own geometry. */
  function GeometricLength(sqrt: real -> real, parse: string -> Option<real>, shape: Shape): (g: real)
    requires IsSqrt(sqrt)
    ensures g >= 0.0
  {
    match shape
    case LineShape(x1, y1, x2, y2) =>
      Dist(sqrt, Num(parse, x1, 0.0), Num(parse, y1, 0.0), Num(parse, x2, 0.0), Num(parse, y2, 0.0))
    case PolylineShape(points) => PolylineValue(sqrt, parse, points)
    case OtherShape => 0.0
  }

  /**
   * The fallback chain of an uncached `getTraceLength`: the geometric length
   * if it is positive, else a positive `getTotalLength()`, else 1.
   */
  function MeasuredLength(sqrt: real -> real, parse: string -> Option<real>, shape: Shape, total: TotalLength): (r: real)
    requires IsSqrt(sqrt)
    ensures r > 0.0
    ensures GeometricLength(sqrt, parse, shape) > 0.0 ==> r == GeometricLength(sqrt, parse, shape)
    ensures GeometricLength(sqrt, parse, shape) == 0.0 && total.Returns? && total.value > 0.0 ==> r == total.value
    ensures GeometricLength(sqrt, parse, shape) == 0.0 && !(total.Returns? && total.value > 0.0) ==> r == 1.0
  {
    var g := GeometricLength(sqrt, parse, shape);
    var len :=
      if g > 0.0 then g
      else match total
        case NoTotalLength => g
        case Throws => 0.0
        case Returns(v) => v;
    if len > 0.0 then len else 1.0
  }

  /**
   * `String(len)` followed by `parseFloat` gives `len` back, as JavaScript
   * guarantees for every finite number, and the string is never empty.
   */
  ghost predicate ShowParses(parse: string -> Option<real>, show: real -> string) {
    forall x {:trigger show(x)} :: x > 0.0 ==> show(x) != [] && parse(show(x)) == Some(x)
  }

  /** An SVG trace element and its `dataset.len` cache. */
  class Trace {
    const shape: Shape
    const total: TotalLength
    /** Whether the element has a `dataset` at all. */
    const hasDataset: bool
    /** `el.dataset.delay`, in seconds of the baseline. */
    const delayAttr: Option<string>
    /** `el.dataset.len`; None while it is undefined. */
    var len: Option<string>

    constructor(shape: Shape, total: TotalLength, hasDataset: bool, delayAttr: Option<string>, len: Option<string>)
      ensures this.shape == shape && this.total == total && this.hasDataset == hasDataset
      ensures this.delayAttr == delayAttr && this.len == len
    {
      this.delayAttr := delayAttr;
      this.shape := shape;
      this.total := total;
      this.hasDataset := hasDataset;
      this.len := len;
    }

    /** Whether `el.dataset && el.dataset.len` is truthy. */
    predicate Cached()
      reads this
    {
      hasDataset && len.Some? && len.value != []
    }

    /** What `getTraceLength(el)` returns in the element's present state. */
    function Reported(sqrt: real -> real, parse: string -> Option<real>): real
      reads this
      requires IsSqrt(sqrt)
    {
      if Cached() then Num(parse, len, 1.0) else MeasuredLength(sqrt, parse, shape, total)
    }

    /**
     * `dataset.len` after a `getTraceLength(el)` call in the present state:
     * kept when cached or when there is no `dataset`, otherwise `String` of
     * the measured length.
     */
    function LenAfter(sqrt: real -> real, parse: string -> Option<real>, show: real -> string): Option<string>
      reads this
      requires IsSqrt(sqrt)
    {
      if Cached() || !hasDataset then len else Some(show(MeasuredLength(sqrt, parse, shape, total)))
    }

    /** `getTraceLength(el)`; `show` is `String`. */
    method GetTraceLength(sqrt: real -> real, parse: string -> Option<real>, show: real -> string) returns (r: real)
      requires IsSqrt(sqrt)
      modifies this
      ensures r == old(Reported(sqrt, parse))
      ensures old(Cached()) ==> len == old(len)
      ensures !old(Cached()) ==> r > 0.0 && len == (if hasDataset then Some(show(r)) else old(len))
      ensures len == old(LenAfter(sqrt, parse, show))
      ensures hasDataset && (old(Cached()) || ShowParses(parse, show)) ==> Cached() && Reported(sqrt, parse) == r
    {
      if hasDataset && len.Some? && len.value != [] {
        return Num(parse, len, 1.0);
      }
      r := 0.0;
      match shape {
        case LineShape(x1, y1, x2, y2) =>
          r := Dist(sqrt, Num(parse, x1, 0.0), Num(parse, y1, 0.0), Num(parse, x2, 0.0), Num(parse, y2, 0.0));
        case PolylineShape(points) =>
          r := PolylineLength(sqrt, parse, points);
        case OtherShape =>
      }
      if !(r > 0.0) && !total.NoTotalLength? {
        match total {
          case Returns(v) => r := v;
          case Throws => r := 0.0;
        }
      }
      if !(r > 0.0) {
        r := 1.0;
      }
      if hasDataset {
        len := Some(show(r));
      }
    }
  }

  function Max(a: real, b: real): real { if a >= b then a else b }
  function Min(a: real, b: real): real { if a <= b then a else b }

  /** A trace's drawing time in seconds: `len / 500` clamped to [0.25, 0.85], times `_S`. */
  function Duration(len: real): (d: real)
    ensures 0.25 * Speed <= d <= 0.85 * Speed
    ensures 125.0 <= len <= 425.0 ==> d == len / 500.0 * Speed
    ensures len < 125.0 ==> d == 0.25 * Speed
    ensures len > 425.0 ==> d == 0.85 * Speed
  {
    Max(0.25, Min(0.85, len / 500.0)) * Speed
  }

  /** A longer trace is never drawn faster. */
  lemma DurationMonotone(a: real, b: real)
    requires a <= b
    ensures Duration(a) <= Duration(b)
  {
  }

  /** An element's start time in milliseconds: `num(el.dataset.delay, 0) * 1000 * _S`. */
  function Delay(parse: string -> Option<real>, delayAttr: Option<string>): (d: real)
    ensures delayAttr.Some? && parse(delayAttr.value).Some? ==> d == parse(delayAttr.value).value * 1000.0 * Speed
    ensures delayAttr.None? || parse(delayAttr.value).None? ==> d == 0.0
  {
    Num(parse, delayAttr, 0.0) * 1000.0 * Speed
  }
}
