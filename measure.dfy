/**
 * The measuring helpers of the PCB loader (js/pcb-loader.js, lines 31-60):
 * `num`, `dist`, and `polylineLength`, which reads an SVG `points`
 * attribute and adds up the lengths of its segments.
 *
 * `parseFloat` followed by `isFinite` is the `parse` parameter: the finite
 * number a string starts with, or None for NaN and the infinities.
 */
module Measure {
  import opened Wrappers
  import opened Euclid

  /** `num(v, fallback)` for an attribute value v (None for null or undefined). */
  function Num(parse: string -> Option<real>, v: Option<string>, fallback: real): (n: real)
    ensures v.Some? && parse(v.value).Some? ==> n == parse(v.value).value
    ensures v.None? || parse(v.value).None? ==> n == fallback
  {
    if v.Some? then parse(v.value).GetOr(fallback) else fallback
  }

  /** `dist(x1, y1, x2, y2)`. */
  function Dist(sqrt: real -> real, x1: real, y1: real, x2: real, y2: real): (d: real)
    requires IsSqrt(sqrt)
    ensures d >= 0.0 && d * d == (x2 - x1) * (x2 - x1) + (y2 - y1) * (y2 - y1)
  {
    Norm(sqrt, x2 - x1, y2 - y1)
  }

  // ---------------------------------------------------------------------------
  // Tokenising a points string
  // ---------------------------------------------------------------------------

  /** JavaScript's white space and line terminators (`\s`, and what `trim` removes). */
  predicate IsSpace(c: char) {
    c in {'\t', '\n', '\U{000B}', '\U{000C}', '\r', ' ', '\U{00A0}', '\U{1680}',
          '\U{2028}', '\U{2029}', '\U{202F}', '\U{205F}', '\U{3000}', '\U{FEFF}'}
    || ('\U{2000}' <= c <= '\U{200A}')
  }

  /** The characters that separate numbers in a points string. */
  predicate IsSeparator(c: char) {
    c == ',' || IsSpace(c)
  }

  function TrimStart(s: string): string {
    if s != [] && IsSpace(s[0]) then TrimStart(s[1..]) else s
  }

  function TrimEnd(s: string): string {
    if s != [] && IsSpace(s[|s| - 1]) then TrimEnd(s[..|s| - 1]) else s
  }

  /** `String.prototype.trim`. */
  function Trim(s: string): string {
    TrimEnd(TrimStart(s))
  }

  /** `replace(/,/g, ' ')`. */
  function ReplaceCommas(s: string): (r: string)
    ensures |r| == |s|
    ensures forall k :: 0 <= k < |s| ==> r[k] == (if s[k] == ',' then ' ' else s[k])
  {
    if s == [] then [] else [if s[0] == ',' then ' ' else s[0]] + ReplaceCommas(s[1..])
  }

  /** The length of the run of non-space characters s starts with. */
  function SpanNonSpace(s: string): (p: nat)
    ensures p <= |s|
    ensures forall k :: 0 <= k < p ==> !IsSpace(s[k])
    ensures p < |s| ==> IsSpace(s[p])
  {
    if s == [] || IsSpace(s[0]) then 0 else 1 + SpanNonSpace(s[1..])
  }

  /** The length of the run of space characters s starts with. */
  function SpanSpace(s: string): (p: nat)
    ensures p <= |s|
    ensures forall k :: 0 <= k < p ==> IsSpace(s[k])
    ensures p < |s| ==> !IsSpace(s[p])
  {
    if s == [] || !IsSpace(s[0]) then 0 else 1 + SpanSpace(s[1..])
  }

  /** `split(/\s+/)`: the pieces between the maximal runs of white space. */
  function Split(s: string): seq<string>
    decreases |s|
  {
    var p := SpanNonSpace(s);
    if p == |s| then [s] else [s[..p]] + Split(s[NextPiece(s)..])
  }

  /** Where the piece after the first run of white space starts. */
  function NextPiece(s: string): (q: nat)
    requires SpanNonSpace(s) < |s|
    ensures SpanNonSpace(s) < q <= |s|
    ensures forall k :: SpanNonSpace(s) <= k < q ==> IsSpace(s[k])
    ensures q < |s| ==> !IsSpace(s[q])
  {
    var p := SpanNonSpace(s);
    assert forall k :: p <= k < |s| ==> s[k] == s[p..][k - p];
    p + SpanSpace(s[p..])
  }

  /** The token list `polylineLength` builds from an already trimmed string. */
  function Tokens(raw: string): seq<string> {
    Split(Trim(ReplaceCommas(raw)))
  }

  /** s without the characters `drop` selects. */
  function Without(s: string, drop: char -> bool): string {
    if s == [] then [] else (if drop(s[0]) then [] else [s[0]]) + Without(s[1..], drop)
  }

  function Flatten(ts: seq<string>): string {
    if ts == [] then [] else ts[0] + Flatten(ts[1..])
  }

  lemma {:induction false} WithoutConcat(a: string, b: string, drop: char -> bool)
    ensures Without(a + b, drop) == Without(a, drop) + Without(b, drop)
    decreases |a|
  {
    if a == [] {
      assert a + b == b;
    } else {
      assert (a + b)[1..] == a[1..] + b;
      WithoutConcat(a[1..], b, drop);
    }
  }

  lemma {:induction false} WithoutTrimStart(s: string, drop: char -> bool)
    requires forall c :: IsSpace(c) ==> drop(c)
    ensures Without(TrimStart(s), drop) == Without(s, drop)
    decreases |s|
  {
    if s != [] && IsSpace(s[0]) {
      WithoutTrimStart(s[1..], drop);
    }
  }

  lemma {:induction false} WithoutTrimEnd(s: string, drop: char -> bool)
    requires forall c :: IsSpace(c) ==> drop(c)
    ensures Without(TrimEnd(s), drop) == Without(s, drop)
    decreases |s|
  {
    if s != [] && IsSpace(s[|s| - 1]) {
      var n := |s| - 1;
      WithoutTrimEnd(s[..n], drop);
      assert s == s[..n] + [s[n]];
      WithoutConcat(s[..n], [s[n]], drop);
    }
  }

  /** Trimming removes only separators. */
  lemma WithoutTrim(s: string, drop: char -> bool)
    requires forall c :: IsSpace(c) ==> drop(c)
    ensures Without(Trim(s), drop) == Without(s, drop)
  {
    WithoutTrimStart(s, drop);
    WithoutTrimEnd(TrimStart(s), drop);
  }

  lemma {:induction false} WithoutReplaceCommas(s: string)
    ensures Without(ReplaceCommas(s), IsSpace) == Without(s, IsSeparator)
    decreases |s|
  {
    if s != [] {
      WithoutReplaceCommas(s[1..]);
      assert ReplaceCommas(s)[1..] == ReplaceCommas(s[1..]);
    }
  }

  lemma {:induction false} WithoutNone(s: string, drop: char -> bool)
    requires forall k :: 0 <= k < |s| ==> !drop(s[k])
    ensures Without(s, drop) == s
    decreases |s|
  {
    if s != [] {
      WithoutNone(s[1..], drop);
    }
  }

  /** The pieces of a split, put back together, are the string without its white space. */
  lemma {:induction false} FlattenSplit(s: string)
    ensures Flatten(Split(s)) == Without(s, IsSpace)
    decreases |s|
  {
    var p := SpanNonSpace(s);
    if p < |s| {
      var rest := s[NextPiece(s)..];
      FlattenSplit(rest);
      SplitStep(s);
      WithoutStep(s);
    } else {
      assert Flatten(Split(s)) == s + Flatten([]);
      WithoutNone(s, IsSpace);
    }
  }

  /** One step of FlattenSplit: the first piece, then the rest. */
  lemma SplitStep(s: string)
    requires SpanNonSpace(s) < |s|
    ensures Flatten(Split(s)) == s[..SpanNonSpace(s)] + Flatten(Split(s[NextPiece(s)..]))
  {
    var p, q := SpanNonSpace(s), NextPiece(s);
    var ts := Split(s[q..]);
    assert Split(s) == [s[..p]] + ts;
    assert ([s[..p]] + ts)[1..] == ts;
  }

  lemma WithoutStep(s: string)
    requires SpanNonSpace(s) < |s|
    ensures Without(s, IsSpace) == s[..SpanNonSpace(s)] + Without(s[NextPiece(s)..], IsSpace)
  {
    var p, q := SpanNonSpace(s), NextPiece(s);
    WithoutKeepRun(s, p);
    WithoutSkipRun(s, p, q);
  }

  /** A leading run of kept characters passes through unchanged. */
  lemma {:induction false} WithoutKeepRun(s: string, n: nat)
    requires n <= |s| && forall k :: 0 <= k < n ==> !IsSpace(s[k])
    ensures Without(s, IsSpace) == s[..n] + Without(s[n..], IsSpace)
    decreases n
  {
    if n > 0 {
      WithoutKeepRun(s[1..], n - 1);
      assert s[1..][n - 1..] == s[n..];
      assert s[..n] == [s[0]] + s[1..][..n - 1];
    }
  }

  /** A run of white space from p to q disappears. */
  lemma {:induction false} WithoutSkipRun(s: string, p: nat, q: nat)
    requires p <= q <= |s| && forall k :: p <= k < q ==> IsSpace(s[k])
    ensures Without(s[p..], IsSpace) == Without(s[q..], IsSpace)
    decreases q - p
  {
    if p < q {
      WithoutSkipRun(s, p + 1, q);
      assert s[p..][0] == s[p];
      assert s[p..][1..] == s[p + 1..];
    }
  }

  /** No piece of a split holds white space. */
  lemma {:induction false} SplitPiecesHaveNoSpace(s: string)
    ensures forall t, k :: t in Split(s) && 0 <= k < |t| ==> !IsSpace(t[k])
    decreases |s|
  {
    var p := SpanNonSpace(s);
    if p < |s| {
      SplitPiecesHaveNoSpace(s[NextPiece(s)..]);
    }
  }

  /** A string that neither starts nor ends with white space splits into non-empty pieces. */
  lemma {:induction false} SplitPiecesNonEmpty(s: string)
    requires s != [] && !IsSpace(s[0]) && !IsSpace(s[|s| - 1])
    ensures forall t :: t in Split(s) ==> t != []
    decreases |s|
  {
    var p := SpanNonSpace(s);
    if p < |s| {
      var q := NextPiece(s);
      assert q < |s| by {
        assert IsSpace(s[q - 1]);
      }
      assert !IsSpace(s[q..][0]);
      SplitPiecesNonEmpty(s[q..]);
    }
  }

  /** The pieces put back together with one space between neighbours. */
  function JoinWithSpace(ts: seq<string>): string
    decreases |ts|
  {
    if ts == [] then [] else if |ts| == 1 then ts[0] else ts[0] + " " + JoinWithSpace(ts[1..])
  }

  /** s with every maximal run of white space replaced by one space. */
  function CollapseSpace(s: string): string
    decreases |s|
  {
    if s == [] then []
    else if IsSpace(s[0]) then " " + CollapseSpace(s[SpanSpace(s)..])
    else [s[0]] + CollapseSpace(s[1..])
  }

  /** A leading run without white space passes through the collapse unchanged. */
  lemma {:induction false} CollapseKeepRun(s: string, n: nat)
    requires n <= |s| && forall k :: 0 <= k < n ==> !IsSpace(s[k])
    ensures CollapseSpace(s) == s[..n] + CollapseSpace(s[n..])
    decreases n
  {
    if n > 0 {
      CollapseKeepRun(s[1..], n - 1);
      assert s[1..][n - 1..] == s[n..];
      assert s[..n] == [s[0]] + s[1..][..n - 1];
    }
  }

  /**
   * `split(/\s+/)` cuts at every maximal run of white space and nowhere
   * else: joining the pieces with single spaces gives the string with each
   * such run collapsed to one space.
   */
  lemma {:induction false} JoinSplit(s: string)
    ensures JoinWithSpace(Split(s)) == CollapseSpace(s)
    decreases |s|
  {
    var p := SpanNonSpace(s);
    CollapseKeepRun(s, p);
    if p == |s| {
      assert Split(s) == [s];
      assert s[..p] == s && s[p..] == [];
    } else {
      JoinSplit(s[NextPiece(s)..]);
      JoinStep(s);
      CollapseStep(s);
    }
  }

  /** One step of JoinSplit on the split side: the first piece, a space, the rest. */
  lemma JoinStep(s: string)
    requires SpanNonSpace(s) < |s|
    ensures JoinWithSpace(Split(s)) == s[..SpanNonSpace(s)] + " " + JoinWithSpace(Split(s[NextPiece(s)..]))
  {
    var p, q := SpanNonSpace(s), NextPiece(s);
    var ts := Split(s[q..]);
    assert ts != [];
    assert Split(s) == [s[..p]] + ts;
    assert ([s[..p]] + ts)[1..] == ts;
  }

  /** One step of JoinSplit on the collapse side: the run of white space after the first piece becomes one space. */
  lemma CollapseStep(s: string)
    requires SpanNonSpace(s) < |s|
    ensures CollapseSpace(s[SpanNonSpace(s)..]) == " " + CollapseSpace(s[NextPiece(s)..])
  {
    var p, q := SpanNonSpace(s), NextPiece(s);
    var t := s[p..];
    assert IsSpace(t[0]);
    assert t[SpanSpace(t)..] == s[q..];
  }

  lemma {:induction false} TrimStartShape(s: string)
    ensures TrimStart(s) == [] || !IsSpace(TrimStart(s)[0])
    ensures |TrimStart(s)| <= |s| && TrimStart(s) == s[|s| - |TrimStart(s)|..]
    decreases |s|
  {
    if s != [] && IsSpace(s[0]) {
      TrimStartShape(s[1..]);
    }
  }

  lemma {:induction false} TrimEndShape(s: string)
    requires s == [] || !IsSpace(s[0])
    ensures |TrimEnd(s)| <= |s|
    ensures TrimEnd(s) == [] || (!IsSpace(TrimEnd(s)[0]) && !IsSpace(TrimEnd(s)[|TrimEnd(s)| - 1]))
    ensures TrimEnd(s) == s[..|TrimEnd(s)|]
    decreases |s|
  {
    if s != [] && IsSpace(s[|s| - 1]) {
      TrimEndShape(s[..|s| - 1]);
    }
  }

  /**
   * The tokens of a points string: no token holds a comma or white space,
   * none is empty unless the string holds nothing but separators, together
   * they are exactly the string's non-separator characters, in order, and
   * they end exactly where a run of separators begins.
   */
  lemma TokensExactly(raw: string)
    ensures forall t, k :: t in Tokens(raw) && 0 <= k < |t| ==> !IsSeparator(t[k])
    ensures Trim(ReplaceCommas(raw)) != [] ==> forall t :: t in Tokens(raw) ==> t != []
    ensures Flatten(Tokens(raw)) == Without(raw, IsSeparator)
    ensures JoinWithSpace(Tokens(raw)) == CollapseSpace(Trim(ReplaceCommas(raw)))
  {
    var r := ReplaceCommas(raw);
    var trimmed := Trim(r);
    SplitPiecesHaveNoSpace(trimmed);
    TrimStartShape(r);
    TrimEndShape(TrimStart(r));
    assert forall k :: 0 <= k < |trimmed| ==> trimmed[k] != ',';
    FlattenSplit(trimmed);
    forall t, k | t in Tokens(raw) && 0 <= k < |t|
      ensures !IsSeparator(t[k])
    {
      FlattenMember(Split(trimmed), t, k);
      WithoutSubset(trimmed, IsSpace, t[k]);
    }
    if trimmed != [] {
      SplitPiecesNonEmpty(trimmed);
    }
    WithoutTrim(r, IsSpace);
    WithoutReplaceCommas(raw);
    JoinSplit(trimmed);
  }

  /** A character of a member of ts is a character of Flatten(ts). */
  lemma {:induction false} FlattenMember(ts: seq<string>, t: string, k: nat)
    requires t in ts && k < |t|
    ensures t[k] in Flatten(ts)
    decreases |ts|
  {
    if ts[0] != t {
      FlattenMember(ts[1..], t, k);
    }
  }

  /** Every character of Without(s, drop) is a character of s. */
  lemma {:induction false} WithoutSubset(s: string, drop: char -> bool, c: char)
    requires c in Without(s, drop)
    ensures c in s && !drop(c)
    decreases |s|
  {
    if s != [] && !(drop(s[0]) == false && c == s[0]) {
      WithoutSubset(s[1..], drop, c);
    }
  }

  // ---------------------------------------------------------------------------
  // Numbers, vertices and the length of a polyline
  // ---------------------------------------------------------------------------

  /** `.map(parseFloat).filter(isFinite)`. */
  function FiniteNumbers(parse: string -> Option<real>, tokens: seq<string>): (nums: seq<real>)
    ensures |nums| <= |tokens|
    ensures (forall k :: 0 <= k < |tokens| ==> parse(tokens[k]).Some?) ==>
      |nums| == |tokens| && forall k :: 0 <= k < |nums| ==> parse(tokens[k]) == Some(nums[k])
    ensures (forall k :: 0 <= k < |tokens| ==> parse(tokens[k]).None?) ==> nums == []
    decreases |tokens|
  {
    if tokens == [] then []
    else (if parse(tokens[0]).Some? then [parse(tokens[0]).value] else []) + FiniteNumbers(parse, tokens[1..])
  }

  /** The filter keeps the order of the tokens: it works token by token. */
  lemma {:induction false} FiniteNumbersConcat(parse: string -> Option<real>, a: seq<string>, b: seq<string>)
    ensures FiniteNumbers(parse, a + b) == FiniteNumbers(parse, a) + FiniteNumbers(parse, b)
    decreases |a|
  {
    if a != [] {
      assert (a + b)[0] == a[0] && (a + b)[1..] == a[1..] + b;
      FiniteNumbersConcat(parse, a[1..], b);
    } else {
      assert a + b == b;
    }
  }

  datatype Vertex = Vertex(x: real, y: real)

  /** The numbers read as (x, y) pairs; a trailing odd number belongs to no vertex. */
  function Vertices(nums: seq<real>): (pts: seq<Vertex>)
    ensures |pts| == |nums| / 2
    ensures forall k :: 0 <= k < |pts| ==> pts[k] == Vertex(nums[k + k], nums[k + k + 1])
    decreases |nums|
  {
    if |nums| < 2 then [] else [Vertex(nums[0], nums[1])] + Vertices(nums[2..])
  }

  /** A trailing odd coordinate does not change the vertices. */
  lemma OddCoordinateIgnored(nums: seq<real>, z: real)
    requires |nums| % 2 == 0
    ensures Vertices(nums + [z]) == Vertices(nums)
  {
    var a, b := Vertices(nums + [z]), Vertices(nums);
    assert |a| == |b|;
    forall k | 0 <= k < |a|
      ensures a[k] == b[k]
    {
      assert (nums + [z])[k + k] == nums[k + k] && (nums + [z])[k + k + 1] == nums[k + k + 1];
    }
  }

  function Segment(sqrt: real -> real, a: Vertex, b: Vertex): real
    requires IsSqrt(sqrt)
  {
    Dist(sqrt, a.x, a.y, b.x, b.y)
  }

  /** The sum of the lengths of the segments between consecutive vertices. */
  function PathLength(sqrt: real -> real, pts: seq<Vertex>): (len: real)
    requires IsSqrt(sqrt)
    ensures len >= 0.0
    decreases |pts|
  {
    if |pts| < 2 then 0.0
    else PathLength(sqrt, pts[..|pts| - 1]) + Segment(sqrt, pts[|pts| - 2], pts[|pts| - 1])
  }

  /** Cutting a polyline at a vertex splits its length into the lengths of the two parts. */
  lemma {:induction false} PathLengthSplit(sqrt: real -> real, a: seq<Vertex>, b: seq<Vertex>)
    requires IsSqrt(sqrt) && a != [] && b != []
    ensures PathLength(sqrt, a + b)
      == PathLength(sqrt, a) + Segment(sqrt, a[|a| - 1], b[0]) + PathLength(sqrt, b)
    decreases |b|
  {
    if |b| == 1 {
      assert (a + b)[..|a + b| - 1] == a;
    } else {
      var b' := b[..|b| - 1];
      PathLengthSplit(sqrt, a, b');
      assert (a + b)[..|a + b| - 1] == a + b';
      assert b'[..|b'| - 1] == b[..|b| - 2] || |b'| < 2;
    }
  }

  /** What `polylineLength(points)` returns, for a points attribute (None for null). */
  function PolylineValue(sqrt: real -> real, parse: string -> Option<real>, points: Option<string>): real
    requires IsSqrt(sqrt)
  {
    if points.None? || Trim(points.value) == [] then 0.0
    else
      var nums := FiniteNumbers(parse, Tokens(Trim(points.value)));
      if |nums| < 4 then 0.0 else PathLength(sqrt, Vertices(nums))
  }

  /** Fewer than two vertices make no segment, so the `< 4` guard changes no result. */
  lemma ShortPolylineIsZero(sqrt: real -> real, nums: seq<real>)
    requires IsSqrt(sqrt) && |nums| < 4
    ensures PathLength(sqrt, Vertices(nums)) == 0.0
  {
  }

  /** Adding a vertex adds the length of the segment it ends. */
  lemma PathExtend(sqrt: real -> real, pts: seq<Vertex>, n: nat)
    requires IsSqrt(sqrt) && 1 <= n < |pts|
    ensures PathLength(sqrt, pts[..n + 1]) == PathLength(sqrt, pts[..n]) + Segment(sqrt, pts[n - 1], pts[n])
  {
    var pre := pts[..n + 1];
    assert pre[..|pre| - 1] == pts[..n];
  }

  lemma PathStep(sqrt: real -> real, nums: seq<real>, n: nat)
    requires IsSqrt(sqrt) && 1 <= n < |nums| / 2
    ensures PathLength(sqrt, Vertices(nums)[..n + 1])
      == PathLength(sqrt, Vertices(nums)[..n]) + Dist(sqrt, nums[n + n - 2], nums[n + n - 1], nums[n + n], nums[n + n + 1])
  {
    var pts := Vertices(nums);
    PathExtend(sqrt, pts, n);
    assert pts[n - 1] == Vertex(nums[n + n - 2], nums[n + n - 1]);
  }

  /** The loop of `polylineLength`: the sum of the segments between consecutive vertices. */
  method PathTotal(sqrt: real -> real, nums: seq<real>) returns (total: real)
    requires IsSqrt(sqrt) && |nums| >= 4
    ensures total == PathLength(sqrt, Vertices(nums))
  {
    total := 0.0;
    var n := 1;
    while n + n + 1 < |nums|
      invariant 1 <= n <= |nums| / 2
      invariant total == PathLength(sqrt, Vertices(nums)[..n])
    {
      PathStep(sqrt, nums, n);
      total := total + Dist(sqrt, nums[n + n - 2], nums[n + n - 1], nums[n + n], nums[n + n + 1]);
      n := n + 1;
    }
    assert Vertices(nums)[..n] == Vertices(nums);
  }

  /** `polylineLength(points)`. */
  method PolylineLength(sqrt: real -> real, parse: string -> Option<real>, points: Option<string>) returns (total: real)
    requires IsSqrt(sqrt)
    ensures total == PolylineValue(sqrt, parse, points)
    ensures total >= 0.0
    ensures points.None? || Trim(points.value) == [] ==> total == 0.0
    ensures points.Some? && |FiniteNumbers(parse, Tokens(Trim(points.value)))| < 4 ==> total == 0.0
  {
    if points.None? || points.value == [] {
      return 0.0;
    }
    var raw := Trim(points.value);
    if raw == [] {
      return 0.0;
    }
    var nums := FiniteNumbers(parse, Tokens(raw));
    if |nums| < 4 {
      return 0.0;
    }
    total := PathTotal(sqrt, nums);
  }
}
