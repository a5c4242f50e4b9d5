/**
 * The window-management rules of `CanonicalSurfaceInfoCopy`
 * (examples/server_example_canonical_surface_info.cpp): six classifiers
 * over the surface type or state, and `constrain_resize`.
 */
module CanonicalSurfaceInfo {
  import opened Optional
  import opened Arithmetic

  /** The surface types, in the order of Mir's `MirSurfaceType`. */
  datatype SurfaceType =
    | Normal | Utility | Dialog | Gloss | Freestyle | Menu | InputMethod | Satellite | Tip

  /** Deprecated aliases that Mir keeps for two of the types. */
  const Overlay: SurfaceType := Gloss
  const Popover: SurfaceType := Menu

  datatype SurfaceState =
    | Unknown | Restored | Minimized | Maximized | VertMaximized | Fullscreen | HorizMaximized | Hidden

  // ---------------------------------------------------------------------
  // Classifiers
  // ---------------------------------------------------------------------

  /** `must_not_have_parent`: only top-level windows. */
  predicate MustNotHaveParent(t: SurfaceType): (r: bool)
    ensures r <==> t in {Normal, Utility}
  {
    match t
    case Normal | Utility => true
    case _ => false
  }

  /** `can_be_active`: every type except those that cannot take input focus. */
  predicate CanBeActive(t: SurfaceType): (r: bool)
    ensures r <==> t in {Normal, Utility, Dialog, Satellite, Freestyle, Menu, InputMethod}
    ensures MustNotHaveParent(t) ==> r
  {
    match t
    case Normal | Utility | Dialog | Satellite | Freestyle | Menu | InputMethod => true
    case Gloss | Tip => false
  }

  /** `must_have_parent`: overlays, input methods, satellites and tips. */
  predicate MustHaveParent(t: SurfaceType): (r: bool)
    ensures r <==> t in {Overlay, InputMethod, Satellite, Tip}
    ensures r ==> !MustNotHaveParent(t)
  {
    match t
    case Gloss | InputMethod | Satellite | Tip => true
    case _ => false
  }

  /**
   * `can_morph_to`: normal, utility, dialog and satellite surfaces may change
   * into one another, and a popover may become a dialog; nothing else.
   */
  predicate CanMorphTo(from: SurfaceType, to: SurfaceType): (r: bool)
    ensures r ==> to in {Normal, Utility, Satellite, Dialog}
    ensures from == Popover ==> (r <==> to == Dialog)
    ensures r ==> CanBeActive(from) && CanBeActive(to)
  {
    match to
    case Normal | Utility | Satellite =>
      (match from
       case Normal | Utility | Dialog | Satellite => true
       case _ => false)
    case Dialog =>
      (match from
       case Normal | Utility | Dialog | Menu | Satellite => true
       case _ => false)
    case _ => false
  }

  /** `is_visible`: hidden and minimized surfaces are not shown. */
  predicate IsVisible(state: SurfaceState): (r: bool)
    ensures !r <==> state in {Hidden, Minimized}
  {
    match state
    case Hidden | Minimized => false
    case _ => true
  }

  /** `needs_titlebar`: decorations for every type but five. */
  predicate NeedsTitlebar(t: SurfaceType): (r: bool)
    ensures !r <==> t in {Freestyle, Menu, InputMethod, Gloss, Tip}
    ensures r ==> CanBeActive(t)
    ensures MustNotHaveParent(t) ==> r
  {
    match t
    case Freestyle | Menu | InputMethod | Gloss | Tip => false
    case _ => true
  }

  /** Morphing is reversible, except for a popover becoming a dialog. */
  lemma MorphReversible(from: SurfaceType, to: SurfaceType)
    requires CanMorphTo(from, to) && from != Popover
    ensures CanMorphTo(to, from)
  {
  }

  // ---------------------------------------------------------------------
  // Geometry and the per-surface record
  // ---------------------------------------------------------------------

  /** `std::numeric_limits<int>::max()`, the default maximum dimension. */
  const IntMax: int := 0x7fff_ffff

  datatype Point = Point(x: int, y: int)
  datatype Size = Size(width: int, height: int)
  /** A ratio width:height; the components are unsigned in the source. */
  datatype AspectRatio = AspectRatio(width: nat, height: nat)

  /** The optional size constraints a client gives when it creates a surface. */
  datatype CreationParameters = CreationParameters(
    minWidth: Option<int>, minHeight: Option<int>,
    maxWidth: Option<int>, maxHeight: Option<int>,
    widthInc: Option<int>, heightInc: Option<int>,
    minAspect: Option<AspectRatio>, maxAspect: Option<AspectRatio>)

  datatype SurfaceInfo = SurfaceInfo(
    surfaceType: SurfaceType, state: SurfaceState,
    restoreTopLeft: Point, restoreSize: Size,
    minWidth: int, minHeight: int, maxWidth: int, maxHeight: int,
    widthInc: Option<int>, heightInc: Option<int>,
    minAspect: Option<AspectRatio>, maxAspect: Option<AspectRatio>)

  /** A dimension lies between a lower and an upper bound. */
  predicate Within(lo: int, v: int, hi: int) {
    lo <= v <= hi
  }

  /**
   * The `CanonicalSurfaceInfoCopy` constructor: type, state and restore
   * rectangle from the surface; an unset minimum is 0 and an unset maximum
   * is `IntMax`, so an unset bound admits every size from 0 to `IntMax`.
   */
  function FromCreationParameters(surfaceType: SurfaceType, state: SurfaceState,
                                  topLeft: Point, size: Size, params: CreationParameters): (r: SurfaceInfo)
    ensures r.surfaceType == surfaceType && r.state == state
    ensures r.restoreTopLeft == topLeft && r.restoreSize == size
    ensures params.minWidth.Some? ==> r.minWidth == params.minWidth.value
    ensures params.maxWidth.Some? ==> r.maxWidth == params.maxWidth.value
    ensures params.minHeight.Some? ==> r.minHeight == params.minHeight.value
    ensures params.maxHeight.Some? ==> r.maxHeight == params.maxHeight.value
    ensures params.minWidth.None? ==> r.minWidth == 0
    ensures params.maxWidth.None? ==> r.maxWidth == IntMax
    ensures params.minHeight.None? ==> r.minHeight == 0
    ensures params.maxHeight.None? ==> r.maxHeight == IntMax
    ensures params.minWidth.None? && params.maxWidth.None? ==>
              forall w :: 0 <= w <= IntMax ==> Within(r.minWidth, w, r.maxWidth)
    ensures params.minHeight.None? && params.maxHeight.None? ==>
              forall h :: 0 <= h <= IntMax ==> Within(r.minHeight, h, r.maxHeight)
    ensures r.widthInc == params.widthInc && r.heightInc == params.heightInc
    ensures r.minAspect == params.minAspect && r.maxAspect == params.maxAspect
  {
    SurfaceInfo(surfaceType, state, topLeft, size,
                params.minWidth.GetOr(0), params.minHeight.GetOr(0),
                params.maxWidth.GetOr(IntMax), params.maxHeight.GetOr(IntMax),
                params.widthInc, params.heightInc, params.minAspect, params.maxAspect)
  }

  // ---------------------------------------------------------------------
  // The steps of constrain_resize
  // ---------------------------------------------------------------------

  /** Ceiling division of positive numbers, written as in the source. */
  function CeilDiv(n: int, d: int): (q: int)
    requires n > 0 && d > 0
    ensures q >= 1 && q * d >= n && (q - 1) * d < n
  {
    var q := (n + (d - 1)) / d;
    assert n + (d - 1) == q * d + (n + (d - 1)) % d;
    q
  }

  /** The size satisfies a minimum aspect ratio: width/height >= ar. */
  predicate AtLeastAspect(size: Size, ar: AspectRatio) {
    size.width * ar.height >= size.height * ar.width
  }

  /** The size satisfies a maximum aspect ratio: width/height <= ar. */
  predicate AtMostAspect(size: Size, ar: AspectRatio) {
    size.width * ar.height <= size.height * ar.width
  }

  /**
   * The minimum-aspect step: a size that is too tall is widened or made
   * shorter, whichever needs the smaller correction (ties go to the height).
   */
  function MinAspectCorrection(size: Size, ar: AspectRatio): (r: Size)
    requires ar.width > 0 && ar.height > 0
    ensures AtLeastAspect(r, ar)
    ensures r == size <==> AtLeastAspect(size, ar)
    ensures r.width >= size.width && r.height <= size.height
    ensures r.width == size.width || r.height == size.height
    ensures r.width != size.width ==> !AtLeastAspect(Size(r.width - 1, r.height), ar)
    ensures r.height != size.height ==> !AtLeastAspect(Size(r.width, r.height + 1), ar)
  {
    var error := size.height * ar.width - size.width * ar.height;
    if error > 0 then
      var widthCorrection := CeilDiv(error, ar.height);
      var heightCorrection := CeilDiv(error, ar.width);
      if widthCorrection < heightCorrection then
        assert (size.width + widthCorrection) * ar.height
            == size.width * ar.height + widthCorrection * ar.height;
        assert (size.width + widthCorrection - 1) * ar.height
            == size.width * ar.height + (widthCorrection - 1) * ar.height;
        Size(size.width + widthCorrection, size.height)
      else
        assert (size.height - heightCorrection) * ar.width
            == size.height * ar.width - heightCorrection * ar.width;
        assert (size.height - heightCorrection + 1) * ar.width
            == size.height * ar.width - (heightCorrection - 1) * ar.width;
        Size(size.width, size.height - heightCorrection)
    else
      size
  }

  /**
   * The maximum-aspect step: a size that is too wide is made narrower or
   * taller, whichever needs the smaller correction (ties go to the height).
   */
  function MaxAspectCorrection(size: Size, ar: AspectRatio): (r: Size)
    requires ar.width > 0 && ar.height > 0
    ensures AtMostAspect(r, ar)
    ensures r == size <==> AtMostAspect(size, ar)
    ensures r.width <= size.width && r.height >= size.height
    ensures r.width == size.width || r.height == size.height
    ensures r.width != size.width ==> !AtMostAspect(Size(r.width + 1, r.height), ar)
    ensures r.height != size.height ==> !AtMostAspect(Size(r.width, r.height - 1), ar)
  {
    var error := size.width * ar.height - size.height * ar.width;
    if error > 0 then
      var heightCorrection := CeilDiv(error, ar.width);
      var widthCorrection := CeilDiv(error, ar.height);
      if widthCorrection < heightCorrection then
        assert (size.width - widthCorrection) * ar.height
            == size.width * ar.height - widthCorrection * ar.height;
        assert (size.width - widthCorrection + 1) * ar.height
            == size.width * ar.height - (widthCorrection - 1) * ar.height;
        Size(size.width - widthCorrection, size.height)
      else
        assert (size.height + heightCorrection) * ar.width
            == size.height * ar.width + heightCorrection * ar.width;
        assert (size.height + heightCorrection - 1) * ar.width
            == size.height * ar.width + (heightCorrection - 1) * ar.width;
        Size(size.width, size.height + heightCorrection)
    else
      size
  }

  /** C++ integer division, which truncates toward zero. */
  function TruncDiv(a: int, b: int): (q: int)
    requires b > 0
    ensures a >= 0 ==> 0 <= a - b * q < b
    ensures a < 0 ==> -b < a - b * q <= 0
  {
    if a >= 0 then
      assert a == b * (a / b) + a % b;
      a / b
    else
      assert -a == b * ((-a) / b) + (-a) % b;
      -((-a) / b)
  }

  /**
   * C++ `%`: the remainder takes the sign of the dividend, and it is zero
   * exactly when the Euclidean remainder is.
   */
  function TruncRem(a: int, b: int): (r: int)
    requires b > 0
    ensures a >= 0 ==> r == a % b
    ensures a >= 0 ==> 0 <= r < b
    ensures a < 0 ==> -b < r <= 0
    ensures a == b * TruncDiv(a, b) + r
    ensures r == 0 <==> a % b == 0
  {
    var r := a - b * TruncDiv(a, b);
    if a >= 0 then
      DivModUnique(a, b, TruncDiv(a, b), r);
      r
    else
      NegatedRemainderZero(-a, b);
      DivModUnique(-a, b, -TruncDiv(a, b), -r);
      r
  }

  /** A multiple of `b` negated is still one. */
  lemma NegatedRemainderZero(m: int, b: int)
    requires b > 0
    ensures m % b == 0 <==> (-m) % b == 0
  {
    if m % b == 0 {
      assert m == b * (m / b);
      DivModUnique(-m, b, -(m / b), 0);
    }
    if (-m) % b == 0 {
      assert -m == b * ((-m) / b);
      DivModUnique(m, b, -((-m) / b), 0);
    }
  }

  /**
   * The increment step: a value off the grid `base + k*inc` is rounded to
   * the nearest grid point, halves rounding up; a value on the grid is kept.
   */
  function SnapToIncrement(v: int, base: int, inc: int): (r: int)
    requires inc > 0
    ensures base <= v ==> base <= r && (r - base) % inc == 0
    ensures base <= v ==> -inc < 2 * (r - v) <= inc
    ensures base <= v && (v - base) % inc == 0 ==> r == v
  {
    var offset := v - base;
    if TruncRem(offset, inc) != 0 then
      SnapRoundsToNearest(offset, inc);
      base + inc * TruncDiv(TruncDiv(2 * offset + inc, 2), inc)
    else
      v
  }

  lemma SnapRoundsToNearest(offset: int, inc: int)
    requires inc > 0
    ensures offset >= 0 ==>
              var snapped := inc * ((2 * offset + inc) / 2 / inc);
              snapped >= 0 && snapped % inc == 0 && -inc < 2 * (snapped - offset) <= inc
  {
    if offset < 0 {
      return;
    }
    var half := (2 * offset + inc) / 2;
    var q := half / inc;
    assert 2 * half <= 2 * offset + inc < 2 * half + 2;
    assert inc * q <= half < inc * q + inc by {
      assert half == inc * q + half % inc;
    }
    assert q >= 0;
    DivModUnique(inc * q, inc, q, 0);
  }

  /**
   * The anchoring step as the source writes it: on a left (top) resize, x
   * (y) moves by the change in width (height). The edge opposite the
   * dragged one then moves by twice that change instead of staying put.
   */
  function AnchorAsWritten(requestedPos: Point, requestedSize: Size, newSize: Size,
                           leftResize: bool, topResize: bool): (p: Point)
    ensures leftResize ==>
              p.x + newSize.width == requestedPos.x + requestedSize.width
                                     + 2 * (newSize.width - requestedSize.width)
    ensures topResize ==>
              p.y + newSize.height == requestedPos.y + requestedSize.height
                                      + 2 * (newSize.height - requestedSize.height)
    ensures !leftResize ==> p.x == requestedPos.x
    ensures !topResize ==> p.y == requestedPos.y
    ensures newSize == requestedSize ==> p == requestedPos
  {
    var x := if leftResize then requestedPos.x + (newSize.width - requestedSize.width) else requestedPos.x;
    var y := if topResize then requestedPos.y + (newSize.height - requestedSize.height) else requestedPos.y;
    Point(x, y)
  }

  /**
   * A left-edge drag to x = 100 with width 200 (right edge at 300), cut to
   * width 150 by a maximum: the as-written step puts x at 50, so the right
   * edge lands at 200 instead of staying at 300.
   */
  lemma AnchorAsWrittenMovesRightEdge()
    ensures var p := AnchorAsWritten(Point(100, 0), Size(200, 100), Size(150, 100), true, false);
            p.x == 50 && p.x + 150 != 100 + 200
  {
  }

  /**
   * The anchoring step as intended: on a left (top) resize the right
   * (bottom) edge stays where the request put it; otherwise x (y) is kept.
   */
  function Anchor(requestedPos: Point, requestedSize: Size, newSize: Size,
                  leftResize: bool, topResize: bool): (p: Point)
    ensures leftResize ==> p.x + newSize.width == requestedPos.x + requestedSize.width
    ensures topResize ==> p.y + newSize.height == requestedPos.y + requestedSize.height
    ensures !leftResize ==> p.x == requestedPos.x
    ensures !topResize ==> p.y == requestedPos.y
    ensures newSize == requestedSize ==> p == requestedPos
  {
    var x := if leftResize then requestedPos.x + (requestedSize.width - newSize.width) else requestedPos.x;
    var y := if topResize then requestedPos.y + (requestedSize.height - newSize.height) else requestedPos.y;
    Point(x, y)
  }

  /** The two dimensions that constraints may change, per state. */
  predicate WidthFollowsRequest(state: SurfaceState) {
    state == Restored || state == VertMaximized
  }

  predicate HeightFollowsRequest(state: SurfaceState) {
    state == Restored || state == HorizMaximized
  }

  /** What the source divides by is positive. */
  predicate PositiveDivisors(info: SurfaceInfo) {
    (info.minAspect.Some? ==> info.minAspect.value.width > 0 && info.minAspect.value.height > 0) &&
    (info.maxAspect.Some? ==> info.maxAspect.value.width > 0 && info.maxAspect.value.height > 0) &&
    (info.widthInc.Some? ==> info.widthInc.value > 0) &&
    (info.heightInc.Some? ==> info.heightInc.value > 0)
  }

  /** A size that every constraint of the surface already accepts. */
  predicate MeetsConstraints(info: SurfaceInfo, size: Size)
    requires PositiveDivisors(info)
  {
    (info.minAspect.Some? ==> AtLeastAspect(size, info.minAspect.value)) &&
    (info.maxAspect.Some? ==> AtMostAspect(size, info.maxAspect.value)) &&
    Within(info.minWidth, size.width, info.maxWidth) &&
    Within(info.minHeight, size.height, info.maxHeight) &&
    (info.widthInc.Some? ==> (size.width - info.minWidth) % info.widthInc.value == 0) &&
    (info.heightInc.Some? ==> (size.height - info.minHeight) % info.heightInc.value == 0)
  }

  /**
   * The clamping step on one dimension: raised to the minimum first, then
   * lowered to the maximum, so that the maximum wins when the bounds cross.
   */
  function Clamp(v: int, lo: int, hi: int): (r: int)
    ensures lo <= hi ==> Within(lo, r, hi)
    ensures Within(lo, v, hi) ==> r == v
    ensures v < lo && lo <= hi ==> r == lo
    ensures hi < v ==> r == hi
    ensures hi < lo ==> r == hi
  {
    var raised := if lo > v then lo else v;
    if hi < raised then hi else raised
  }

  /**
   * One dimension after the clamping and increment steps. Between crossed
   * bounds nothing is promised beyond what `SnapToIncrement` gives.
   */
  function ConstrainedDimension(v: int, lo: int, hi: int, inc: Option<int>): (r: int)
    requires inc.Some? ==> inc.value > 0
    ensures lo <= hi && inc.None? ==> r == Clamp(v, lo, hi) && Within(lo, r, hi)
    ensures lo <= hi && inc.Some? ==>
              lo <= r && (r - lo) % inc.value == 0 && 2 * (r - hi) <= inc.value &&
              -inc.value < 2 * (r - Clamp(v, lo, hi)) <= inc.value
    ensures lo <= hi && v <= lo ==> r == lo
    ensures lo <= hi && hi <= v && inc.None? ==> r == hi
    ensures Within(lo, v, hi) && (inc.Some? ==> (v - lo) % inc.value == 0) ==> r == v
  {
    var clamped := Clamp(v, lo, hi);
    if inc.Some? then
      DivModUnique(0, inc.value, 0, 0);
      SnapToIncrement(clamped, lo, inc.value)
    else
      clamped
  }

  /** The aspect steps: the minimum-ratio correction, then the maximum-ratio one. */
  function AspectCorrected(info: SurfaceInfo, size: Size): (r: Size)
    requires PositiveDivisors(info)
    ensures info.maxAspect.Some? ==> AtMostAspect(r, info.maxAspect.value)
    ensures info.minAspect.Some? && info.maxAspect.None? ==> AtLeastAspect(r, info.minAspect.value)
    ensures info.minAspect.None? && info.maxAspect.None? ==> r == size
    ensures ((info.minAspect.Some? ==> AtLeastAspect(size, info.minAspect.value)) &&
             (info.maxAspect.Some? ==> AtMostAspect(size, info.maxAspect.value))) ==> r == size
  {
    var afterMin := if info.minAspect.Some? then MinAspectCorrection(size, info.minAspect.value) else size;
    if info.maxAspect.Some? then MaxAspectCorrection(afterMin, info.maxAspect.value) else afterMin
  }

  /**
   * A request of 10 by 20 under a minimum aspect of 1:1 and no other
   * constraint is made 10 by 10: the height shrinks to the width.
   */
  lemma SquareMinAspectExample(info: SurfaceInfo)
    requires info.minAspect == Some(AspectRatio(1, 1)) && info.maxAspect.None?
    requires info.widthInc.None? && info.heightInc.None?
    requires info.minWidth == 0 && info.minHeight == 0
    requires info.maxWidth == IntMax && info.maxHeight == IntMax
    ensures var corrected := AspectCorrected(info, Size(10, 20));
            Size(ConstrainedDimension(corrected.width, info.minWidth, info.maxWidth, info.widthInc),
                 ConstrainedDimension(corrected.height, info.minHeight, info.maxHeight, info.heightInc))
            == Size(10, 10)
  {
  }

  /**
   * The size half of `constrain_resize`: aspect corrections, then the
   * min/max clamps, then increment snapping, each dimension ending as
   * `ConstrainedDimension` of the aspect-corrected request.
   */
  method ConstrainSize(info: SurfaceInfo, requestedSize: Size) returns (newSize: Size)
    requires PositiveDivisors(info)
    ensures var corrected := AspectCorrected(info, requestedSize);
            newSize == Size(ConstrainedDimension(corrected.width, info.minWidth, info.maxWidth, info.widthInc),
                            ConstrainedDimension(corrected.height, info.minHeight, info.maxHeight, info.heightInc))
    ensures info.minWidth <= info.maxWidth ==>
              if info.widthInc.None? then Within(info.minWidth, newSize.width, info.maxWidth)
              else info.minWidth <= newSize.width &&
                   (newSize.width - info.minWidth) % info.widthInc.value == 0 &&
                   2 * (newSize.width - info.maxWidth) <= info.widthInc.value
    ensures info.minHeight <= info.maxHeight ==>
              if info.heightInc.None? then Within(info.minHeight, newSize.height, info.maxHeight)
              else info.minHeight <= newSize.height &&
                   (newSize.height - info.minHeight) % info.heightInc.value == 0 &&
                   2 * (newSize.height - info.maxHeight) <= info.heightInc.value
    ensures MeetsConstraints(info, requestedSize) ==> newSize == requestedSize
  {
    newSize := requestedSize;

    if info.minAspect.Some? {
      newSize := MinAspectCorrection(newSize, info.minAspect.value);
    }
    if info.maxAspect.Some? {
      newSize := MaxAspectCorrection(newSize, info.maxAspect.value);
    }
    assert newSize == AspectCorrected(info, requestedSize);
    newSize := ClampSize(info, newSize);
    newSize := SnapSize(info, newSize);
  }

  /** The four clamps of `constrain_resize`, in the source's order. */
  method ClampSize(info: SurfaceInfo, size: Size) returns (newSize: Size)
    ensures newSize == Size(Clamp(size.width, info.minWidth, info.maxWidth),
                            Clamp(size.height, info.minHeight, info.maxHeight))
  {
    newSize := size;
    if info.minWidth > newSize.width {
      newSize := newSize.(width := info.minWidth);
    }
    if info.minHeight > newSize.height {
      newSize := newSize.(height := info.minHeight);
    }
    if info.maxWidth < newSize.width {
      newSize := newSize.(width := info.maxWidth);
    }
    if info.maxHeight < newSize.height {
      newSize := newSize.(height := info.maxHeight);
    }
  }

  /** The increment steps of `constrain_resize` on a clamped size. */
  method SnapSize(info: SurfaceInfo, size: Size) returns (newSize: Size)
    requires PositiveDivisors(info)
    ensures newSize.width ==
              if info.widthInc.Some? then SnapToIncrement(size.width, info.minWidth, info.widthInc.value)
              else size.width
    ensures newSize.height ==
              if info.heightInc.Some? then SnapToIncrement(size.height, info.minHeight, info.heightInc.value)
              else size.height
  {
    newSize := size;
    if info.widthInc.Some? {
      newSize := newSize.(width := SnapToIncrement(newSize.width, info.minWidth, info.widthInc.value));
    }
    if info.heightInc.Some? {
      newSize := newSize.(height := SnapToIncrement(newSize.height, info.minHeight, info.heightInc.value));
    }
  }

  /**
   * The closing `switch` of `constrain_resize`: a dimension the state
   * maximizes or fixes takes the surface's current position and extent;
   * the others keep the constrained request.
   */
  method ApplyState(state: SurfaceState, surfaceTopLeft: Point, surfaceSize: Size,
                    pos: Point, size: Size)
    returns (newPos: Point, newSize: Size)
    ensures WidthFollowsRequest(state) ==> newPos.x == pos.x && newSize.width == size.width
    ensures !WidthFollowsRequest(state) ==> newPos.x == surfaceTopLeft.x && newSize.width == surfaceSize.width
    ensures HeightFollowsRequest(state) ==> newPos.y == pos.y && newSize.height == size.height
    ensures !HeightFollowsRequest(state) ==> newPos.y == surfaceTopLeft.y && newSize.height == surfaceSize.height
  {
    newPos, newSize := pos, size;
    match state
    case Restored =>
    case VertMaximized =>
      newPos := newPos.(y := surfaceTopLeft.y);
      newSize := newSize.(height := surfaceSize.height);
    case HorizMaximized =>
      newPos := newPos.(x := surfaceTopLeft.x);
      newSize := newSize.(width := surfaceSize.width);
    case _ =>
      newPos := surfaceTopLeft;
      newSize := surfaceSize;
  }

  /**
   * `constrain_resize` as the source writes it: the size is constrained,
   * the position is anchored by `AnchorAsWritten`, and the state decides
   * which dimensions follow the request. On a left (top) resize whose
   * width (height) the constraints change, the opposite edge moves by
   * twice the change.
   */
  method ConstrainResize(info: SurfaceInfo, surfaceTopLeft: Point, surfaceSize: Size,
                         requestedPos: Point, requestedSize: Size,
                         leftResize: bool, topResize: bool)
    returns (newPos: Point, newSize: Size)
    requires PositiveDivisors(info)
    // states that override the request
    ensures !WidthFollowsRequest(info.state) ==> newPos.x == surfaceTopLeft.x && newSize.width == surfaceSize.width
    ensures !HeightFollowsRequest(info.state) ==> newPos.y == surfaceTopLeft.y && newSize.height == surfaceSize.height
    // anchoring as written: the opposite edge moves by twice the change
    ensures WidthFollowsRequest(info.state) ==>
              if leftResize then
                newPos.x + newSize.width == requestedPos.x + requestedSize.width
                                            + 2 * (newSize.width - requestedSize.width)
              else newPos.x == requestedPos.x
    ensures HeightFollowsRequest(info.state) ==>
              if topResize then
                newPos.y + newSize.height == requestedPos.y + requestedSize.height
                                             + 2 * (newSize.height - requestedSize.height)
              else newPos.y == requestedPos.y
    // the size in the dimensions the state leaves free
    ensures var corrected := AspectCorrected(info, requestedSize);
            (WidthFollowsRequest(info.state) ==>
               newSize.width == ConstrainedDimension(corrected.width, info.minWidth, info.maxWidth, info.widthInc)) &&
            (HeightFollowsRequest(info.state) ==>
               newSize.height == ConstrainedDimension(corrected.height, info.minHeight, info.maxHeight, info.heightInc))
    // bounds, and the increment grid
    ensures WidthFollowsRequest(info.state) && info.minWidth <= info.maxWidth ==>
              if info.widthInc.None? then Within(info.minWidth, newSize.width, info.maxWidth)
              else info.minWidth <= newSize.width &&
                   (newSize.width - info.minWidth) % info.widthInc.value == 0 &&
                   2 * (newSize.width - info.maxWidth) <= info.widthInc.value
    ensures HeightFollowsRequest(info.state) && info.minHeight <= info.maxHeight ==>
              if info.heightInc.None? then Within(info.minHeight, newSize.height, info.maxHeight)
              else info.minHeight <= newSize.height &&
                   (newSize.height - info.minHeight) % info.heightInc.value == 0 &&
                   2 * (newSize.height - info.maxHeight) <= info.heightInc.value
    // a request that already fits is granted unchanged
    ensures info.state == Restored && MeetsConstraints(info, requestedSize) ==>
              newPos == requestedPos && newSize == requestedSize
  {
    var size := ConstrainSize(info, requestedSize);
    var pos := AnchorAsWritten(requestedPos, requestedSize, size, leftResize, topResize);
    newPos, newSize := ApplyState(info.state, surfaceTopLeft, surfaceSize, pos, size);
  }

  /**
   * `constrain_resize` with the anchoring step corrected to `Anchor`: the
   * edge opposite the dragged one stays where the request put it.
   */
  method ConstrainResizeIntended(info: SurfaceInfo, surfaceTopLeft: Point, surfaceSize: Size,
                                 requestedPos: Point, requestedSize: Size,
                                 leftResize: bool, topResize: bool)
    returns (newPos: Point, newSize: Size)
    requires PositiveDivisors(info)
    ensures !WidthFollowsRequest(info.state) ==> newPos.x == surfaceTopLeft.x && newSize.width == surfaceSize.width
    ensures !HeightFollowsRequest(info.state) ==> newPos.y == surfaceTopLeft.y && newSize.height == surfaceSize.height
    // the edge opposite the one being dragged stays put
    ensures WidthFollowsRequest(info.state) ==>
              if leftResize then newPos.x + newSize.width == requestedPos.x + requestedSize.width
              else newPos.x == requestedPos.x
    ensures HeightFollowsRequest(info.state) ==>
              if topResize then newPos.y + newSize.height == requestedPos.y + requestedSize.height
              else newPos.y == requestedPos.y
    // the size in the dimensions the state leaves free
    ensures var corrected := AspectCorrected(info, requestedSize);
            (WidthFollowsRequest(info.state) ==>
               newSize.width == ConstrainedDimension(corrected.width, info.minWidth, info.maxWidth, info.widthInc)) &&
            (HeightFollowsRequest(info.state) ==>
               newSize.height == ConstrainedDimension(corrected.height, info.minHeight, info.maxHeight, info.heightInc))
    ensures WidthFollowsRequest(info.state) && info.minWidth <= info.maxWidth ==>
              if info.widthInc.None? then Within(info.minWidth, newSize.width, info.maxWidth)
              else info.minWidth <= newSize.width &&
                   (newSize.width - info.minWidth) % info.widthInc.value == 0 &&
                   2 * (newSize.width - info.maxWidth) <= info.widthInc.value
    ensures HeightFollowsRequest(info.state) && info.minHeight <= info.maxHeight ==>
              if info.heightInc.None? then Within(info.minHeight, newSize.height, info.maxHeight)
              else info.minHeight <= newSize.height &&
                   (newSize.height - info.minHeight) % info.heightInc.value == 0 &&
                   2 * (newSize.height - info.maxHeight) <= info.heightInc.value
    ensures info.state == Restored && MeetsConstraints(info, requestedSize) ==>
              newPos == requestedPos && newSize == requestedSize
  {
    var size := ConstrainSize(info, requestedSize);
    var pos := Anchor(requestedPos, requestedSize, size, leftResize, topResize);
    newPos, newSize := ApplyState(info.state, surfaceTopLeft, surfaceSize, pos, size);
  }
}
