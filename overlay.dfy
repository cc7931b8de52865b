/**
 * The overlay windows of the screen-measurement tool: the two window
 * procedures (measure overlay, bounds overlay), the geometry and visible
 * region of a freshly created overlay surface, and the colour palette.
 *
 * Integer pixel coordinates throughout; the source's float points hold the
 * same integers (cursor positions converted from POINT).
 */
module OverlayUI {
  import opened Wrappers

  datatype Point = Point(x: int, y: int)

  /** A GDI rectangle: left and top are inside, right and bottom are not. */
  datatype Rect = Rect(left: int, top: int, right: int, bottom: int)

  predicate InRect(p: Point, r: Rect) {
    r.left <= p.x < r.right && r.top <= p.y < r.bottom
  }

  /** The pixels a rectangular region covers. */
  function Pixels(r: Rect): (s: set<Point>)
    ensures forall p :: p in s <==> InRect(p, r)
  {
    set x: int, y: int | r.left <= x < r.right && r.top <= y < r.bottom :: Point(x, y)
  }

  // ---------------------------------------------------------------------------
  // Window messages and the window procedures

  /** Virtual-key code of the Escape key. */
  const VkEscape := 0x1B

  /** The window messages the procedures distinguish; `Other` is any other one. */
  datatype Message =
    | Create
    | Destroy
    | Close
    | KeyUp(virtualKey: int)
    | LButtonDown
    | LButtonUp
    | RButtonUp
    | EraseBackground
    | Other(id: int)

  /** How a procedure answers: a value of its own, or whatever the default procedure answers. */
  datatype Dispatch = Returned(value: int) | DefaultHandler

  /** The rectangle a completed drag describes, in client coordinates. */
  datatype Selection = Selection(start: Point, end: Point)

  /** Messages after which both procedures post WM_CLOSE to their own window. */
  predicate RequestsClose(msg: Message) {
    (msg.KeyUp? && msg.virtualKey == VkEscape) || msg.RButtonUp?
  }

  /** Messages both procedures answer by destroying their window. */
  predicate DestroysWindow(msg: Message) {
    msg.Close? || msg.Destroy?
  }

  /** The answer both procedures give: erase-background is swallowed, all else goes on. */
  function Answer(msg: Message): (r: Dispatch)
    ensures r.Returned? <==> msg.EraseBackground?
    ensures r.Returned? ==> r.value == 1
  {
    if msg.EraseBackground? then Returned(1) else DefaultHandler
  }

  /** A cursor display count at which the system cursor is hidden. */
  predicate CursorHidden(displayCount: int) {
    displayCount < 0
  }

  /**
   * The hide-cursor loop of the measure overlay's WM_CREATE as written:
   * calls ShowCursor(FALSE), which decrements the display count and returns
   * it, while the returned count is above zero.
   */
  method HideCursorAsWritten(displayCount: int) returns (count: int)
    ensures displayCount >= 1 ==> count == 0 && !CursorHidden(count)
    ensures displayCount <= 0 ==> count == displayCount - 1 && CursorHidden(count)
  {
    count := displayCount - 1;
    while count > 0
      invariant displayCount >= 1 ==> 0 <= count <= displayCount - 1
      invariant displayCount <= 0 ==> count == displayCount - 1
    {
      count := count - 1;
    }
  }

  /**
   * The hide-cursor loop with the evidently intended condition: keep calling
   * ShowCursor(FALSE) until the returned count is negative. It always hides
   * the cursor, with as few decrements as that takes.
   */
  method HideCursor(displayCount: int) returns (count: int)
    ensures CursorHidden(count)
    ensures count == if displayCount >= 0 then -1 else displayCount - 1
  {
    count := displayCount - 1;
    while count >= 0
      invariant displayCount >= 0 ==> -1 <= count <= displayCount - 1
      invariant displayCount < 0 ==> count == displayCount - 1
    {
      count := count - 1;
    }
  }

  /** The measure overlay's window (window class PowerToys.MeasureToolOverlayWindow). */
  class MeasureToolWindow {
    /** DestroyWindow has been called on this window. */
    var destroyed: bool
    /** Messages posted to this window's queue, oldest first. */
    var posted: seq<Message>
    /** The creating thread's cursor display count. */
    var cursorDisplayCount: int

    constructor (cursorDisplayCount: int)
      ensures !destroyed && posted == [] && this.cursorDisplayCount == cursorDisplayCount
    {
      destroyed := false;
      posted := [];
      this.cursorDisplayCount := cursorDisplayCount;
    }

    /** measureToolWndProc. */
    method WndProc(msg: Message) returns (r: Dispatch)
      modifies this
      ensures r == Answer(msg)
      ensures destroyed == (old(destroyed) || DestroysWindow(msg))
      ensures posted == old(posted) + (if RequestsClose(msg) then [Close] else [])
      ensures msg.Create? ==>
        cursorDisplayCount == (if old(cursorDisplayCount) >= 1 then 0 else old(cursorDisplayCount) - 1)
      ensures msg.Create? ==> (CursorHidden(cursorDisplayCount) <==> old(cursorDisplayCount) <= 0)
      ensures !msg.Create? ==> cursorDisplayCount == old(cursorDisplayCount)
    {
      match msg {
        case Destroy =>
          destroyed := true;
        case Close =>
          destroyed := true;
        case KeyUp(key) =>
          if key == VkEscape {
            posted := posted + [Close];
          }
        case RButtonUp =>
          posted := posted + [Close];
        case LButtonUp =>
          // copying the measurement to the clipboard is disabled in the source
        case EraseBackground =>
          return Returned(1);
        case Create =>
          cursorDisplayCount := HideCursorAsWritten(cursorDisplayCount);
        case LButtonDown =>
        case Other(_) =>
      }
      r := DefaultHandler;
    }
  }

  /** The bounds tool's state: where the drag in progress started, if one is. */
  class BoundsToolState {
    var currentRegionStart: Option<Point>

    constructor ()
      ensures currentRegionStart == None
    {
      currentRegionStart := None;
    }
  }

  /** The bounds overlay's window (window class PowerToys.BoundsToolOverlayWindow). */
  class BoundsToolWindow {
    /** Screen position of the client area's top-left corner (used by ScreenToClient). */
    const origin: Point
    /** The tool state passed as creation parameter to CreateWindowExW. */
    const createParams: BoundsToolState
    /** The procedure's own pointer to the tool state, bound by WM_CREATE. */
    var toolState: BoundsToolState?
    var destroyed: bool
    var posted: seq<Message>

    constructor (origin: Point, createParams: BoundsToolState)
      ensures this.origin == origin && this.createParams == createParams
      ensures toolState == null && !destroyed && posted == []
    {
      this.origin := origin;
      this.createParams := createParams;
      toolState := null;
      destroyed := false;
      posted := [];
    }

    /** ScreenToClient for this window. */
    function ClientPoint(screen: Point): (p: Point)
    {
      Point(screen.x - origin.x, screen.y - origin.y)
    }

    /**
     * boundsToolWndProc; `cursor` is what GetCursorPos reports, in screen
     * coordinates. `selection` is the rectangle a left-button-up completes,
     * which the source computes but does not yet hand on (its clipboard call
     * is disabled).
     */
    method WndProc(msg: Message, cursor: Point) returns (r: Dispatch, selection: Option<Selection>)
      requires msg.LButtonDown? || msg.LButtonUp? ==> toolState != null
      modifies this, toolState
      ensures r == Answer(msg)
      ensures destroyed == (old(destroyed) || DestroysWindow(msg))
      ensures posted == old(posted) + (if RequestsClose(msg) then [Close] else [])
      ensures toolState == if msg.Create? then createParams else old(toolState)
      ensures msg.LButtonDown? ==>
        toolState.currentRegionStart == Some(ClientPoint(cursor)) && selection == None
      ensures msg.LButtonUp? ==> toolState.currentRegionStart == None
      ensures msg.LButtonUp? && old(toolState.currentRegionStart).Some? ==>
        selection == Some(Selection(old(toolState.currentRegionStart).value, ClientPoint(cursor)))
      ensures msg.LButtonUp? && old(toolState.currentRegionStart).None? ==> selection == None
      ensures !msg.LButtonDown? && !msg.LButtonUp? ==> selection == None
      ensures !msg.LButtonDown? && !msg.LButtonUp? && old(toolState) != null ==>
        old(toolState).currentRegionStart == old(toolState.currentRegionStart)
    {
      selection := None;
      match msg {
        case Destroy =>
          destroyed := true;
        case Close =>
          destroyed := true;
        case Create =>
          toolState := createParams;
        case KeyUp(key) =>
          if key == VkEscape {
            posted := posted + [Close];
          }
        case LButtonDown =>
          toolState.currentRegionStart := Some(ClientPoint(cursor));
        case LButtonUp =>
          if toolState.currentRegionStart.Some? {
            var regionEnd := ClientPoint(cursor);
            selection := Some(Selection(toolState.currentRegionStart.value, regionEnd));
            toolState.currentRegionStart := None;
          }
        case RButtonUp =>
          posted := posted + [Close];
        case EraseBackground =>
          return Returned(1), None;
        case Other(_) =>
      }
      r := DefaultHandler;
    }
  }

  // ---------------------------------------------------------------------------
  // The overlay surface

  /**
   * left/top/width/height of a new overlay window: the monitor's work area
   * when GetMonitorInfoW succeeds, all zero otherwise.
   */
  method SurfaceGeometry(workArea: Option<Rect>) returns (left: int, top: int, width: int, height: int)
    ensures workArea.Some? ==>
      left == workArea.value.left && top == workArea.value.top &&
      width == workArea.value.right - workArea.value.left &&
      height == workArea.value.bottom - workArea.value.top
    ensures workArea.None? ==> left == 0 && top == 0 && width == 0 && height == 0
  {
    left, top := 0, 0;
    width, height := 0, 0;
    if workArea.Some? {
      left := workArea.value.left;
      top := workArea.value.top;
      width := workArea.value.right - workArea.value.left;
      height := workArea.value.bottom - workArea.value.top;
    }
  }

  /** The window rectangle minus the toolbar rectangle (CombineRgn with RGN_DIFF). */
  function VisibleRegion(window: Rect, toolbar: Rect): (region: set<Point>)
    ensures forall p :: p in region <==> InRect(p, window) && !InRect(p, toolbar)
  {
    Pixels(window) - Pixels(toolbar)
  }

  /** Inside(inner, outer): every pixel of `inner` is a pixel of `outer`. */
  predicate Inside(inner: Rect, outer: Rect) {
    inner.left >= inner.right || inner.top >= inner.bottom ||
    (outer.left <= inner.left && inner.right <= outer.right &&
     outer.top <= inner.top && inner.bottom <= outer.bottom)
  }

  /**
   * Carving a toolbar that lies inside the window splits the window's pixels
   * exactly: the visible region and the toolbar are disjoint and together
   * make up the window.
   */
  lemma CarvingPartitionsWindow(window: Rect, toolbar: Rect)
    requires Inside(toolbar, window)
    ensures VisibleRegion(window, toolbar) !! Pixels(toolbar)
    ensures VisibleRegion(window, toolbar) + Pixels(toolbar) == Pixels(window)
  {
  }

  /** A toolbar that shares no pixel with the window leaves the window fully visible. */
  lemma DisjointToolbarKeepsWindow(window: Rect, toolbar: Rect)
    requires Pixels(window) !! Pixels(toolbar)
    ensures VisibleRegion(window, toolbar) == Pixels(window)
  {
  }

  /**
   * The screen pixels a window shows once SetWindowRgn is given `region`:
   * the region is read relative to the window's top-left corner, and nothing
   * outside the window rectangle is shown.
   */
  function ShownOnScreen(window: Rect, region: set<Point>): (shown: set<Point>)
    ensures forall p :: p in shown <==>
      InRect(p, window) && Point(p.x - window.left, p.y - window.top) in region
  {
    set p | p in Pixels(window) && Point(p.x - window.left, p.y - window.top) in region
  }

  /** The carve-out as written, ShownOnScreen of VisibleRegion, is the intended one when the window sits at the screen origin. */
  lemma ScreenRegionAtOrigin(window: Rect, toolbar: Rect)
    requires window.left == 0 && window.top == 0
    ensures ShownOnScreen(window, VisibleRegion(window, toolbar)) == VisibleRegion(window, toolbar)
  {
  }

  /**
   * The carve-out as written on a window whose left edge is at x = 100 and
   * which is at most 100 pixels wide: the region, built in screen
   * coordinates, shares no pixel with the window once it is read relative
   * to the window, so nothing of the window is shown although nothing of it
   * was carved away.
   */
  lemma ScreenRegionOffOrigin()
    ensures var window := Rect(100, 0, 200, 100);
      var toolbar := Rect(0, 0, 0, 0);
      VisibleRegion(window, toolbar) == Pixels(window) != {}
      && ShownOnScreen(window, VisibleRegion(window, toolbar)) == {}
  {
    var window := Rect(100, 0, 200, 100);
    assert Point(100, 0) in Pixels(window);
  }

  /** The carve-out in window coordinates: the window's own rectangle and the toolbar both shifted by the window's origin. */
  function WindowRelativeRegion(window: Rect, toolbar: Rect): (region: set<Point>)
    ensures forall p :: p in region <==>
      InRect(p, Rect(0, 0, window.right - window.left, window.bottom - window.top))
      && !InRect(p, Rect(toolbar.left - window.left, toolbar.top - window.top,
                         toolbar.right - window.left, toolbar.bottom - window.top))
  {
    VisibleRegion(Rect(0, 0, window.right - window.left, window.bottom - window.top),
                  Rect(toolbar.left - window.left, toolbar.top - window.top,
                       toolbar.right - window.left, toolbar.bottom - window.top))
  }

  /** Built in window coordinates, the region shows exactly the window minus the toolbar, wherever the window is. */
  lemma WindowRelativeRegionShowsCarving(window: Rect, toolbar: Rect)
    ensures ShownOnScreen(window, WindowRelativeRegion(window, toolbar)) == VisibleRegion(window, toolbar)
  {
  }

  /** A created overlay window: its screen rectangle and its window region. */
  class Surface {
    var rect: Rect
    /**
     * The region passed to SetWindowRgn, in the screen coordinates the
     * source builds it in; None while no region was set.
     */
    var region: Option<set<Point>>

    constructor (rect: Rect)
      ensures this.rect == rect && region == None
    {
      this.rect := rect;
      region := None;
    }
  }

  /**
   * The geometry and region part of CreateOverlayUIWindow. `created` is
   * whether CreateWindowExW returned a window (the source throws otherwise),
   * `rectObtained` whether GetWindowRect succeeded, `combineFailed` whether
   * CombineRgn returned ERROR.
   */
  method CreateOverlayUIWindow(workArea: Option<Rect>, toolbar: Rect, created: bool,
                               rectObtained: bool, combineFailed: bool)
    returns (surface: Surface?)
    ensures surface == null <==> !created
    ensures surface != null ==> fresh(surface)
    ensures surface != null && workArea.Some? ==> surface.rect == workArea.value
    ensures surface != null && workArea.None? ==> surface.rect == Rect(0, 0, 0, 0)
    ensures surface != null && rectObtained && !combineFailed ==>
      surface.region == Some(VisibleRegion(surface.rect, toolbar))
    ensures surface != null && !(rectObtained && !combineFailed) ==> surface.region == None
  {
    var left, top, width, height := SurfaceGeometry(workArea);
    if !created {
      return null;
    }
    surface := new Surface(Rect(left, top, left + width, top + height));
    if rectObtained {
      var windowRegion := Pixels(surface.rect);
      var combined := windowRegion - Pixels(toolbar);
      if !combineFailed {
        surface.region := Some(combined);
      }
    }
  }

  // ---------------------------------------------------------------------------
  // Theme palette

  /** Colour components in hundredths (1.0 is 100). */
  datatype Color = Rgba(r: nat, g: nat, b: nat, a: nat)

  const Black := Rgba(0, 0, 0, 100)
  const White := Rgba(100, 100, 100, 100)
  const LightBackground := Rgba(96, 96, 96, 100)
  const DarkBackground := Rgba(17, 17, 17, 100)
  const BorderColor := Rgba(44, 44, 44, 40)

  /** AppendCommonOverlayUIColors; `darkMode` is what the system appearance query reports. */
  function CommonOverlayColors(lineColor: Color, darkMode: bool): (palette: seq<Color>)
    ensures |palette| == 4
    ensures palette[0] == lineColor
    ensures palette[1] == if darkMode then White else Black
    ensures palette[2] == if darkMode then DarkBackground else LightBackground
    ensures palette[3] == BorderColor
  {
    var foreground := if darkMode then White else Black;
    var background := if darkMode then DarkBackground else LightBackground;
    [lineColor, foreground, background, BorderColor]
  }
}
