/** The generic infinite canvas under the board viewer: an animation loop that
  * eases a current camera towards a target camera, the affine maps between
  * screen and world, and the mouse and wheel handlers that tell a click from a
  * drag and keep the zoom within bounds. The camera's `scale` is logarithmic:
  * the zoom level is `2^scale`, which callers supply as a positive real. */
module Viewport {
  import opened Wrappers

  function Abs(r: real): real { if r < 0.0 then -r else r }

  function Min(a: real, b: real): real { if a <= b then a else b }

  function Max(a: real, b: real): real { if a >= b then a else b }

  // ---------------------------------------------------------------------------
  // The animation loop

  /** `AnimationManager`: a flag saying the loop is scheduled and the time
    * stamp of the previous frame (`0` when there is none). */
  class AnimationManager {
    var running: bool
    var timeRecord: real

    constructor ()
      ensures !running && timeRecord == 0.0
    {
      running := false;
      timeRecord := 0.0;
    }

    /** `start`: does nothing while running; otherwise marks the loop running,
      * forgets the previous time stamp and schedules a frame (`scheduled`). */
    method Start() returns (scheduled: bool)
      modifies this
      ensures scheduled == !old(running)
      ensures old(running) ==> running && timeRecord == old(timeRecord)
      ensures !old(running) ==> running && timeRecord == 0.0
    {
      if running {
        return false;
      }
      running := true;
      timeRecord := 0.0;
      scheduled := true;
    }

    /** `stop`: only clears the flag; a frame already scheduled still runs. */
    method Stop()
      modifies this
      ensures !running && timeRecord == old(timeRecord)
    {
      running := false;
    }

    /** `_animate`: the frame passes the time since the previous frame, capped
      * at 100 ms (20 ms when either time stamp is missing), to the callback,
      * records the time stamp, and schedules the next frame only if the loop
      * is still running and the callback asks to continue. */
    method Animate(timeNow: real, callback: real -> bool) returns (timeDiff: real, rescheduled: bool)
      modifies this
      ensures timeDiff == FrameTime(timeNow, old(timeRecord))
      ensures timeRecord == timeNow
      ensures rescheduled == (old(running) && callback(timeDiff))
      ensures running == rescheduled
    {
      timeDiff := 20.0;
      if timeNow != 0.0 && timeRecord != 0.0 {
        timeDiff := Min(timeNow - timeRecord, 100.0);
      }
      timeRecord := timeNow;
      var shouldContinue := callback(timeDiff);
      if running && shouldContinue {
        rescheduled := true;
      } else {
        running := false;
        rescheduled := false;
      }
    }
  }

  /** The time step a frame passes on. */
  function FrameTime(timeNow: real, previous: real): real
  {
    if timeNow != 0.0 && previous != 0.0 then Min(timeNow - previous, 100.0) else 20.0
  }

  /** The step is never above 100 ms, and it is exactly the elapsed time when
    * both stamps are present and at most 100 ms apart. */
  lemma FrameTimeBounds(timeNow: real, previous: real)
    ensures FrameTime(timeNow, previous) <= 100.0
    ensures previous == 0.0 || timeNow == 0.0 ==> FrameTime(timeNow, previous) == 20.0
    ensures previous != 0.0 && timeNow != 0.0 && timeNow - previous <= 100.0 ==>
      FrameTime(timeNow, previous) == timeNow - previous
    ensures previous != 0.0 && timeNow != 0.0 && timeNow - previous > 100.0 ==>
      FrameTime(timeNow, previous) == 100.0
  {
  }

  // ---------------------------------------------------------------------------
  // Cameras

  /** A camera's position and logarithmic scale. */
  datatype Pose = Pose(x: real, y: real, scale: real)

  /** `isCloseTo` as written, with its default thresholds 0.1 and 0.02: the
    * scales are compared by their ratio, and a ratio with a zero scale is
    * `NaN` or infinite in JavaScript, so no comparison with it holds. */
  function IsCloseToAsWritten(a: Pose, b: Pose): bool
  {
    Abs(a.x - b.x) < 0.1 && Abs(a.y - b.y) < 0.1
    && b.scale != 0.0 && Abs(a.scale / b.scale - 1.0) < 0.02
  }

  /** A camera at scale 0 is not close to itself. */
  lemma IsCloseToAsWrittenNotReflexive(p: Pose)
    requires p.scale == 0.0
    ensures !IsCloseToAsWritten(p, p)
  {
  }

  /** `isCloseTo` as evidently intended: the same ratio test on the scales,
    * except that a target at scale 0 is close exactly to the scale-0 poses
    * near it, where the ratio is undefined. */
  function IsCloseTo(a: Pose, b: Pose): bool
  {
    Abs(a.x - b.x) < 0.1 && Abs(a.y - b.y) < 0.1
    && if b.scale == 0.0 then a.scale == 0.0 else Abs(a.scale / b.scale - 1.0) < 0.02
  }

  /** Closeness is reflexive at every scale (so the loop stops once the camera
    * has reached its target), it agrees with the ratio test as written at
    * every nonzero target scale, and at target scale 0 it asks for scale 0. */
  lemma IsCloseToProperties(a: Pose, b: Pose)
    ensures IsCloseTo(a, a)
    ensures b.scale != 0.0 ==> IsCloseTo(a, b) == IsCloseToAsWritten(a, b)
    ensures b.scale == 0.0 ==>
      (IsCloseTo(a, b) <==> Abs(a.x - b.x) < 0.1 && Abs(a.y - b.y) < 0.1 && a.scale == 0.0)
  {
  }

  /** The step at which the easing factor is defined: JavaScript would divide
    * by zero otherwise. */
  predicate LerpDefined(timeDelta: real, speed: real)
  {
    1.0 + timeDelta * speed != 0.0
  }

  /** The fraction of the gap `lerpTowards` closes. */
  function LerpFactor(timeDelta: real, speed: real): real
    requires LerpDefined(timeDelta, speed)
  {
    1.0 - 1.0 / (1.0 + timeDelta * speed)
  }

  function Lerp(p: Pose, q: Pose, f: real): Pose
  {
    Pose(p.x + (q.x - p.x) * f, p.y + (q.y - p.y) * f, p.scale + (q.scale - p.scale) * f)
  }

  /** Each coordinate's remaining gap is the old gap divided by
    * `1 + dt * speed`. */
  lemma LerpGap(p: Pose, q: Pose, timeDelta: real, speed: real)
    requires LerpDefined(timeDelta, speed)
    ensures var r := Lerp(p, q, LerpFactor(timeDelta, speed));
      var k := 1.0 / (1.0 + timeDelta * speed);
      q.x - r.x == (q.x - p.x) * k && q.y - r.y == (q.y - p.y) * k && q.scale - r.scale == (q.scale - p.scale) * k
  {
    var k := 1.0 / (1.0 + timeDelta * speed);
    var f := LerpFactor(timeDelta, speed);
    GapAfter(p.x, q.x, f, k);
    GapAfter(p.y, q.y, f, k);
    GapAfter(p.scale, q.scale, f, k);
  }

  /** For a non-negative step the factor lies in `[0, 1)` and no gap widens. */
  lemma LerpNeverWidens(p: Pose, q: Pose, timeDelta: real, speed: real)
    requires timeDelta * speed >= 0.0
    ensures LerpDefined(timeDelta, speed)
    ensures 0.0 <= LerpFactor(timeDelta, speed) < 1.0
    ensures var r := Lerp(p, q, LerpFactor(timeDelta, speed));
      Abs(q.x - r.x) <= Abs(q.x - p.x) && Abs(q.y - r.y) <= Abs(q.y - p.y)
      && Abs(q.scale - r.scale) <= Abs(q.scale - p.scale)
  {
    var k := 1.0 / (1.0 + timeDelta * speed);
    Reciprocal(1.0 + timeDelta * speed);
    LerpGap(p, q, timeDelta, speed);
    GapShrinks(q.x - p.x, k);
    GapShrinks(q.y - p.y, k);
    GapShrinks(q.scale - p.scale, k);
  }

  /** For a positive step a camera not yet at its target moves. */
  lemma LerpMoves(p: Pose, q: Pose, timeDelta: real, speed: real)
    requires timeDelta * speed > 0.0 && p != q
    ensures LerpDefined(timeDelta, speed)
    ensures Lerp(p, q, LerpFactor(timeDelta, speed)) != p
  {
    var f := LerpFactor(timeDelta, speed);
    Reciprocal(1.0 + timeDelta * speed);
    var r := Lerp(p, q, f);
    if p.x != q.x {
      StepMoves(p.x, q.x, f);
      assert r.x != p.x;
    } else if p.y != q.y {
      StepMoves(p.y, q.y, f);
      assert r.y != p.y;
    } else {
      StepMoves(p.scale, q.scale, f);
      assert r.scale != p.scale;
    }
  }

  lemma GapShrinks(g: real, k: real)
    requires 0.0 < k <= 1.0
    ensures Abs(g * k) <= Abs(g)
  {
    if g >= 0.0 {
      assert g * k <= g * 1.0;
    } else {
      assert g * k >= g * 1.0;
    }
  }

  lemma GapAfter(a: real, b: real, f: real, k: real)
    requires f == 1.0 - k
    ensures b - (a + (b - a) * f) == (b - a) * k
  {
  }

  lemma Reciprocal(d: real)
    requires d >= 1.0
    ensures 0.0 < 1.0 / d <= 1.0
    ensures d > 1.0 ==> 1.0 / d < 1.0
  {
    assert (1.0 / d) * d == 1.0;
  }

  lemma StepMoves(a: real, b: real, f: real)
    requires f > 0.0
    ensures a != b ==> a + (b - a) * f != a
  {
    if a != b {
      assert (b - a) * f != 0.0;
    }
  }

  /** A camera. */
  class Camera {
    var x: real
    var y: real
    var scale: real

    function State(): Pose
      reads this
    {
      Pose(x, y, scale)
    }

    constructor (x0: real, y0: real, scale0: real)
      ensures State() == Pose(x0, y0, scale0)
    {
      x, y, scale := x0, y0, scale0;
    }

    /** `clone`: a new camera with the same pose. */
    method Clone() returns (c: Camera)
      ensures fresh(c) && c.State() == State()
    {
      c := new Camera(x, y, scale);
    }

    /** `lerpTowards`: nothing when already close to the target; otherwise each
      * of `x`, `y` and `scale` closes the fraction `LerpFactor` of its gap. */
    method LerpTowards(target: Pose, timeDelta: real, speed: real)
      requires LerpDefined(timeDelta, speed)
      modifies this
      ensures IsCloseTo(old(State()), target) ==> State() == old(State())
      ensures !IsCloseTo(old(State()), target) ==>
        State() == Lerp(old(State()), target, LerpFactor(timeDelta, speed))
    {
      if IsCloseTo(State(), target) {
        return;
      }
      var f := 1.0 - 1.0 / (1.0 + timeDelta * speed);
      x := x + (target.x - x) * f;
      y := y + (target.y - y) * f;
      scale := scale + (target.scale - scale) * f;
    }
  }

  /** A point on screen or in the world. */
  datatype Point = Point(x: real, y: real)

  /** `screenToWorld` at zoom level `zoom` on a canvas of `width` by `height`. */
  function ScreenToWorld(p: Pose, zoom: real, s: Point, width: real, height: real): Point
    requires zoom > 0.0
  {
    Point((s.x - width / 2.0) / zoom - p.x, (s.y - height / 2.0) / zoom - p.y)
  }

  /** `worldToScreen`. */
  function WorldToScreen(p: Pose, zoom: real, w: Point, width: real, height: real): Point
  {
    Point((w.x + p.x) * zoom + width / 2.0, (w.y + p.y) * zoom + height / 2.0)
  }

  /** The two maps are mutual inverses at every positive zoom level. */
  lemma ScreenWorldInverse(p: Pose, zoom: real, s: Point, w: Point, width: real, height: real)
    requires zoom > 0.0
    ensures WorldToScreen(p, zoom, ScreenToWorld(p, zoom, s, width, height), width, height) == s
    ensures ScreenToWorld(p, zoom, WorldToScreen(p, zoom, w, width, height), width, height) == w
  {
    AxisInverse(s.x, w.x, p.x, zoom, width / 2.0);
    AxisInverse(s.y, w.y, p.y, zoom, height / 2.0);
    var sw := ScreenToWorld(p, zoom, s, width, height);
    var ws := WorldToScreen(p, zoom, sw, width, height);
    assert ws.x == s.x && ws.y == s.y;
    var ww := WorldToScreen(p, zoom, w, width, height);
    var sww := ScreenToWorld(p, zoom, ww, width, height);
    assert sww.x == w.x && sww.y == w.y;
  }

  /** One axis of the two maps: `c` screen, `w` world, `o` camera offset and
    * `half` the half-size of the canvas. */
  lemma AxisInverse(c: real, w: real, o: real, zoom: real, half: real)
    requires zoom > 0.0
    ensures ((c - half) / zoom - o + o) * zoom + half == c
    ensures ((w + o) * zoom + half - half) / zoom - o == w
  {
    var a := (c - half) / zoom;
    assert a - o + o == a;
    assert a * zoom == c - half;
    assert (w + o) * zoom + half - half == (w + o) * zoom;
    assert ((w + o) * zoom) / zoom == w + o;
  }

  /** The world rectangle the canvas shows. */
  datatype WorldBounds = WorldBounds(left: real, top: real, right: real, bottom: real)

  /** `getVisibleWorldBounds`: the world images of the top-left and
    * bottom-right corners of the canvas. */
  function VisibleWorldBounds(p: Pose, zoom: real, width: real, height: real): (b: WorldBounds)
    requires zoom > 0.0
  {
    var tl := ScreenToWorld(p, zoom, Point(0.0, 0.0), width, height);
    var br := ScreenToWorld(p, zoom, Point(width, height), width, height);
    WorldBounds(tl.x, tl.y, br.x, br.y)
  }

  /** The bounds map back onto the canvas corners, are `width / zoom` by
    * `height / zoom` in size, and are centred on the camera's `(-x, -y)`. */
  lemma VisibleWorldBoundsShape(p: Pose, zoom: real, width: real, height: real)
    requires zoom > 0.0
    ensures var b := VisibleWorldBounds(p, zoom, width, height);
      WorldToScreen(p, zoom, Point(b.left, b.top), width, height) == Point(0.0, 0.0)
      && WorldToScreen(p, zoom, Point(b.right, b.bottom), width, height) == Point(width, height)
      && b.right - b.left == width / zoom && b.bottom - b.top == height / zoom
      && (b.left + b.right) / 2.0 == -p.x && (b.top + b.bottom) / 2.0 == -p.y
  {
    ScreenWorldInverse(p, zoom, Point(0.0, 0.0), Point(0.0, 0.0), width, height);
    ScreenWorldInverse(p, zoom, Point(width, height), Point(0.0, 0.0), width, height);
    assert (width / 2.0) / zoom - (-width / 2.0) / zoom == width / zoom;
    assert (height / 2.0) / zoom - (-height / 2.0) / zoom == height / zoom;
  }

  // ---------------------------------------------------------------------------
  // The canvas controller

  /** The canvas configuration (the options merged over the defaults). */
  datatype Config = Config(
    minZoom: real, maxZoom: real, zoomSpeed: real, dragSpeed: real, lerpSpeed: real,
    initialZoom: Option<real>)

  /** The options a caller may pass; absent ones take the defaults. */
  datatype Options = Options(
    minZoom: Option<real>, maxZoom: Option<real>, zoomSpeed: Option<real>,
    dragSpeed: Option<real>, lerpSpeed: Option<real>,
    initialX: Option<real>, initialY: Option<real>, initialZoom: Option<real>)

  function OrElse(o: Option<real>, d: real): real
  {
    if o.Some? then o.value else d
  }

  /** The configuration the constructor builds: -5, 7, 0.005, 1 and 0.01 by
    * default. */
  function ConfigOf(o: Options): (c: Config)
    ensures o.minZoom.None? ==> c.minZoom == -5.0
    ensures o.maxZoom.None? ==> c.maxZoom == 7.0
    ensures o.zoomSpeed.None? ==> c.zoomSpeed == 0.005
    ensures o.dragSpeed.None? ==> c.dragSpeed == 1.0
    ensures o.lerpSpeed.None? ==> c.lerpSpeed == 0.01
  {
    Config(OrElse(o.minZoom, -5.0), OrElse(o.maxZoom, 7.0), OrElse(o.zoomSpeed, 0.005),
      OrElse(o.dragSpeed, 1.0), OrElse(o.lerpSpeed, 0.01), o.initialZoom)
  }

  /** Which callback a mouse release calls, with the world point under it. */
  datatype ClickDispatch = NoClick | Click(at: Point) | RightClick(at: Point)

  /** `Math.max(minZoom, Math.min(maxZoom, s))`. */
  function Clamp(lo: real, hi: real, s: real): real
  {
    Max(lo, Min(hi, s))
  }

  /** With `lo <= hi` the clamp lands in `[lo, hi]`, leaves values already
    * there alone, sends values below to `lo` and above to `hi`, and is
    * monotone. */
  lemma ClampProperties(lo: real, hi: real, s: real, t: real)
    requires lo <= hi
    ensures lo <= Clamp(lo, hi, s) <= hi
    ensures lo <= s <= hi ==> Clamp(lo, hi, s) == s
    ensures s < lo ==> Clamp(lo, hi, s) == lo
    ensures s > hi ==> Clamp(lo, hi, s) == hi
    ensures s <= t ==> Clamp(lo, hi, s) <= Clamp(lo, hi, t)
  {
  }

  /** `InfiniteScrollableCanvas`: the configuration, the two cameras, the
    * mouse state and the animation loop. Canvas sizes are in pixels. */
  class InfiniteScrollableCanvas {
    var config: Config
    var cameraTarget: Camera
    var cameraCurrent: Camera
    var isMouseDown: bool
    var isDragging: bool
    var dragStart: Point
    var lastMousePos: Point
    var animationManager: AnimationManager
    var width: real
    var height: real

    ghost predicate Valid()
      reads this
    {
      cameraTarget != cameraCurrent
    }

    /** The configuration from the options; the target camera at
      * `(initialX, initialY, initialZoom)` (default `(0, 0, -1)`) and the
      * current camera a separate copy of it; no button down, no drag. */
    constructor (o: Options, canvasWidth: real, canvasHeight: real)
      ensures Valid()
      ensures config == ConfigOf(o)
      ensures cameraTarget.State() == Pose(OrElse(o.initialX, 0.0), OrElse(o.initialY, 0.0), OrElse(o.initialZoom, -1.0))
      ensures cameraCurrent.State() == cameraTarget.State()
      ensures fresh(cameraTarget) && fresh(cameraCurrent) && fresh(animationManager)
      ensures !isMouseDown && !isDragging && dragStart == Point(0.0, 0.0) && lastMousePos == Point(0.0, 0.0)
      ensures !animationManager.running && animationManager.timeRecord == 0.0
      ensures width == canvasWidth && height == canvasHeight
    {
      config := ConfigOf(o);
      var target := new Camera(OrElse(o.initialX, 0.0), OrElse(o.initialY, 0.0), OrElse(o.initialZoom, -1.0));
      var current := target.Clone();
      cameraTarget := target;
      cameraCurrent := current;
      isMouseDown := false;
      isDragging := false;
      dragStart := Point(0.0, 0.0);
      lastMousePos := Point(0.0, 0.0);
      animationManager := new AnimationManager();
      width := canvasWidth;
      height := canvasHeight;
    }

    /** `_handleMouseDown`: only the left button (0) presses; the drag anchor is
      * the cursor, scaled by `dragSpeed / zoom`, minus the target position. */
    method MouseDown(button: int, client: Point, zoom: real)
      requires zoom > 0.0
      modifies this
      ensures button != 0 ==> (isMouseDown == old(isMouseDown) && isDragging == old(isDragging)
        && dragStart == old(dragStart))
      ensures button == 0 ==> (isMouseDown && !isDragging
        && dragStart == Point(config.dragSpeed / zoom * client.x - cameraTarget.x,
                              config.dragSpeed / zoom * client.y - cameraTarget.y))
      ensures config == old(config) && cameraTarget == old(cameraTarget) && cameraCurrent == old(cameraCurrent)
      ensures animationManager == old(animationManager) && lastMousePos == old(lastMousePos)
      ensures width == old(width) && height == old(height)
    {
      if button != 0 {
        return;
      }
      isMouseDown := true;
      var dragSpeed := config.dragSpeed / zoom;
      dragStart := Point(dragSpeed * client.x - cameraTarget.x, dragSpeed * client.y - cameraTarget.y);
      isDragging := false;
    }

    /** `_handleMouseMove`: records the world point under the cursor; while the
      * button is down, moves the target so that the anchor follows the
      * cursor and starts the animation; reports the hover point; and marks
      * that the cursor has moved. */
    method MouseMove(client: Point, screen: Point, zoom: real) returns (hover: Point)
      requires Valid() && zoom > 0.0
      modifies this, cameraTarget, animationManager
      ensures Valid()
      ensures hover == ScreenToWorld(cameraCurrent.State(), zoom, screen, width, height)
      ensures lastMousePos == hover
      ensures isDragging && isMouseDown == old(isMouseDown) && dragStart == old(dragStart)
      ensures old(isMouseDown) ==> cameraTarget.State() == Pose(config.dragSpeed / zoom * client.x - dragStart.x,
        config.dragSpeed / zoom * client.y - dragStart.y, old(cameraTarget.scale)) && animationManager.running
      ensures !old(isMouseDown) ==> (cameraTarget.State() == old(cameraTarget.State())
        && animationManager.running == old(animationManager.running))
      ensures cameraCurrent.State() == old(cameraCurrent.State())
      ensures config == old(config) && cameraTarget == old(cameraTarget) && cameraCurrent == old(cameraCurrent)
      ensures animationManager == old(animationManager) && width == old(width) && height == old(height)
    {
      hover := ScreenToWorld(cameraCurrent.State(), zoom, screen, width, height);
      lastMousePos := hover;
      if isMouseDown {
        var dragSpeed := config.dragSpeed / zoom;
        cameraTarget.x := dragSpeed * client.x - dragStart.x;
        cameraTarget.y := dragSpeed * client.y - dragStart.y;
        var _ := animationManager.Start();
      }
      isDragging := true;
    }

    /** `_handleMouseUp`: releases the button; a left release after a move is a
      * drag and calls nothing; otherwise the left button clicks and the right
      * button (2) right-clicks at the world point under the cursor. */
    method MouseUp(button: int, screen: Point, zoom: real) returns (d: ClickDispatch)
      requires zoom > 0.0
      modifies this
      ensures !isMouseDown
      ensures d == ReleaseDispatch(button, old(isDragging), ScreenToWorld(cameraCurrent.State(), zoom, screen, width, height))
      ensures isDragging == old(isDragging) && dragStart == old(dragStart) && lastMousePos == old(lastMousePos)
      ensures config == old(config) && cameraTarget == old(cameraTarget) && cameraCurrent == old(cameraCurrent)
      ensures animationManager == old(animationManager) && width == old(width) && height == old(height)
    {
      isMouseDown := false;
      if button == 0 && isDragging {
        return NoClick;
      }
      var worldPos := ScreenToWorld(cameraCurrent.State(), zoom, screen, width, height);
      if button == 0 {
        d := Click(worldPos);
      } else if button == 2 {
        d := RightClick(worldPos);
      } else {
        d := NoClick;
      }
    }

    /** The `mouseover` and `mouseout` listeners: the button counts as up. */
    method MouseLeave()
      modifies this
      ensures !isMouseDown
      ensures isDragging == old(isDragging) && dragStart == old(dragStart) && lastMousePos == old(lastMousePos)
      ensures config == old(config) && cameraTarget == old(cameraTarget) && cameraCurrent == old(cameraCurrent)
      ensures animationManager == old(animationManager) && width == old(width) && height == old(height)
    {
      isMouseDown := false;
    }

    /** `_handleWheel`: the target scale moves by `-deltaY * zoomSpeed` and is
      * clamped into `[minZoom, maxZoom]`; the animation starts. */
    method Wheel(deltaY: real)
      requires Valid()
      modifies cameraTarget, animationManager
      ensures cameraTarget.State() == Pose(old(cameraTarget.x), old(cameraTarget.y),
        Clamp(config.minZoom, config.maxZoom, old(cameraTarget.scale) + deltaY * -config.zoomSpeed))
      ensures cameraCurrent.State() == old(cameraCurrent.State())
      ensures animationManager.running
    {
      cameraTarget.scale := cameraTarget.scale + deltaY * -config.zoomSpeed;
      cameraTarget.scale := Max(config.minZoom, Min(config.maxZoom, cameraTarget.scale));
      var _ := animationManager.Start();
    }

    /** `_onAnimationFrame`: eases the current camera towards the target and
      * asks to continue while the two are not close. */
    method OnAnimationFrame(timeDiff: real) returns (shouldContinue: bool)
      requires Valid()
      requires LerpDefined(timeDiff, config.lerpSpeed)
      modifies cameraCurrent
      ensures IsCloseTo(old(cameraCurrent.State()), cameraTarget.State()) ==> cameraCurrent.State() == old(cameraCurrent.State())
      ensures !IsCloseTo(old(cameraCurrent.State()), cameraTarget.State()) ==>
        cameraCurrent.State() == Lerp(old(cameraCurrent.State()), cameraTarget.State(), LerpFactor(timeDiff, config.lerpSpeed))
      ensures shouldContinue == !IsCloseTo(cameraCurrent.State(), cameraTarget.State())
      ensures cameraTarget.State() == old(cameraTarget.State())
    {
      cameraCurrent.LerpTowards(cameraTarget.State(), timeDiff, config.lerpSpeed);
      shouldContinue := !IsCloseTo(cameraCurrent.State(), cameraTarget.State());
    }

    /** `moveTo`: the target moves to `(-x, -y)`, its scale to `zoom` when one is
      * given; the animation starts. */
    method MoveTo(x: real, y: real, zoom: Option<real>)
      requires Valid()
      modifies cameraTarget, animationManager
      ensures cameraTarget.State() == Pose(-x, -y, if zoom.Some? then zoom.value else old(cameraTarget.scale))
      ensures cameraCurrent.State() == old(cameraCurrent.State())
      ensures animationManager.running
    {
      cameraTarget.x := -x;
      cameraTarget.y := -y;
      if zoom.Some? {
        cameraTarget.scale := zoom.value;
      }
      var _ := animationManager.Start();
    }

    /** `resetView`: back to the origin at the initial zoom (default -1). */
    method ResetView()
      requires Valid()
      modifies cameraTarget, animationManager
      ensures cameraTarget.State() == Pose(0.0, 0.0, OrElse(config.initialZoom, -1.0))
      ensures cameraCurrent.State() == old(cameraCurrent.State())
      ensures animationManager.running
    {
      MoveTo(0.0, 0.0, Some(OrElse(config.initialZoom, -1.0)));
    }

    /** `getCamera`: a copy of the current camera. */
    method GetCamera() returns (c: Camera)
      ensures fresh(c) && c.State() == cameraCurrent.State()
    {
      c := cameraCurrent.Clone();
    }
  }

  /** What a mouse release dispatches, given the button, whether the cursor
    * moved since the press, and the world point under the cursor. */
  function ReleaseDispatch(button: int, dragged: bool, at: Point): ClickDispatch
  {
    if button == 0 && dragged then NoClick
    else if button == 0 then Click(at)
    else if button == 2 then RightClick(at)
    else NoClick
  }

  /** A left release clicks exactly when the cursor did not move since the
    * press, a right release always right-clicks, and no other button does
    * anything; the dispatched point is the one under the cursor. */
  lemma ReleaseDispatchCases(button: int, dragged: bool, at: Point)
    ensures ReleaseDispatch(button, dragged, at).Click? <==> button == 0 && !dragged
    ensures ReleaseDispatch(button, dragged, at).RightClick? <==> button == 2
    ensures ReleaseDispatch(button, dragged, at).NoClick? <==> (button == 0 && dragged) || (button != 0 && button != 2)
    ensures ReleaseDispatch(button, dragged, at) != NoClick ==> ReleaseDispatch(button, dragged, at).at == at
  {
  }

  /** The drag anchor: pressing with the target at `t` and moving back to the
    * press position at the same zoom puts the target back at `t`. */
  lemma DragAnchorReturns(dragSpeed: real, zoom: real, client: Point, target: Point)
    requires zoom > 0.0
    ensures var k := dragSpeed / zoom;
      var anchor := Point(k * client.x - target.x, k * client.y - target.y);
      Point(k * client.x - anchor.x, k * client.y - anchor.y) == target
  {
  }

  /** As written, a target at scale 0 is never close to any camera, so every
    * frame asks to continue and the animation loop never stops. */
  lemma AnimationNeverStopsAtScaleZero(current: Pose, target: Pose)
    requires target.scale == 0.0
    ensures !IsCloseToAsWritten(current, target)
    ensures !IsCloseToAsWritten(target, target)
  {
  }
}
