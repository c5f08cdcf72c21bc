/** The three cameras of src/game/cameras.rs and the edits applied to them:
    the aspect table on a resolution change, translation, and zoom.
    Positions and sizes are the source's `f32` values read as exact reals;
    every constant involved is exact in binary or written to three decimals. */
module Cameras {

  import opened Windows

  /** The marker component a camera carries. */
  datatype Role = World | Stage | Ui

  /** A 3D camera, or a 2D camera with its fixed viewport and scale. */
  datatype Projection = Perspective | Orthographic(width: real, height: real, scale: real)

  datatype Camera = Camera(role: Role, order: int, layer: nat, x: real, y: real, z: real,
                           projection: Projection)

  /** The fixed 2D viewport for each aspect ratio. */
  function ViewWidth(a: AspectRatio): real
  {
    match a
    case Ratio4x3 => 256.0
    case Ratio5x4 => 240.0
    case Ratio8x5 => 256.0
    case Ratio16x9 => 256.0
    case Ratio21x9 => 336.0
  }

  function ViewHeight(a: AspectRatio): real
  {
    match a
    case Ratio4x3 => 192.0
    case Ratio5x4 => 192.0
    case Ratio8x5 => 160.0
    case Ratio16x9 => 144.0
    case Ratio21x9 => 144.0
  }

  /** The 3D camera's depth for each aspect ratio. */
  function Depth(a: AspectRatio): real
  {
    match a
    case Ratio4x3 => 231.765
    case Ratio5x4 => 231.765
    case Ratio8x5 => 193.137
    case Ratio16x9 => 173.823
    case Ratio21x9 => 173.823
  }

  /** `z` is, to the nearest thousandth, the distance at which a 45-degree
      field of view spans a height `h`: z = (h / 2) / tan(22.5 degrees)
      = h * (1 + sqrt 2) / 2, i.e. |2z - h - h * sqrt 2| <= 0.001, squared
      out to stay in the reals. */
  predicate SpansHeight(z: real, h: real)
  {
    var lo := 2.0 * z - h - 0.001;
    var hi := 2.0 * z - h + 0.001;
    0.0 <= lo && lo * lo <= 2.0 * h * h <= hi * hi
  }

  /** The table is what its header promises: each viewport has exactly the
      ratio it is listed under, each depth frames its viewport's height
      under the default field of view, and two ratios share a depth exactly
      when they share a viewport height. */
  lemma AspectTable()
    ensures forall a :: ViewWidth(a) * Den(a) as real == ViewHeight(a) * Num(a) as real
    ensures forall a :: SpansHeight(Depth(a), ViewHeight(a))
    ensures forall a, b :: Depth(a) == Depth(b) <==> ViewHeight(a) == ViewHeight(b)
  {
  }

  /** One camera under `handle_edit_resolution`: a 2D camera takes the
      ratio's viewport and keeps its scale; a 3D camera takes the ratio's
      depth and keeps x and y. */
  function AspectOne(a: AspectRatio, c: Camera): (r: Camera)
    ensures r.role == c.role && r.order == c.order && r.layer == c.layer && r.x == c.x && r.y == c.y
    ensures c.projection.Orthographic? ==>
              r == c.(projection := Orthographic(ViewWidth(a), ViewHeight(a), c.projection.scale))
    ensures c.projection.Perspective? ==> r == c.(z := Depth(a))
  {
    match c.projection
    case Orthographic(_, _, s) => c.(projection := Orthographic(ViewWidth(a), ViewHeight(a), s))
    case Perspective => c.(z := Depth(a))
  }

  /** `handle_edit_resolution` (cameras) for one event, over every camera. */
  function ApplyAspect(a: AspectRatio, cams: seq<Camera>): (r: seq<Camera>)
    ensures |r| == |cams|
    ensures forall k :: 0 <= k < |cams| ==> r[k] == AspectOne(a, cams[k])
  {
    seq(|cams|, k requires 0 <= k < |cams| => AspectOne(a, cams[k]))
  }

  /** A later ratio overwrites an earlier one entirely; in particular
      applying the same ratio twice is applying it once. */
  lemma AspectOverwrites(a: AspectRatio, b: AspectRatio, cams: seq<Camera>)
    ensures ApplyAspect(b, ApplyAspect(a, cams)) == ApplyAspect(b, cams)
    ensures ApplyAspect(a, ApplyAspect(a, cams)) == ApplyAspect(a, cams)
  {
  }

  /** `handle_edit_resolution` (cameras) over a step's events, in order. */
  function HandleEditResolution(cams: seq<Camera>, events: seq<AspectRatio>): (r: seq<Camera>)
    ensures |r| == |cams|
    ensures forall k :: 0 <= k < |cams| ==>
              && r[k].role == cams[k].role && r[k].order == cams[k].order && r[k].layer == cams[k].layer
              && r[k].x == cams[k].x && r[k].y == cams[k].y
              && r[k].projection.Orthographic? == cams[k].projection.Orthographic?
    ensures forall k :: 0 <= k < |cams| && cams[k].projection.Orthographic? ==>
              r[k].projection.scale == cams[k].projection.scale && r[k].z == cams[k].z
    decreases |events|
  {
    if events == [] then cams else HandleEditResolution(ApplyAspect(events[0], cams), events[1..])
  }

  /** Only the last event of a step matters. */
  lemma {:induction false} LastAspectWins(cams: seq<Camera>, events: seq<AspectRatio>)
    requires events != []
    ensures HandleEditResolution(cams, events) == ApplyAspect(events[|events| - 1], cams)
    decreases |events|
  {
    if |events| > 1 {
      LastAspectWins(ApplyAspect(events[0], cams), events[1..]);
      AspectOverwrites(events[0], events[|events| - 1], cams);
    }
  }

  /** `handle_translate_camera` for one event: every camera moves to the
      position and keeps its depth. */
  function Translate(cams: seq<Camera>, x: real, y: real): (r: seq<Camera>)
    ensures |r| == |cams|
    ensures forall k :: 0 <= k < |cams| ==>
              && r[k].x == x && r[k].y == y && r[k].z == cams[k].z
              && r[k].role == cams[k].role && r[k].order == cams[k].order && r[k].layer == cams[k].layer
              && r[k].projection == cams[k].projection
  {
    seq(|cams|, k requires 0 <= k < |cams| => cams[k].(x := x, y := y))
  }

  /** Translations compose by overwriting, and never change a depth. */
  lemma TranslateOverwrites(cams: seq<Camera>, x0: real, y0: real, x1: real, y1: real)
    ensures Translate(Translate(cams, x0, y0), x1, y1) == Translate(cams, x1, y1)
    ensures forall k :: 0 <= k < |cams| ==> Translate(cams, x0, y0)[k].z == cams[k].z
  {
  }

  const MinScale: real := 0.25
  const MaxScale: real := 5.0
  const ScaleStep: real := 0.25

  function Clamp(v: real, lo: real, hi: real): real
    requires lo <= hi
  {
    if v < lo then lo else if v > hi then hi else v
  }

  /** The new scale of a zoomed 2D camera: one step up for a zoom "in", one
      step down otherwise, then clamped to the allowed range. */
  function ZoomScale(scale: real, directedIn: bool): (r: real)
    ensures MinScale <= r <= MaxScale
    ensures directedIn ==> r >= scale || scale > MaxScale
    ensures !directedIn ==> r <= scale || scale < MinScale
    ensures MinScale <= scale <= MaxScale ==> -ScaleStep <= r - scale <= ScaleStep
    ensures var d := if directedIn then ScaleStep else -ScaleStep;
            && (MinScale <= scale + d <= MaxScale ==> r == scale + d)
            && (scale + d > MaxScale ==> r == MaxScale)
            && (scale + d < MinScale ==> r == MinScale)
  {
    Clamp(if directedIn then scale + ScaleStep else scale - ScaleStep, MinScale, MaxScale)
  }

  /** The scale after `n` zoom events in the same direction. */
  function ZoomTimes(scale: real, directedIn: bool, n: nat): real
  {
    if n == 0 then scale else ZoomScale(ZoomTimes(scale, directedIn, n - 1), directedIn)
  }

  /** From a scale in range, `n` zooms in raise the scale by `n` steps until
      it reaches the maximum, and `n` zooms out lower it by `n` steps until
      it reaches the minimum. */
  lemma {:induction false} ZoomSteps(scale: real, n: nat)
    requires MinScale <= scale <= MaxScale
    ensures ZoomTimes(scale, true, n) == if scale + n as real * ScaleStep > MaxScale then MaxScale
                                         else scale + n as real * ScaleStep
    ensures ZoomTimes(scale, false, n) == if scale - n as real * ScaleStep < MinScale then MinScale
                                          else scale - n as real * ScaleStep
  {
    if n > 0 {
      ZoomSteps(scale, n - 1);
    }
  }

  /** Inside the range, a zoom in undoes a zoom out and the other way round. */
  lemma ZoomRoundTrip(scale: real)
    ensures MinScale <= scale <= MaxScale - ScaleStep ==> ZoomScale(ZoomScale(scale, true), false) == scale
    ensures MinScale + ScaleStep <= scale <= MaxScale ==> ZoomScale(ZoomScale(scale, false), true) == scale
  {
  }

  /** `handle_zoom_camera` for one event: every 2D camera except the UI
      camera steps its scale; nothing else changes (the 3D camera's field of
      view is not modelled). */
  function Zoom(cams: seq<Camera>, directedIn: bool): (r: seq<Camera>)
    ensures |r| == |cams|
    ensures forall k :: 0 <= k < |cams| ==>
              if cams[k].role != Ui && cams[k].projection.Orthographic? then
                r[k] == cams[k].(projection := cams[k].projection.(scale := ZoomScale(cams[k].projection.scale, directedIn)))
              else r[k] == cams[k]
  {
    seq(|cams|, k requires 0 <= k < |cams| =>
      var c := cams[k];
      if c.role != Ui && c.projection.Orthographic? then
        c.(projection := c.projection.(scale := ZoomScale(c.projection.scale, directedIn)))
      else c)
  }

  /** `handle_zoom_camera` over a step's events, in order. */
  function HandleZoom(cams: seq<Camera>, events: seq<bool>): (r: seq<Camera>)
    ensures |r| == |cams|
    ensures forall k :: 0 <= k < |cams| ==>
              && r[k].role == cams[k].role && r[k].x == cams[k].x && r[k].y == cams[k].y && r[k].z == cams[k].z
              && r[k].projection.Orthographic? == cams[k].projection.Orthographic?
    ensures forall k :: 0 <= k < |cams| && (cams[k].role == Ui || cams[k].projection.Perspective?) ==> r[k] == cams[k]
    ensures forall k :: 0 <= k < |cams| && cams[k].projection.Orthographic? ==>
              r[k].projection.width == cams[k].projection.width &&
              r[k].projection.height == cams[k].projection.height
    decreases |events|
  {
    if events == [] then cams else HandleZoom(Zoom(cams, events[0]), events[1..])
  }

  /** The scale after a queue of zoom events, each in its own direction,
      applied in order. */
  function ZoomFold(scale: real, events: seq<bool>): real
    decreases |events|
  {
    if events == [] then scale else ZoomFold(ZoomScale(scale, events[0]), events[1..])
  }

  /** A frame of zoom events steps every zoomed camera's scale once per
      event, in order. */
  lemma {:induction false} HandleZoomScale(cams: seq<Camera>, events: seq<bool>, k: nat)
    requires k < |cams| && cams[k].role != Ui && cams[k].projection.Orthographic?
    ensures HandleZoom(cams, events)[k].projection.scale == ZoomFold(cams[k].projection.scale, events)
    decreases |events|
  {
    if events != [] {
      HandleZoomScale(Zoom(cams, events[0]), events[1..], k);
    }
  }

  /** One more zoom first is one more zoom. */
  lemma {:induction false} ZoomTimesFirst(scale: real, directedIn: bool, n: nat)
    ensures ZoomTimes(ZoomScale(scale, directedIn), directedIn, n) == ZoomTimes(scale, directedIn, n + 1)
    decreases n
  {
    if n > 0 {
      ZoomTimesFirst(scale, directedIn, n - 1);
    }
  }

  /** A queue of `n` zooms in one direction is `n` repeated zooms. */
  lemma {:induction false} ZoomFoldRepeats(scale: real, directedIn: bool, n: nat)
    ensures ZoomFold(scale, seq(n, _ => directedIn)) == ZoomTimes(scale, directedIn, n)
    decreases n
  {
    if n > 0 {
      var events := seq(n, _ => directedIn);
      assert events[0] == directedIn;
      assert events[1..] == seq(n - 1, _ => directedIn);
      ZoomFoldRepeats(ZoomScale(scale, directedIn), directedIn, n - 1);
      ZoomTimesFirst(scale, directedIn, n - 1);
    }
  }

  /** A frame of `n` zoom events in one direction moves a zoomed camera's
      scale `n` steps, stopping at the bound: from an in-range scale s, `n`
      zooms in give min(s + 0.25·n, 5.0) and `n` zooms out give
      max(s − 0.25·n, 0.25). */
  lemma HandleZoomIsZoomTimes(cams: seq<Camera>, directedIn: bool, n: nat, k: nat)
    requires k < |cams| && cams[k].role != Ui && cams[k].projection.Orthographic?
    ensures HandleZoom(cams, seq(n, _ => directedIn))[k].projection.scale ==
            ZoomTimes(cams[k].projection.scale, directedIn, n)
    ensures var s := cams[k].projection.scale;
            var r := HandleZoom(cams, seq(n, _ => directedIn))[k].projection.scale;
            MinScale <= s <= MaxScale ==>
              if directedIn then r == (if s + n as real * ScaleStep > MaxScale then MaxScale else s + n as real * ScaleStep)
              else r == (if s - n as real * ScaleStep < MinScale then MinScale else s - n as real * ScaleStep)
  {
    HandleZoomScale(cams, seq(n, _ => directedIn), k);
    ZoomFoldRepeats(cams[k].projection.scale, directedIn, n);
    if MinScale <= cams[k].projection.scale <= MaxScale {
      ZoomSteps(cams[k].projection.scale, n);
    }
  }

  /** Every 2D camera that zoom touches has its scale in range. */
  ghost predicate ScalesInRange(cams: seq<Camera>)
  {
    forall k :: 0 <= k < |cams| && cams[k].role != Ui && cams[k].projection.Orthographic? ==>
      MinScale <= cams[k].projection.scale <= MaxScale
  }

  /** After any non-empty run of zoom events every zoomed scale is in range,
      whatever it was before; the UI camera is never touched. */
  lemma {:induction false} ZoomStaysInRange(cams: seq<Camera>, events: seq<bool>)
    requires events != [] || ScalesInRange(cams)
    ensures ScalesInRange(HandleZoom(cams, events))
    ensures |HandleZoom(cams, events)| == |cams|
    ensures forall k :: 0 <= k < |cams| && cams[k].role == Ui ==> HandleZoom(cams, events)[k] == cams[k]
    decreases |events|
  {
    if events != [] {
      ZoomStaysInRange(Zoom(cams, events[0]), events[1..]);
    }
  }

  /** The three cameras `spawn_cameras` creates, with the 3D camera's depth
      as written: 173.82. The 2D cameras sit at the 2D bundle's default depth. */
  const SpawnAsWritten: seq<Camera> := [
    Camera(World, 0, 1, 0.0, 0.0, 173.82, Perspective),
    Camera(Stage, 1, 0, 0.0, 0.0, 999.9, Orthographic(256.0, 144.0, 1.0)),
    Camera(Ui, 2, 2, 0.0, 0.0, 999.9, Orthographic(256.0, 144.0, 1.0))]

  /** The depth as written is not the 16:9 table's: a 16:9 resolution event
      moves the freshly spawned 3D camera, and the written depth does not
      frame the 16:9 viewport to the nearest thousandth. */
  lemma SpawnDepthAsWritten()
    ensures ApplyAspect(Ratio16x9, SpawnAsWritten) != SpawnAsWritten
    ensures ApplyAspect(Ratio16x9, SpawnAsWritten)[0].z - SpawnAsWritten[0].z == 0.003
    ensures !SpansHeight(SpawnAsWritten[0].z, ViewHeight(Ratio16x9))
  {
    assert ApplyAspect(Ratio16x9, SpawnAsWritten)[0].z == 173.823;
  }

  /** The cameras as evidently intended: every camera as spawned, with the
      3D depth taken from the 16:9 row of the table. */
  const Spawn: seq<Camera> := SpawnAsWritten[0 := SpawnAsWritten[0].(z := Depth(Ratio16x9))]

  /** The spawned cameras render in orders 0, 1, 2 on layers 1, 0, 2, one per
      role; both 2D cameras start with the 16:9 viewport at scale 1; and the
      whole set is already in its 16:9 configuration, which is the
      configuration the default 2560x1440 window calls for. */
  lemma SpawnIsSixteenNine()
    ensures |Spawn| == 3
    ensures forall j, k :: 0 <= j < k < 3 ==>
              Spawn[j].order < Spawn[k].order && Spawn[j].layer != Spawn[k].layer && Spawn[j].role != Spawn[k].role
    ensures Spawn[0].projection.Perspective? && Spawn[1].projection.Orthographic? && Spawn[2].projection.Orthographic?
    ensures Spawn[1].projection == Spawn[2].projection == Orthographic(256.0, 144.0, 1.0)
    ensures ApplyAspect(Ratio16x9, Spawn) == Spawn
    ensures Distance(Defaults.resolution, Ratio16x9) == 0
    ensures SpansHeight(Spawn[0].z, ViewHeight(Ratio16x9))
  {
    AspectTable();
  }
}
