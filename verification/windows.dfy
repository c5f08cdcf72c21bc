/** The display settings of src/config/windows.rs: the resolution cycle
    driven by the Digit0 key, the vsync and fullscreen toggles, the MSAA
    cycle, the framerate limiter, and the window defaults. */
module Windows {

  import opened Wrappers
  import Rings

  /** The aspect ratios an `EditResolution` event can carry. */
  datatype AspectRatio = Ratio4x3 | Ratio5x4 | Ratio8x5 | Ratio16x9 | Ratio21x9

  function Num(a: AspectRatio): nat
  {
    match a
    case Ratio4x3 => 4
    case Ratio5x4 => 5
    case Ratio8x5 => 8
    case Ratio16x9 => 16
    case Ratio21x9 => 21
  }

  function Den(a: AspectRatio): nat
  {
    match a
    case Ratio4x3 => 3
    case Ratio5x4 => 4
    case Ratio8x5 => 5
    case Ratio16x9 => 9
    case Ratio21x9 => 9
  }

  const Ratios: seq<AspectRatio> := [Ratio4x3, Ratio5x4, Ratio8x5, Ratio16x9, Ratio21x9]

  /** A window size in physical pixels (the scale factor is fixed at 1). */
  datatype Resolution = Resolution(width: nat, height: nat)

  datatype EditResolution = EditResolution(resolution: Resolution, aspect: AspectRatio)

  /** `ResolutionSettings::default`, in declaration order. */
  const Presets: seq<Resolution> := [
    Resolution(1024, 768), Resolution(1280, 1024), Resolution(1280, 720), Resolution(1280, 800),
    Resolution(1360, 768), Resolution(1366, 768), Resolution(1440, 900), Resolution(1600, 900),
    Resolution(1680, 1050), Resolution(1920, 1200), Resolution(1920, 1080), Resolution(2560, 1440),
    Resolution(2560, 1600), Resolution(2560, 1080), Resolution(2880, 1800), Resolution(3440, 1440),
    Resolution(3840, 2160)]

  /** The ratio each preset is annotated with. */
  const PresetAspects: seq<AspectRatio> := [
    Ratio4x3, Ratio5x4, Ratio16x9, Ratio8x5,
    Ratio16x9, Ratio16x9, Ratio8x5, Ratio16x9,
    Ratio8x5, Ratio8x5, Ratio16x9, Ratio16x9,
    Ratio8x5, Ratio21x9, Ratio8x5, Ratio21x9,
    Ratio16x9]

  /** The event `emit_edit_resolution` sends for the current window size:
      the next size of its table with that size's ratio, or nothing (a
      warning) for a size the table does not list. */
  function NextResolution(r: Resolution): (e: Option<EditResolution>)
    ensures e.Some? ==> e.value.resolution != r && e.value.resolution.width >= 1024 && e.value.resolution.height >= 720
  {
    if r == Resolution(1024, 768) then Some(EditResolution(Resolution(1280, 1024), Ratio5x4))
    else if r == Resolution(1280, 1024) then Some(EditResolution(Resolution(1280, 720), Ratio16x9))
    else if r == Resolution(1280, 720) then Some(EditResolution(Resolution(1280, 800), Ratio8x5))
    else if r == Resolution(1280, 800) then Some(EditResolution(Resolution(1360, 768), Ratio16x9))
    else if r == Resolution(1360, 768) then Some(EditResolution(Resolution(1366, 768), Ratio16x9))
    else if r == Resolution(1366, 768) then Some(EditResolution(Resolution(1440, 900), Ratio8x5))
    else if r == Resolution(1440, 900) then Some(EditResolution(Resolution(1600, 900), Ratio16x9))
    else if r == Resolution(1600, 900) then Some(EditResolution(Resolution(1680, 1050), Ratio8x5))
    else if r == Resolution(1680, 1050) then Some(EditResolution(Resolution(1920, 1200), Ratio8x5))
    else if r == Resolution(1920, 1200) then Some(EditResolution(Resolution(1920, 1080), Ratio16x9))
    else if r == Resolution(1920, 1080) then Some(EditResolution(Resolution(2560, 1440), Ratio16x9))
    else if r == Resolution(2560, 1440) then Some(EditResolution(Resolution(2560, 1600), Ratio8x5))
    else if r == Resolution(2560, 1600) then Some(EditResolution(Resolution(2560, 1080), Ratio21x9))
    else if r == Resolution(2560, 1080) then Some(EditResolution(Resolution(2880, 1800), Ratio8x5))
    else if r == Resolution(2880, 1800) then Some(EditResolution(Resolution(3440, 1440), Ratio21x9))
    else if r == Resolution(3440, 1440) then Some(EditResolution(Resolution(3840, 2160), Ratio16x9))
    else if r == Resolution(3840, 2160) then Some(EditResolution(Resolution(1024, 768), Ratio4x3))
    else Option.None
  }

  function NextIndex(i: nat): (j: nat)
    requires i < |Presets|
    ensures j < |Presets|
  {
    Rings.Next(i, |Presets|)
  }

  /** The table is the preset list read as a ring: each listed size leads
      to the next one in declaration order (the last back to the first),
      tagged with that size's annotated ratio, and exactly the listed sizes
      lead anywhere. */
  lemma NextFollowsPresets()
    ensures forall i :: 0 <= i < |Presets| ==>
              NextResolution(Presets[i]) == Some(EditResolution(Presets[NextIndex(i)], PresetAspects[NextIndex(i)]))
    ensures forall r :: NextResolution(r).Some? <==> r in Presets
  {
    forall r | r in Presets ensures NextResolution(r).Some? {
      var i :| 0 <= i < |Presets| && Presets[i] == r;
    }
  }

  /** No size is listed twice. */
  lemma PresetsDistinct()
    ensures forall i, j :: 0 <= i < j < |Presets| ==> Presets[i] != Presets[j]
  {
  }

  /** How far `w:h` lies from a ratio, scaled by the ratio's denominator to
      stay in integers: |w/h - num/den| * h * den. */
  function Distance(r: Resolution, a: AspectRatio): nat
  {
    var d := r.width * Den(a) - r.height * Num(a);
    if d < 0 then -d else d
  }

  /** `a` is the ratio closest to the size, of the five an event can name. */
  predicate Nearest(r: Resolution, a: AspectRatio)
  {
    forall b :: Distance(r, a) * Den(b) <= Distance(r, b) * Den(a)
  }

  /** Every preset's tag is the nearest of the five ratios, and it is exact
      except for 1360x768 and 1366x768 (annotated as close to 16:9) and the
      two ultra-wide sizes tagged 21:9. */
  lemma AspectTagsAgree()
    ensures forall i :: 0 <= i < |Presets| ==> Nearest(Presets[i], PresetAspects[i])
    ensures forall i :: 0 <= i < |Presets| ==>
              (Distance(Presets[i], PresetAspects[i]) == 0 <==> i !in {4, 5, 13, 15})
  {
    forall i | 0 <= i < |Presets| ensures Nearest(Presets[i], PresetAspects[i]) {
      forall b ensures Distance(Presets[i], PresetAspects[i]) * Den(b) <= Distance(Presets[i], b) * Den(PresetAspects[i]) {
        NearestAt(i, b);
      }
    }
  }

  lemma NearestAt(i: nat, b: AspectRatio)
    requires i < |Presets|
    ensures Distance(Presets[i], PresetAspects[i]) * Den(b) <= Distance(Presets[i], b) * Den(PresetAspects[i])
  {
    if i < 6 { NearestLow(i, b); } else if i < 12 { NearestMid(i, b); } else { NearestHigh(i, b); }
  }

  lemma NearestLow(i: nat, b: AspectRatio)
    requires i < 6
    ensures Distance(Presets[i], PresetAspects[i]) * Den(b) <= Distance(Presets[i], b) * Den(PresetAspects[i])
  {
  }

  lemma NearestMid(i: nat, b: AspectRatio)
    requires 6 <= i < 12
    ensures Distance(Presets[i], PresetAspects[i]) * Den(b) <= Distance(Presets[i], b) * Den(PresetAspects[i])
  {
  }

  lemma NearestHigh(i: nat, b: AspectRatio)
    requires 12 <= i < |Presets|
    ensures Distance(Presets[i], PresetAspects[i]) * Den(b) <= Distance(Presets[i], b) * Den(PresetAspects[i])
  {
  }

  /** What `emit_edit_resolution` leaves behind: the events sent, whether a
      warning was logged, and whether Digit0 still reads as just pressed. */
  datatype Emission = Emission(events: seq<EditResolution>, warned: bool, digit0JustPressed: bool)

  /** `emit_edit_resolution`: on a just-pressed Digit0, one event for a
      listed size or a warning for any other, and the key is reset either way. */
  function EmitEditResolution(digit0JustPressed: bool, window: Resolution): (e: Emission)
    ensures !digit0JustPressed ==> e == Emission([], false, false)
    ensures digit0JustPressed ==> !e.digit0JustPressed
    ensures digit0JustPressed && window in Presets ==>
              !e.warned && |e.events| == 1 && e.events[0].resolution in Presets
    ensures digit0JustPressed && window !in Presets ==> e.warned && e.events == []
  {
    NextFollowsPresets();
    if !digit0JustPressed then Emission([], false, false)
    else
      match NextResolution(window)
      case Some(ev) => Emission([ev], false, false)
      case None => Emission([], true, false)
  }

  /** `handle_edit_resolution` (windows): each event resizes the window in
      turn, so the last one wins. */
  function HandleEditResolution(window: Resolution, events: seq<EditResolution>): (r: Resolution)
    ensures events == [] ==> r == window
    ensures events != [] ==> r == events[|events| - 1].resolution
    decreases |events|
  {
    if events == [] then window
    else HandleEditResolution(events[0].resolution, events[1..])
  }

  /** One Digit0 press in the options state, emitted and handled. */
  function PressDigit0(window: Resolution): Resolution
  {
    HandleEditResolution(window, EmitEditResolution(true, window).events)
  }

  /** `f` applied `n` times. */
  function Iterate<T>(f: T -> T, x: T, n: nat): T
    decreases n
  {
    if n == 0 then x else Iterate(f, f(x), n - 1)
  }

  /** `n` Digit0 presses, one per frame. */
  function PressDigit0Times(window: Resolution, n: nat): Resolution
  {
    Iterate(PressDigit0, window, n)
  }

  /** One press moves a listed size one place along the preset ring. */
  lemma PressStep(i: nat)
    requires i < |Presets|
    ensures PressDigit0(Presets[i]) == Presets[NextIndex(i)]
  {
    NextFollowsPresets();
    assert EmitEditResolution(true, Presets[i]).events ==
           [EditResolution(Presets[NextIndex(i)], PresetAspects[NextIndex(i)])];
  }

  /** The position `n` places after `i` in a ring of `m` positions. */
  function RingAdd(i: nat, n: nat, m: nat): (j: nat)
    requires i < m
    ensures j < m
    decreases n
  {
    if n == 0 then i else RingAdd(Rings.Next(i, m), n - 1, m)
  }

  /** Moving n places along a ring is adding n modulo its length. */
  lemma {:induction false} RingAddIsModular(i: nat, n: nat, m: nat)
    requires i < m && m == |Presets|
    ensures RingAdd(i, n, m) == (i + n) % m
    decreases n
  {
    if n > 0 {
      RingAddIsModular(Rings.Next(i, m), n - 1, m);
      if i + 1 == m {
        assert i + n == (n - 1) + m;
      }
    }
  }

  /** `ring` lists values that one application of `f` moves along in
      order, wrapping. */
  ghost predicate IsRing<T>(f: T -> T, ring: seq<T>)
  {
    forall k :: 0 <= k < |ring| ==> f(ring[k]) == ring[Rings.Next(k, |ring|)]
  }

  lemma {:induction false} WalkRing<T>(f: T -> T, ring: seq<T>, i: nat, n: nat)
    requires IsRing(f, ring) && i < |ring|
    ensures Iterate(f, ring[i], n) == ring[RingAdd(i, n, |ring|)]
    decreases n
  {
    if n > 0 {
      assert f(ring[i]) == ring[Rings.Next(i, |ring|)];
      WalkRing(f, ring, Rings.Next(i, |ring|), n - 1);
    }
  }

  /** A fixed point of `f` stays put. */
  lemma {:induction false} FixedPointStays<T>(f: T -> T, x: T, n: nat)
    requires f(x) == x
    ensures Iterate(f, x, n) == x
    decreases n
  {
    if n > 0 {
      FixedPointStays(f, x, n - 1);
    }
  }

  /** From a listed size, n presses move n places along the preset ring. */
  lemma PressesWalkThePresets(i: nat, n: nat)
    requires i < |Presets|
    ensures PressDigit0Times(Presets[i], n) == Presets[(i + n) % |Presets|]
  {
    forall k | 0 <= k < |Presets| ensures PressDigit0(Presets[k]) == Presets[Rings.Next(k, |Presets|)] {
      PressStep(k);
    }
    WalkRing(PressDigit0, Presets, i, n);
    RingAddIsModular(i, n, |Presets|);
  }

  /** The presses form a single cycle through all 17 sizes: a listed size
      comes back after n presses exactly when n is a multiple of 17. */
  lemma SingleCycle(i: nat, n: nat)
    requires i < |Presets|
    ensures PressDigit0Times(Presets[i], n) == Presets[i] <==> n % |Presets| == 0
  {
    PressesWalkThePresets(i, n);
    ReturnArithmetic(i, n);
    PresetsDistinct();
  }

  lemma ReturnArithmetic(i: nat, n: nat)
    requires i < |Presets|
    ensures (i + n) % |Presets| == i <==> n % |Presets| == 0
  {
  }

  /** An unlisted size never changes, however often Digit0 is pressed. */
  lemma UnlistedSizeIsStuck(window: Resolution, n: nat)
    requires window !in Presets
    ensures PressDigit0Times(window, n) == window
  {
    assert PressDigit0(window) == window;
    FixedPointStays(PressDigit0, window, n);
  }

  /** Turning a two-valued setting: `on` goes to `off`, anything else to `on`. */
  function Flip<T(==)>(x: T, on: T, off: T): (r: T)
    requires on != off
    ensures x == on <==> r == off
    ensures r == on || r == off
  {
    if x == on then off else on
  }

  /** `n` events, each flipping the setting in place. */
  function FlipTimes<T(==)>(x: T, on: T, off: T, n: nat): T
    requires on != off
    decreases n
  {
    if n == 0 then x else FlipTimes(Flip(x, on, off), on, off, n - 1)
  }

  /** After n > 0 flips the setting is one of the two values, and it is
      `on` exactly when the parity of n says so: an even count restores `on`
      and `off`, an odd count swaps them, and any other starting value
      counts as `off`. */
  lemma {:induction false} FlipParity<T>(x: T, on: T, off: T, n: nat)
    requires on != off
    ensures n > 0 ==> FlipTimes(x, on, off, n) in {on, off}
    ensures n > 0 ==> (FlipTimes(x, on, off, n) == on <==> ((x == on) <==> n % 2 == 0))
    decreases n
  {
    if n > 1 {
      FlipParity(Flip(x, on, off), on, off, n - 1);
    }
  }

  /** The present modes a window can have. */
  datatype PresentMode = AutoVsync | AutoNoVsync | Fifo | FifoRelaxed | Immediate | Mailbox

  /** `handle_edit_vsync`: AutoVsync is turned off, anything else turned on. */
  function HandleEditVsync(mode: PresentMode, events: nat): (r: PresentMode)
    ensures events == 0 ==> r == mode
    ensures events > 0 ==> r in {AutoVsync, AutoNoVsync}
    ensures events > 0 ==> (r == AutoVsync <==> ((mode == AutoVsync) <==> events % 2 == 0))
  {
    FlipParity(mode, AutoVsync, AutoNoVsync, events);
    FlipTimes(mode, AutoVsync, AutoNoVsync, events)
  }

  /** On its two values the vsync toggle is an involution. */
  lemma VsyncInvolution(mode: PresentMode)
    requires mode in {AutoVsync, AutoNoVsync}
    ensures HandleEditVsync(mode, 1) != mode
    ensures HandleEditVsync(HandleEditVsync(mode, 1), 1) == mode
  {
  }

  datatype WindowMode = Windowed | BorderlessFullscreen | SizedFullscreen | Fullscreen

  /** `handle_edit_fullscreen`: borderless goes back to windowed, anything
      else goes borderless. */
  function HandleEditFullscreen(mode: WindowMode, events: nat): (r: WindowMode)
    ensures events == 0 ==> r == mode
    ensures events > 0 ==> r in {BorderlessFullscreen, Windowed}
    ensures events > 0 ==>
              (r == BorderlessFullscreen <==> ((mode == BorderlessFullscreen) <==> events % 2 == 0))
  {
    FlipParity(mode, BorderlessFullscreen, Windowed, events);
    FlipTimes(mode, BorderlessFullscreen, Windowed, events)
  }

  datatype Msaa = Off | Sample2 | Sample4 | Sample8

  /** `Msaa::samples`. */
  function Samples(m: Msaa): nat
  {
    match m
    case Off => 1
    case Sample2 => 2
    case Sample4 => 4
    case Sample8 => 8
  }

  /** The setting `handle_edit_msaa` inserts for a sample count: the next
      count of 1, 2, 4, 8 (wrapping), or nothing (a warning) for any other. */
  function NextMsaa(samples: int): (r: Option<Msaa>)
    ensures r.Some? <==> samples in {1, 2, 4, 8}
    ensures r.Some? && samples < 8 ==> Samples(r.value) == 2 * samples
    ensures r.Some? && samples == 8 ==> r.value == Off
  {
    match samples
    case 1 => Some(Sample2)
    case 2 => Some(Sample4)
    case 4 => Some(Sample8)
    case 8 => Some(Off)
    case _ => Option.None
  }

  /** `handle_edit_msaa`: every event of the step reads the same committed
      setting and queues the same insertion, so a step advances the setting
      by one place however many events it holds; the warning branch is
      unreachable from a real setting. */
  function HandleEditMsaa(current: Msaa, events: nat, pending: Option<Msaa>): (r: Option<Msaa>)
    ensures events == 0 ==> r == pending
    ensures events > 0 ==> r.Some? && Samples(r.value) == (if current == Sample8 then 1 else 2 * Samples(current))
  {
    if events == 0 then pending
    else HandleEditMsaa(current, events - 1, NextMsaa(Samples(current)))
  }

  /** The step a frame with at least one MSAA event makes. */
  function StepMsaa(m: Msaa): Msaa
  {
    HandleEditMsaa(m, 1, Option.None).value
  }

  /** The MSAA steps form a single 4-cycle. */
  lemma MsaaCycle(m: Msaa)
    ensures StepMsaa(StepMsaa(StepMsaa(StepMsaa(m)))) == m
    ensures StepMsaa(m) != m && StepMsaa(StepMsaa(m)) != m && StepMsaa(StepMsaa(StepMsaa(m))) != m
  {
  }

  /** The framerate limiter: automatic, a fixed target, or none. `Manual`
      carries the frame rate its frame time was built from. */
  datatype Limiter = Auto | Manual(fps: nat) | Unlimited

  /** `FramerateSettings::default`. */
  const ManualFps: nat := 60

  function NextLimiter(l: Limiter): Limiter
  {
    match l
    case Auto => Manual(ManualFps)
    case Manual(_) => Unlimited
    case Unlimited => Auto
  }

  /** The place of a limiter on the cycle Auto, Manual, Unlimited. */
  function Place(l: Limiter): nat
  {
    match l
    case Auto => 0
    case Manual(_) => 1
    case Unlimited => 2
  }

  /** The limiter at a place of the cycle, with the configured manual rate. */
  function AtPlace(k: nat): Limiter
    requires k < 3
  {
    if k == 0 then Auto else if k == 1 then Manual(ManualFps) else Unlimited
  }

  /** `handle_edit_framerate`: with AutoVsync the first event returns
      without a change; otherwise each event moves the limiter one place on
      along the cycle, in place. */
  function HandleEditFramerate(mode: PresentMode, limiter: Limiter, events: nat): (r: Limiter)
    ensures mode == AutoVsync || events == 0 ==> r == limiter
    ensures mode != AutoVsync && events > 0 ==> r == AtPlace((Place(limiter) + events) % 3)
    decreases events
  {
    if events == 0 || mode == AutoVsync then limiter
    else HandleEditFramerate(mode, NextLimiter(limiter), events - 1)
  }

  /** With vsync off, the limiter cycles Auto, Manual(60), Unlimited, Auto:
      three events bring back any limiter on that cycle, and a manual limiter
      with another rate joins the cycle after one event. */
  lemma LimiterCycle(mode: PresentMode, l: Limiter)
    requires mode != AutoVsync
    ensures HandleEditFramerate(mode, Auto, 1) == Manual(60)
    ensures HandleEditFramerate(mode, Manual(60), 1) == Unlimited
    ensures HandleEditFramerate(mode, Unlimited, 1) == Auto
    ensures HandleEditFramerate(mode, l, 3) == l <==> (l.Manual? ==> l.fps == ManualFps)
    ensures HandleEditFramerate(mode, l, 1) in {Auto, Manual(ManualFps), Unlimited}
  {
  }

  /** The window and pacing state `setup_window` and the startup resources
      leave. */
  datatype Settings = Settings(present: PresentMode, resolution: Resolution, window: WindowMode,
                               msaa: Msaa, limiter: Limiter)

  const Defaults: Settings := Settings(AutoVsync, Resolution(2560, 1440), Windowed, Off, Auto)

  /** At the defaults the resolution is on the Digit0 cycle, MSAA is off, and
      a framerate event does nothing until vsync is turned off. */
  lemma DefaultsAreUsable(events: nat)
    ensures Defaults.resolution in Presets
    ensures Samples(Defaults.msaa) == 1
    ensures HandleEditFramerate(Defaults.present, Defaults.limiter, events) == Defaults.limiter
    ensures HandleEditFramerate(HandleEditVsync(Defaults.present, 1), Defaults.limiter, 1) == Manual(ManualFps)
  {
    assert Presets[11] == Defaults.resolution;
  }
}
