/**
 * The blur/zoom animator: the HDRMBlurEnum flags, the Range triples, the
 * per-flag targets read from the transition configuration, and the timeline
 * bookkeeping of hd_render_manager_set_blur and its frame/completion callbacks.
 */
module Blur {

  /** HDRMBlurEnum as named booleans. */
  datatype BlurFlags = BlurFlags(
    home: bool,                 // HDRM_BLUR_HOME = 1
    showTaskNav: bool,          // HDRM_SHOW_TASK_NAV = 2
    background: bool,           // HDRM_BLUR_BACKGROUND = 4
    zoomLauncher: bool,         // HDRM_ZOOM_FOR_LAUNCHER = 16
    zoomLauncherSubmenu: bool,  // HDRM_ZOOM_FOR_LAUNCHER_SUBMENU = 32
    zoomTaskNav: bool)          // HDRM_ZOOM_FOR_TASK_NAV = 64

  const BlurNone := BlurFlags(false, false, false, false, false, false)
  const BlurHomeOnly := BlurNone.(home := true)
  const BlurBackgroundOnly := BlurNone.(background := true)

  const HOME_BIT: bv8 := 1
  const SHOW_TASK_NAV_BIT: bv8 := 2
  const BACKGROUND_BIT: bv8 := 4
  const ZOOM_LAUNCHER_BIT: bv8 := 16
  const ZOOM_SUBMENU_BIT: bv8 := 32
  const ZOOM_TASK_NAV_BIT: bv8 := 64
  const VALID_BITS: bv8 := 0x77

  function Bit(set_: bool, bit: bv8): bv8 { if set_ then bit else 0 }

  /** The integer mask the source passes around. */
  function ToMask(f: BlurFlags): bv8 {
    Bit(f.home, HOME_BIT) | Bit(f.showTaskNav, SHOW_TASK_NAV_BIT) | Bit(f.background, BACKGROUND_BIT)
    | Bit(f.zoomLauncher, ZOOM_LAUNCHER_BIT) | Bit(f.zoomLauncherSubmenu, ZOOM_SUBMENU_BIT)
    | Bit(f.zoomTaskNav, ZOOM_TASK_NAV_BIT)
  }

  function FromMask(m: bv8): BlurFlags {
    BlurFlags(m & HOME_BIT != 0, m & SHOW_TASK_NAV_BIT != 0, m & BACKGROUND_BIT != 0,
              m & ZOOM_LAUNCHER_BIT != 0, m & ZOOM_SUBMENU_BIT != 0, m & ZOOM_TASK_NAV_BIT != 0)
  }

  /** Flags survive the trip through the integer mask. */
  lemma MaskRoundTrip(f: BlurFlags)
    ensures FromMask(ToMask(f)) == f
    ensures ToMask(f) & !VALID_BITS == 0
  {
  }

  /** A mask survives the trip through the flags once its undefined bits are dropped. */
  lemma FlagsRoundTrip(m: bv8)
    ensures ToMask(FromMask(m)) == m & VALID_BITS
  {
  }

  /** Setting and clearing BLUR_BACKGROUND as update_blur_state does touches that bit only. */
  lemma BackgroundToggleIsOneBit(f: BlurFlags)
    ensures ToMask(f.(background := true)) == ToMask(f) | BACKGROUND_BIT
    ensures ToMask(f.(background := false)) == ToMask(f) & !BACKGROUND_BIT
  {
  }

  /** A start value a, a target b and the current interpolated value. */
  datatype Range = Range(a: real, b: real, current: real)

  /** range_set: a settled range at val. */
  function RangeSet(val: real): Range { Range(val, val, val) }

  /** range_interpolate: current moves along the segment from a to b. */
  function Interpolate(r: Range, n: real): (r': Range)
    ensures r'.a == r.a && r'.b == r.b
    ensures n == 0.0 ==> r'.current == r.a
    ensures n == 1.0 ==> r'.current == r.b
    ensures r.a == r.b ==> r'.current == r.a
  {
    r.(current := r.a * (1.0 - n) + r.b * n)
  }

  /** range_next: the new animation starts where the range currently is. */
  function Next(r: Range, x: real): (r': Range)
    ensures r'.a == r.current && r'.b == x && r'.current == r.current
  {
    Range(r.current, x, r.current)
  }

  /** range_equal: nothing to animate. */
  predicate Equal(r: Range) { r.a == r.b }

  /** Between 0 and 1 the interpolated value stays between the end points. */
  lemma InterpolateBetween(r: Range, n: real)
    requires 0.0 <= n <= 1.0
    ensures r.a <= r.b ==> r.a <= Interpolate(r, n).current <= r.b
    ensures r.b <= r.a ==> r.b <= Interpolate(r, n).current <= r.a
  {
    if r.a <= r.b {
      Rising(r, n);
    }
    if r.b <= r.a {
      Falling(r, n);
    }
  }

  /** Interpolating upwards stays between the end points. */
  lemma Rising(r: Range, n: real)
    requires 0.0 <= n <= 1.0 && r.a <= r.b
    ensures r.a <= Interpolate(r, n).current <= r.b
  {
    InterpolateFromStart(r, n);
    MulBounds(n, r.b - r.a);
  }

  /** Interpolating downwards is interpolating the reversed range upwards. */
  lemma Falling(r: Range, n: real)
    requires 0.0 <= n <= 1.0 && r.b <= r.a
    ensures r.b <= Interpolate(r, n).current <= r.a
  {
    var rev := Range(r.b, r.a, r.current);
    Reversed(r, n);
    Rising(rev, 1.0 - n);
  }

  /** A range interpolated at n sits where its reversal does at 1 - n. */
  lemma Reversed(r: Range, n: real)
    ensures Interpolate(r, n).current == Interpolate(Range(r.b, r.a, r.current), 1.0 - n).current
  {
    ReversedOffset(r.a, r.b, n);
  }

  lemma ReversedOffset(a: real, b: real, n: real)
    ensures a * (1.0 - n) + b * n == b * (1.0 - (1.0 - n)) + a * (1.0 - n)
  {
  }

  /** The interpolated value is the start plus a fraction n of the distance to the target. */
  lemma InterpolateFromStart(r: Range, n: real)
    ensures Interpolate(r, n).current == r.a + n * (r.b - r.a)
  {
    InterpolateOffset(r.a, r.b, n);
  }

  lemma InterpolateOffset(a: real, b: real, n: real)
    ensures a * (1.0 - n) + b * n == a + n * (b - a)
  {
  }

  lemma MulBounds(n: real, d: real)
    requires 0.0 <= n <= 1.0 && 0.0 <= d
    ensures 0.0 <= n * d <= d
  {
    assert d - n * d == (1.0 - n) * d;
  }

  /** A key of the transition configuration: a section and a key name. */
  datatype ConfigKey = ConfigKey(section: string, key: string)

  /** The transition configuration as read by hd_transition_get_double / _int. */
  datatype Config = Config(doubles: map<ConfigKey, real>, ints: map<ConfigKey, int>)

  const EmptyConfig := Config(map[], map[])

  /** The configured value, or the caller's default when the key is absent. */
  function GetDouble(cfg: Config, section: string, key: string, default: real): real {
    if ConfigKey(section, key) in cfg.doubles then cfg.doubles[ConfigKey(section, key)] else default
  }

  function GetInt(cfg: Config, section: string, key: string, default: int): int {
    if ConfigKey(section, key) in cfg.ints then cfg.ints[ConfigKey(section, key)] else default
  }

  function B2I(b: bool): nat { if b then 1 else 0 }

  /** zoom_home: how many of the three zoom flags are set. */
  function ZoomHome(f: BlurFlags): nat {
    B2I(f.zoomLauncher) + B2I(f.zoomLauncherSubmenu) + B2I(f.zoomTaskNav)
  }

  /** zoom_task_nav: only the two launcher zoom flags count. */
  function ZoomTaskNav(f: BlurFlags): nat {
    B2I(f.zoomLauncher) + B2I(f.zoomLauncherSubmenu)
  }

  /** blur_home: either kind of background blur. */
  predicate BlurHome(f: BlurFlags) { f.home || f.background }

  /** The six target values set_blur heads for. */
  datatype Targets = Targets(
    radius: real, saturation: real, brightness: real, zoom: real,
    taskNavOpacity: real, taskNavZoom: real)

  const NoBlurTargets := Targets(0.0, 1.0, 1.0, 1.0, 0.0, 1.0)

  /** The targets for a flag set, with configuration values where the source reads them. */
  function TargetsFor(f: BlurFlags, cfg: Config): (t: Targets)
    ensures !BlurHome(f) ==> t.radius == 0.0 && t.saturation == 1.0 && t.brightness == 1.0
    ensures ZoomHome(f) == 0 ==> t.zoom == 1.0
    ensures ZoomTaskNav(f) == 0 ==> t.taskNavZoom == 1.0
    ensures t.taskNavOpacity == if f.showTaskNav then 1.0 else 0.0
  {
    var zh := ZoomHome(f);
    var zt := ZoomTaskNav(f);
    Targets(
      if BlurHome(f) then GetDouble(cfg, "home", if zh > 0 then "radius_more" else "radius", 8.0) else 0.0,
      if BlurHome(f) then GetDouble(cfg, "home", "saturation", 1.0) else 1.0,
      if BlurHome(f) then GetDouble(cfg, "home", "brightness", 1.0) else 1.0,
      if zh > 0 then 1.0 - (1.0 - GetDouble(cfg, "home", "zoom", 1.0)) * (zh as real) else 1.0,
      if f.showTaskNav then 1.0 else 0.0,
      if zt > 0 then 1.0 - (1.0 - GetDouble(cfg, "task_nav", "zoom", 1.0)) * (zt as real) else 1.0)
  }

  /** The configuration keys set_blur consults for a flag set. */
  function Consulted(f: BlurFlags): set<ConfigKey> {
    (if BlurHome(f) then
       {ConfigKey("home", "saturation"), ConfigKey("home", "brightness"),
        ConfigKey("home", if ZoomHome(f) > 0 then "radius_more" else "radius")}
     else {})
    + (if ZoomHome(f) > 0 then {ConfigKey("home", "zoom")} else {})
    + (if ZoomTaskNav(f) > 0 then {ConfigKey("task_nav", "zoom")} else {})
  }

  predicate AgreeOn(c1: Config, c2: Config, keys: set<ConfigKey>) {
    forall k :: k in keys ==>
      (k in c1.doubles <==> k in c2.doubles) && (k in c1.doubles ==> c1.doubles[k] == c2.doubles[k])
  }

  /** The targets depend on the configuration only through the consulted keys. */
  lemma TargetsReadOnlyConsulted(f: BlurFlags, c1: Config, c2: Config)
    requires AgreeOn(c1, c2, Consulted(f))
    ensures TargetsFor(f, c1) == TargetsFor(f, c2)
  {
    var zh := ZoomHome(f);
    if BlurHome(f) {
      assert ConfigKey("home", "saturation") in Consulted(f);
      assert ConfigKey("home", "brightness") in Consulted(f);
      assert ConfigKey("home", if zh > 0 then "radius_more" else "radius") in Consulted(f);
    }
    if zh > 0 {
      assert ConfigKey("home", "zoom") in Consulted(f);
    }
    if ZoomTaskNav(f) > 0 {
      assert ConfigKey("task_nav", "zoom") in Consulted(f);
    }
  }

  /** With no flags the targets are the resting values and no configuration is read. */
  lemma NoFlagsNoConfig(cfg: Config)
    ensures Consulted(BlurNone) == {}
    ensures TargetsFor(BlurNone, cfg) == NoBlurTargets
  {
  }

  /** The task switcher's zoom ignores ZOOM_FOR_TASK_NAV; the home zoom counts it. */
  lemma TaskNavZoomIgnoresTaskNavFlag(f: BlurFlags, cfg: Config)
    ensures TargetsFor(f.(zoomTaskNav := true), cfg).taskNavZoom == TargetsFor(f.(zoomTaskNav := false), cfg).taskNavZoom
    ensures ZoomHome(f.(zoomTaskNav := true)) == ZoomHome(f.(zoomTaskNav := false)) + 1
  {
  }

  /** With every key absent, the source's defaults decide the targets. */
  lemma DefaultTargets(f: BlurFlags)
    ensures TargetsFor(f, EmptyConfig) ==
      Targets(if BlurHome(f) then 8.0 else 0.0, 1.0, 1.0, 1.0,
              if f.showTaskNav then 1.0 else 0.0, 1.0)
  {
  }

  /**
   * The animator's part of the render manager: the six ranges, the current
   * flags, the timeline_playing flag, the compositor's effect-running flag and
   * the timeline duration last set.
   */
  datatype Anim = Anim(
    radius: Range, saturation: Range, brightness: Range, zoom: Range,
    taskNavOpacity: Range, taskNavZoom: Range,
    currentBlur: BlurFlags,
    timelinePlaying: bool,
    effectRunning: bool,
    duration: int)

  /** The animator as hd_render_manager_init leaves it. */
  const InitAnim := Anim(RangeSet(0.0), RangeSet(1.0), RangeSet(1.0), RangeSet(1.0),
                         RangeSet(0.0), RangeSet(1.0), BlurNone, false, false, 250)

  /** No range needs animating. */
  predicate AllEqual(an: Anim) {
    Equal(an.radius) && Equal(an.saturation) && Equal(an.brightness) && Equal(an.zoom)
    && Equal(an.taskNavOpacity) && Equal(an.taskNavZoom)
  }

  /** Every range sits on its target. */
  predicate Settled(an: Anim) {
    an.radius.current == an.radius.b && an.saturation.current == an.saturation.b
    && an.brightness.current == an.brightness.b && an.zoom.current == an.zoom.b
    && an.taskNavOpacity.current == an.taskNavOpacity.b && an.taskNavZoom.current == an.taskNavZoom.b
  }

  /**
   * The animator invariant: when no timeline is playing every range is on its
   * target, and while one plays the compositor knows an effect is running.
   */
  predicate Resting(an: Anim) {
    (!an.timelinePlaying ==> Settled(an)) && (an.timelinePlaying ==> an.effectRunning)
  }

  /** The targets the ranges head for. */
  function TargetsOf(an: Anim): Targets {
    Targets(an.radius.b, an.saturation.b, an.brightness.b, an.zoom.b, an.taskNavOpacity.b, an.taskNavZoom.b)
  }

  /** Re-targets every range from where it currently is. */
  function Retarget(an: Anim, f: BlurFlags, t: Targets): (r: Anim)
    ensures r.currentBlur == f && TargetsOf(r) == t
    ensures r.radius.a == an.radius.current && r.saturation.a == an.saturation.current
    ensures r.brightness.a == an.brightness.current && r.zoom.a == an.zoom.current
    ensures r.taskNavOpacity.a == an.taskNavOpacity.current && r.taskNavZoom.a == an.taskNavZoom.current
    ensures AllEqual(r) ==> Settled(r)
  {
    an.(currentBlur := f,
        radius := Next(an.radius, t.radius),
        saturation := Next(an.saturation, t.saturation),
        brightness := Next(an.brightness, t.brightness),
        zoom := Next(an.zoom, t.zoom),
        taskNavOpacity := Next(an.taskNavOpacity, t.taskNavOpacity),
        taskNavZoom := Next(an.taskNavZoom, t.taskNavZoom))
  }

  /**
   * hd_render_manager_set_blur up to the point where it either starts the
   * timeline or hands over to the after-transition sync, AS WRITTEN: stopping
   * a playing timeline lowers the effect-running flag but leaves
   * timeline_playing raised.
   */
  function BlurStepAsWritten(an: Anim, f: BlurFlags, cfg: Config): (r: Anim)
    ensures r.currentBlur == f && TargetsOf(r) == TargetsFor(f, cfg)
    ensures !AllEqual(r) ==> r.timelinePlaying && r.effectRunning
    ensures AllEqual(r) ==> r.timelinePlaying == an.timelinePlaying
    ensures !r.timelinePlaying ==> Settled(r)
  {
    var stopped := if an.timelinePlaying then an.(effectRunning := false) else an;
    var r := Retarget(stopped, f, TargetsFor(f, cfg));
    if AllEqual(r) then r
    else r.(effectRunning := true, duration := GetInt(cfg, "blur", "duration", 250), timelinePlaying := true)
  }

  /**
   * The same step with the stop also clearing timeline_playing, so that the
   * flag is raised exactly when this call starts the timeline.
   */
  function BlurStep(an: Anim, f: BlurFlags, cfg: Config): (r: Anim)
    ensures r.currentBlur == f && TargetsOf(r) == TargetsFor(f, cfg)
    ensures r.radius.a == an.radius.current && r.saturation.a == an.saturation.current
    ensures r.brightness.a == an.brightness.current && r.zoom.a == an.zoom.current
    ensures r.taskNavOpacity.a == an.taskNavOpacity.current && r.taskNavZoom.a == an.taskNavZoom.current
    ensures r.timelinePlaying <==> !AllEqual(r)
    ensures r.timelinePlaying ==> r.effectRunning && r.duration == GetInt(cfg, "blur", "duration", 250)
    ensures !r.timelinePlaying ==> r.effectRunning == (an.effectRunning && !an.timelinePlaying)
    ensures !r.timelinePlaying ==> r.duration == an.duration
    ensures Resting(r)
  {
    var stopped := if an.timelinePlaying then an.(timelinePlaying := false, effectRunning := false) else an;
    var r := Retarget(stopped, f, TargetsFor(f, cfg));
    if AllEqual(r) then r
    else r.(effectRunning := true, duration := GetInt(cfg, "blur", "duration", 250), timelinePlaying := true)
  }

  /**
   * Blurring the home screen and, before the first frame, asking for no blur
   * again leaves timeline_playing raised as written, with nothing to animate.
   */
  lemma StaleTimelineFlag()
    ensures var started := BlurStepAsWritten(InitAnim, BlurHomeOnly, EmptyConfig);
            var back := BlurStepAsWritten(started, BlurNone, EmptyConfig);
            started.timelinePlaying && AllEqual(back) && back.timelinePlaying && !back.effectRunning
  {
  }

  /** The same two calls through the corrected step leave the flag lowered. */
  lemma NoStaleTimelineFlag()
    ensures var started := BlurStep(InitAnim, BlurHomeOnly, EmptyConfig);
            var back := BlurStep(started, BlurNone, EmptyConfig);
            started.timelinePlaying && AllEqual(back) && !back.timelinePlaying && !back.effectRunning
  {
  }

  /**
   * The correction changes timeline_playing and nothing else, and only when
   * a playing timeline is stopped and nothing is left to animate. As written,
   * the ranges still rest on their targets whenever the flag is down; only
   * the second half of Resting, the effect flag raised while a timeline
   * plays, can fail.
   */
  lemma CorrectionOnlyLowersFlag(an: Anim, f: BlurFlags, cfg: Config)
    ensures var fixed := BlurStep(an, f, cfg);
            var written := BlurStepAsWritten(an, f, cfg);
            && fixed == written.(timelinePlaying := fixed.timelinePlaying)
            && (fixed.timelinePlaying != written.timelinePlaying <==> an.timelinePlaying && AllEqual(fixed))
            && (Resting(written) <==> (written.timelinePlaying ==> written.effectRunning))
  {
  }

  /** on_timeline_blur_new_frame: every range moves to progress amt. */
  function Frame(an: Anim, amt: real): (r: Anim)
    ensures TargetsOf(r) == TargetsOf(an) && r.currentBlur == an.currentBlur
    ensures r.timelinePlaying == an.timelinePlaying && r.effectRunning == an.effectRunning
    ensures amt == 1.0 ==> Settled(r)
  {
    an.(radius := Interpolate(an.radius, amt),
        saturation := Interpolate(an.saturation, amt),
        brightness := Interpolate(an.brightness, amt),
        zoom := Interpolate(an.zoom, amt),
        taskNavOpacity := Interpolate(an.taskNavOpacity, amt),
        taskNavZoom := Interpolate(an.taskNavZoom, amt))
  }

  /** The animator part of on_timeline_blur_completed. */
  function Complete(an: Anim): (r: Anim)
    ensures !r.timelinePlaying && !r.effectRunning
    ensures TargetsOf(r) == TargetsOf(an) && Settled(r) == Settled(an)
  {
    an.(timelinePlaying := false, effectRunning := false)
  }
}
