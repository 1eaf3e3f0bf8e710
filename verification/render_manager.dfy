/**
 * The render manager's own state and the routines that keep the blur in step
 * with the window stack: set_blur, sync_clutter_after and update_blur_state
 * (which call each other), the timeline callbacks, stop_transition,
 * set_launcher_subview and the queued-redraw flag.
 */
module RenderManager {
  import opened Wrappers
  import opened Geometry
  import opened Modes
  import opened Blur
  import opened Scene
  import opened Wm
  import opened Visibility
  import opened Chrome

  /** The title-bar state bits the render manager reads and writes (HdTitleBarVisEnum). */
  datatype TitleState = TitleState(
    left: ButtonId,       // HDTB_VIS_BTN_LAUNCHER or HDTB_VIS_BTN_SWITCHER under the left mask
    right: ButtonId,      // HDTB_VIS_BTN_BACK under the right mask
    fullWidth: bool,      // HDTB_VIS_FULL_WIDTH
    foreground: bool)     // HDTB_VIS_FOREGROUND

  /** Calls into other components and signals, in the order they happen. */
  datatype Event =
    | TransitionComplete          // the TRANSITION_COMPLETE signal
    | BlurredChanged              // hd_render_manager_blurred_changed
    | SyncStacking                // hd_comp_mgr_sync_stacking
    | LauncherShown               // hd_launcher_show
    | LauncherHidden              // hd_launcher_hide
    | SwitcherPulseOff            // hd_title_bar_set_switcher_pulse(FALSE)
    | ZoomOut                     // hd_task_navigator_zoom_out
    | ScrollBack                  // hd_task_navigator_scroll_back
    | CurrentAppReset             // hd_wm_current_app_is(wm, 0)
    | ShowDesktop(show: bool)     // mb_wm_handle_show_desktop
    | Orientation(portrait: bool) // hd_util_change_screen_orientation
    | StateNotify                 // notify::state
    | EditButtonHidden            // hd_home_hide_edit_button
    | LauncherTransitionStop      // hd_launcher_transition_stop
    | RedrawQueued                // clutter_actor_queue_redraw_damage on the stage

  /** The part of the render manager the blur routines change: animator, scene, title bar and event log. */
  datatype Display = Display(anim: Anim, scene: Scene, title: TitleState, events: seq<Event>)

  /** The title-bar side of the render manager: buttons, operator logo, status area and their placement. */
  datatype Bar = Bar(
    leftPressed: bool,
    buttons: Buttons,
    operatorShown: bool,
    statusAreaShown: Option<bool>,      // the status area actor, if any, and whether it is shown
    statusArea: Option<StatusArea>,     // the status area client
    operatorX: Option<int>,             // where the operator logo was last placed
    titleX: Option<int>)                // where the dialog title was last placed

  /** HdRenderManagerPrivate, as far as the modelled routines read and write it. */
  datatype RM = RM(
    state: Mode,
    previous: Mode,
    inSetState: bool,
    display: Display,
    bar: Bar,
    taskNavShown: bool,
    taskNavOpacity: int,
    queuedRedraw: bool,
    viewport: seq<Area>)

  /** What the routines read from elsewhere, as values. */
  datatype Env = Env(
    table: StateTable,
    cfg: Config,
    view: View,                 // the window manager, the compositor's presence, the screen
    taskNavEmpty: bool,         // hd_task_navigator_is_empty
    shouldBePortrait: bool,     // hd_comp_mgr_should_be_portrait
    zoomOutTarget: bool,        // the visible main client's actor is shown and in the navigator
    topLeftWidth: nat,          // HD_COMP_MGR_TOP_LEFT_BTN_WIDTH
    operatorPadding: nat)       // HD_COMP_MGR_OPERATOR_PADDING

  /** The groups are consistent, and a status area actor comes with its client. */
  predicate Wf(rm: RM) {
    Valid(rm.display.scene) && BarWf(rm.bar)
  }

  predicate BarWf(b: Bar) { b.statusAreaShown.Some? ==> b.statusArea.Some? }

  /** The ranges head for the targets of the current flags. */
  predicate Aligned(an: Anim, env: Env) {
    TargetsOf(an) == TargetsFor(an.currentBlur, env.cfg)
  }

  /** The scene as it was, or with blur_front put back on top of home_blur. */
  predicate LiftedOrSame(s1: Scene, s2: Scene) {
    s2 == s1 || s2 == Reparent(s1, BlurFrontActor, HomeBlurGroup)
  }

  /** Nothing but blur_front changed parent, position or visibility. */
  ghost predicate OnlyBlurFrontMoved(s1: Scene, s2: Scene) {
    s2.homeBlurShown == s1.homeBlurShown
    && Without(s2.homeBlur, {BlurFrontActor}) == Without(s1.homeBlur, {BlurFrontActor})
    && Without(s2.appTop, {BlurFrontActor}) == Without(s1.appTop, {BlurFrontActor})
    && forall a :: a != BlurFrontActor ==> ParentOf(s2, a) == ParentOf(s1, a) && (a in s2.visible <==> a in s1.visible)
  }

  /** Putting blur_front back leaves any other actor's parent and visibility alone. */
  lemma LiftedKeeps(s1: Scene, s2: Scene, a: ActorId)
    requires LiftedOrSame(s1, s2) && a != BlurFrontActor
    ensures ParentOf(s2, a) == ParentOf(s1, a) && (a in s2.visible <==> a in s1.visible)
    ensures s2.homeBlurShown == s1.homeBlurShown && (Valid(s1) ==> Valid(s2))
  {
  }

  /** Putting blur_front back keeps the groups consistent and moves nothing else. */
  lemma LiftedFacts(s1: Scene, s2: Scene)
    requires LiftedOrSame(s1, s2)
    ensures Valid(s1) ==> Valid(s2)
    ensures OnlyBlurFrontMoved(s1, s2)
  {
  }

  // ---------------------------------------------------------------------------
  // The window-stack scan of update_blur_state

  /** The two answers of the scan: blur the background, and keep the buttons blurred. */
  datatype Verdict = Verdict(blur: bool, blurButtons: bool)

  /** A client the scan looks at: not ignored by the compositor and not the one to ignore. */
  predicate Considered(c: Client, ignore: Option<nat>) {
    !c.ignored && ignore != Some(c.id)
  }

  /** Dialogs, menus, application and status menus, and confirmation notes. */
  predicate DialogLike(c: Client) {
    c.kind != AppClient && c.kind != DesktopClient
    && (c.kind == DialogClient || c.kind == MenuClient || c.kind == AppMenuClient
        || c.kind == StatusMenuClient || c.confirmationNote)
  }

  /** The scan stops at an application, the desktop, or a maximized dialog-like client. */
  predicate EndsScan(c: Client, isMax: Rect -> bool) {
    c.kind == AppClient || c.kind == DesktopClient || (DialogLike(c) && isMax(c.geometry))
  }

  /** A dialog-like client that is not maximized blurs the background. */
  predicate BlursBackground(c: Client, isMax: Rect -> bool) {
    DialogLike(c) && !isMax(c.geometry)
  }

  /** A maximized application or dialog-like client, or a modally blocked dialog-like one, keeps the buttons blurred. */
  predicate BlursButtons(c: Client, isMax: Rect -> bool) {
    (c.kind == AppClient && isMax(c.geometry)) || (DialogLike(c) && (isMax(c.geometry) || c.modalBlocker))
  }

  /** No considered client strictly between j and n ends the scan. */
  predicate ClearAbove(stack: seq<Client>, j: int, n: int, ignore: Option<nat>, isMax: Rect -> bool)
    requires n <= |stack|
  {
    forall m :: j < m < n && 0 <= m ==> !(Considered(stack[m], ignore) && EndsScan(stack[m], isMax))
  }

  /**
   * The loop of update_blur_state over stack[..n], from the top down: the
   * background is blurred exactly when a considered client blurs it with
   * nothing ending the scan above it, and likewise for the buttons.
   */
  function BlurScan(stack: seq<Client>, n: nat, ignore: Option<nat>, isMax: Rect -> bool): (r: Verdict)
    requires n <= |stack|
    ensures r.blur <==> exists j :: 0 <= j < n && ClearAbove(stack, j, n, ignore, isMax)
                                   && Considered(stack[j], ignore) && BlursBackground(stack[j], isMax)
    ensures r.blurButtons <==> exists j :: 0 <= j < n && ClearAbove(stack, j, n, ignore, isMax)
                                          && Considered(stack[j], ignore) && BlursButtons(stack[j], isMax)
  {
    if n == 0 then Verdict(false, false)
    else
      var c := stack[n - 1];
      if !Considered(c, ignore) then
        ClearAboveStep(stack, n, ignore, isMax);
        BlurScan(stack, n - 1, ignore, isMax)
      else if c.kind == AppClient then
        ClearAboveStop(stack, n, ignore, isMax);
        Verdict(false, isMax(c.geometry))
      else if c.kind == DesktopClient then
        ClearAboveStop(stack, n, ignore, isMax);
        Verdict(false, false)
      else if DialogLike(c) then
        if isMax(c.geometry) then
          ClearAboveStop(stack, n, ignore, isMax);
          Verdict(false, true)
        else
          ClearAboveStep(stack, n, ignore, isMax);
          var below := BlurScan(stack, n - 1, ignore, isMax);
          Verdict(true, below.blurButtons || c.modalBlocker)
      else
        ClearAboveStep(stack, n, ignore, isMax);
        BlurScan(stack, n - 1, ignore, isMax)
  }

  /** Past a client that does not end the scan, clearness above is clearness below it. */
  lemma ClearAboveStep(stack: seq<Client>, n: nat, ignore: Option<nat>, isMax: Rect -> bool)
    requires 0 < n <= |stack|
    requires !(Considered(stack[n - 1], ignore) && EndsScan(stack[n - 1], isMax))
    ensures forall j :: ClearAbove(stack, j, n, ignore, isMax) <==> ClearAbove(stack, j, n - 1, ignore, isMax)
  {
  }

  /** Below a client that ends the scan nothing is clear. */
  lemma ClearAboveStop(stack: seq<Client>, n: nat, ignore: Option<nat>, isMax: Rect -> bool)
    requires 0 < n <= |stack|
    requires Considered(stack[n - 1], ignore) && EndsScan(stack[n - 1], isMax)
    ensures forall j :: j < n - 1 ==> !ClearAbove(stack, j, n, ignore, isMax)
    ensures ClearAbove(stack, n - 1, n, ignore, isMax)
  {
  }

  /** The scan over the whole stack. */
  function VerdictOf(env: Env, ignore: Option<nat>): Verdict {
    BlurScan(env.view.w.stack, |env.view.w.stack|, ignore, env.view.layout.isMax)
  }

  /** Whether the background should be blurred, with no client ignored. */
  function Wanted(env: Env): bool { VerdictOf(env, None).blur }

  // ---------------------------------------------------------------------------
  // set_blur, sync_clutter_after and update_blur_state

  /**
   * hd_render_manager_set_blur in mode m: re-target the animator and start
   * the timeline, or, when there is nothing to animate, run the
   * after-transition sync at once. In an application mode that sync may
   * re-target the background bit once more.
   */
  function SetBlur(d: Display, m: Mode, env: Env, f: BlurFlags): (r: Display)
    ensures Aligned(r.anim, env) && Resting(r.anim)
    ensures r.anim.currentBlur == f || (IsApp(m) && r.anim.currentBlur == f.(background := Wanted(env)))
    ensures !IsApp(m) && r.anim.timelinePlaying ==> r.scene == d.scene && r.events == d.events
    ensures r.title == d.title.(foreground := r.title.foreground)
    ensures !IsApp(m) ==> r.title == d.title
    ensures LiftedOrSame(d.scene, r.scene)
    ensures ParentOf(d.scene, BlurFrontActor) == HomeBlurGroup || m !in env.table.blurButtons ==> r.scene == d.scene
    ensures m in env.table.blurButtons && !r.anim.timelinePlaying ==> ParentOf(r.scene, BlurFrontActor) == HomeBlurGroup
    ensures d.events <= r.events
    decreases 0, B2I(f.background != Wanted(env)), 4
  {
    var an := BlurStep(d.anim, f, env.cfg);
    var d1 := d.(anim := an);
    if an.timelinePlaying then d1 else SyncAfter(d1, m, env)
  }

  /**
   * hd_render_manager_sync_clutter_after in mode m: in a mode that blurs the
   * buttons, blur_front goes back on top of home_blur; in an application mode
   * the blur state is brought up to date with the window stack.
   */
  function SyncAfter(d: Display, m: Mode, env: Env): (r: Display)
    ensures m in env.table.blurButtons ==> ParentOf(r.scene, BlurFrontActor) == HomeBlurGroup
    ensures LiftedOrSame(d.scene, r.scene)
    ensures ParentOf(d.scene, BlurFrontActor) == HomeBlurGroup || m !in env.table.blurButtons ==> r.scene == d.scene
    ensures !IsApp(m) ==> r.anim == d.anim && r.title == d.title
    ensures IsApp(m) ==> r.anim.currentBlur == d.anim.currentBlur.(background := Wanted(env))
    ensures IsApp(m) && d.anim.currentBlur.background == Wanted(env) ==> r.anim == d.anim
    ensures Resting(d.anim) ==> Resting(r.anim)
    ensures Aligned(d.anim, env) ==> Aligned(r.anim, env)
    ensures r.title == d.title.(foreground := r.title.foreground)
    ensures d.events <= r.events
    decreases 0, B2I(d.anim.currentBlur.background != Wanted(env)), 3
  {
    var d1 := RaiseBlurFront(d, m, env);
    if IsApp(m) then UpdateBlurState(d1, m, env, None) else d1
  }

  /** The first half of sync_clutter_after: blur_front back on top of home_blur in a mode that blurs the buttons. */
  function RaiseBlurFront(d: Display, m: Mode, env: Env): (r: Display)
    ensures m in env.table.blurButtons ==> ParentOf(r.scene, BlurFrontActor) == HomeBlurGroup
    ensures LiftedOrSame(d.scene, r.scene)
    ensures ParentOf(d.scene, BlurFrontActor) == HomeBlurGroup || m !in env.table.blurButtons ==> r == d
    ensures r.anim == d.anim && r.title == d.title && d.events <= r.events
  {
    if m in env.table.blurButtons && ParentOf(d.scene, BlurFrontActor) != HomeBlurGroup then
      d.(scene := Reparent(d.scene, BlurFrontActor, HomeBlurGroup), events := d.events + [BlurredChanged])
    else d
  }

  /**
   * hd_render_manager_update_blur_state in mode m: BLUR_BACKGROUND follows
   * the scan's verdict (set_blur runs only when the bit changes) and the
   * title bar's FOREGROUND bit is raised when the background blurs but the
   * buttons do not; nothing else in the flags or the title bar changes.
   */
  function UpdateBlurState(d: Display, m: Mode, env: Env, ignore: Option<nat>): (r: Display)
    ensures r.title == d.title.(foreground := VerdictOf(env, ignore).blur && !VerdictOf(env, ignore).blurButtons)
    ensures r.anim.currentBlur == d.anim.currentBlur.(background := VerdictOf(env, ignore).blur)
            || (IsApp(m) && r.anim.currentBlur == d.anim.currentBlur.(background := Wanted(env)))
    ensures ignore.None? ==> r.anim.currentBlur == d.anim.currentBlur.(background := Wanted(env))
    ensures d.anim.currentBlur.background == VerdictOf(env, ignore).blur ==> r.anim == d.anim && r.scene == d.scene
    ensures LiftedOrSame(d.scene, r.scene)
    ensures ParentOf(d.scene, BlurFrontActor) == HomeBlurGroup || m !in env.table.blurButtons ==> r.scene == d.scene
    ensures Resting(d.anim) ==> Resting(r.anim)
    ensures Aligned(d.anim, env) ==> Aligned(r.anim, env)
    ensures d.events <= r.events && |r.events| > 0 && r.events[|r.events| - 1] == SyncStacking
    decreases B2I(ignore.Some?), B2I(d.anim.currentBlur.background != Wanted(env)), 2
  {
    var v := VerdictOf(env, ignore);
    var d1 := SetBackground(d, m, env, v.blur);
    d1.(title := d.title.(foreground := v.blur && !v.blurButtons), events := d1.events + [SyncStacking])
  }

  /** The flags part of update_blur_state: set_blur with BLUR_BACKGROUND set to blur, when that changes the flags. */
  function SetBackground(d: Display, m: Mode, env: Env, blur: bool): (r: Display)
    ensures r.anim.currentBlur == d.anim.currentBlur.(background := blur)
            || (IsApp(m) && r.anim.currentBlur == d.anim.currentBlur.(background := Wanted(env)))
    ensures d.anim.currentBlur.background == blur ==> r == d
    ensures LiftedOrSame(d.scene, r.scene)
    ensures ParentOf(d.scene, BlurFrontActor) == HomeBlurGroup || m !in env.table.blurButtons ==> r.scene == d.scene
    ensures Resting(d.anim) ==> Resting(r.anim)
    ensures Aligned(d.anim, env) ==> Aligned(r.anim, env)
    ensures d.events <= r.events
    decreases B2I(blur != Wanted(env)), B2I(d.anim.currentBlur.background != Wanted(env)), 1
  {
    if d.anim.currentBlur.background != blur then SetBlur(d, m, env, d.anim.currentBlur.(background := blur)) else d
  }

  /**
   * hd_render_manager_set_launcher_subview: only ZOOM_FOR_LAUNCHER_SUBMENU is
   * set or cleared (and, in an application mode, the background bit may be
   * brought up to date by the sync).
   */
  function SetLauncherSubview(rm: RM, env: Env, subview: bool): (r: RM)
    ensures r == rm.(display := r.display)
    ensures Aligned(r.display.anim, env) && Resting(r.display.anim)
    ensures r.display.anim.currentBlur.zoomLauncherSubmenu == subview
    ensures r.display.anim.currentBlur.(zoomLauncherSubmenu := rm.display.anim.currentBlur.zoomLauncherSubmenu,
                                        background := rm.display.anim.currentBlur.background) == rm.display.anim.currentBlur
    ensures !IsApp(rm.state) ==> r.display.anim.currentBlur.background == rm.display.anim.currentBlur.background
  {
    rm.(display := SetBlur(rm.display, rm.state, env, rm.display.anim.currentBlur.(zoomLauncherSubmenu := subview)))
  }

  // ---------------------------------------------------------------------------
  // The timeline callbacks

  /** A C float-to-int conversion: truncation toward zero. */
  function Trunc(x: real): (n: int)
    ensures x >= 0.0 ==> n as real <= x < n as real + 1.0
    ensures x < 0.0 ==> n as real - 1.0 < x <= n as real
  {
    if x >= 0.0 then x.Floor else -((-x).Floor)
  }

  /** on_timeline_blur_new_frame: every range moves to frame/nFrames; the navigator hides at zero opacity. */
  function OnNewFrame(rm: RM, frame: nat, nFrames: nat): (r: RM)
    requires nFrames > 0
    ensures r == rm.(display := r.display, taskNavOpacity := r.taskNavOpacity, taskNavShown := r.taskNavShown)
    ensures r.display == rm.display.(anim := r.display.anim)
    ensures TargetsOf(r.display.anim) == TargetsOf(rm.display.anim) && r.display.anim.currentBlur == rm.display.anim.currentBlur
    ensures r.display.anim.timelinePlaying == rm.display.anim.timelinePlaying
    ensures r.display.anim.effectRunning == rm.display.anim.effectRunning
    ensures frame == nFrames ==> Settled(r.display.anim)
    ensures r.taskNavShown <==> r.taskNavOpacity != 0
  {
    var an := Frame(rm.display.anim, frame as real / nFrames as real);
    var opacity := Trunc(an.taskNavOpacity.current * 255.0);
    rm.(display := rm.display.(anim := an), taskNavOpacity := opacity, taskNavShown := opacity != 0)
  }

  /** The navigator's opacity stays in 0..255 and is zero exactly below 1/255. */
  lemma OpacityRange(x: real)
    requires 0.0 <= x <= 1.0
    ensures 0 <= Trunc(x * 255.0) <= 255
    ensures Trunc(x * 255.0) == 0 <==> x * 255.0 < 1.0
  {
  }

  /** on_timeline_blur_completed: the timeline and the effect stop, the signal goes out, then the after-sync. */
  function OnCompleted(d: Display, m: Mode, env: Env): (r: Display)
    ensures d.events < r.events && r.events[|d.events|] == TransitionComplete
    ensures !IsApp(m) || d.anim.currentBlur.background == Wanted(env) ==> r.anim == Complete(d.anim)
    ensures Settled(d.anim) ==> Resting(r.anim)
    ensures Aligned(d.anim, env) ==> Aligned(r.anim, env)
    ensures LiftedOrSame(d.scene, r.scene)
  {
    var d1 := d.(anim := Complete(d.anim), events := d.events + [TransitionComplete]);
    SyncAfter(d1, m, env)
  }

  /**
   * hd_render_manager_stop_transition: a playing timeline jumps to its last
   * frame and completes; the launcher's transition is stopped either way.
   * The completion's sync may start a new timeline only to bring the
   * background bit of an application mode up to date.
   */
  function StopTransition(rm: RM, env: Env, nFrames: nat): (r: RM)
    requires nFrames > 0
    ensures r == rm.(display := r.display, taskNavOpacity := r.taskNavOpacity, taskNavShown := r.taskNavShown)
    ensures !rm.display.anim.timelinePlaying ==>
              r == rm.(display := rm.display.(events := rm.display.events + [LauncherTransitionStop]))
    ensures |r.display.events| > 0 && r.display.events[|r.display.events| - 1] == LauncherTransitionStop
    ensures rm.display.events < r.display.events
    ensures rm.display.anim.timelinePlaying ==> r.display.events[|rm.display.events|] == TransitionComplete
    ensures rm.display.anim.timelinePlaying ==> Resting(r.display.anim)
    ensures rm.display.anim.timelinePlaying && (!IsApp(rm.state) || rm.display.anim.currentBlur.background == Wanted(env)) ==>
              !r.display.anim.timelinePlaying && Settled(r.display.anim)
              && TargetsOf(r.display.anim) == TargetsOf(rm.display.anim)
    ensures Aligned(rm.display.anim, env) ==> Aligned(r.display.anim, env)
    ensures LiftedOrSame(rm.display.scene, r.display.scene)
  {
    var r1 := if rm.display.anim.timelinePlaying then FinishTimeline(rm, env, nFrames) else rm;
    r1.(display := r1.display.(events := r1.display.events + [LauncherTransitionStop]))
  }

  /** The playing branch of stop_transition: the last frame, then the completion callback. */
  function FinishTimeline(rm: RM, env: Env, nFrames: nat): (r: RM)
    requires nFrames > 0
    ensures r == rm.(display := r.display, taskNavOpacity := r.taskNavOpacity, taskNavShown := r.taskNavShown)
    ensures rm.display.events < r.display.events && r.display.events[|rm.display.events|] == TransitionComplete
    ensures Resting(r.display.anim)
    ensures !IsApp(rm.state) || rm.display.anim.currentBlur.background == Wanted(env) ==>
              !r.display.anim.timelinePlaying && Settled(r.display.anim)
              && TargetsOf(r.display.anim) == TargetsOf(rm.display.anim)
    ensures Aligned(rm.display.anim, env) ==> Aligned(r.display.anim, env)
    ensures LiftedOrSame(rm.display.scene, r.display.scene)
  {
    var framed := OnNewFrame(rm, nFrames, nFrames);
    framed.(display := OnCompleted(framed.display, rm.state, env))
  }

  // ---------------------------------------------------------------------------
  // The queued-redraw flag

  /** hd_render_manager_queue_delay_redraw: queue one stage redraw until the next paint. */
  function QueueDelayRedraw(rm: RM): (r: RM)
    ensures r.queuedRedraw
    ensures r == rm.(queuedRedraw := true, display := rm.display.(events := r.display.events))
    ensures r.display.events == rm.display.events + (if rm.queuedRedraw then [] else [RedrawQueued])
  {
    if rm.queuedRedraw then rm
    else rm.(queuedRedraw := true, display := rm.display.(events := rm.display.events + [RedrawQueued]))
  }

  /** hd_render_manager_paint_notify: a paint completed, so the next request queues again. */
  function PaintNotify(rm: RM): (r: RM)
    ensures !r.queuedRedraw && r == rm.(queuedRedraw := false)
  {
    rm.(queuedRedraw := false)
  }

  /** k redraw requests in a row. */
  function QueueTimes(rm: RM, k: nat): RM {
    if k == 0 then rm else QueueDelayRedraw(QueueTimes(rm, k - 1))
  }

  /** Between two paints any number of requests queues at most one redraw. */
  lemma {:induction false} RedrawsCoalesce(rm: RM, k: nat)
    ensures QueueTimes(rm, k).display.events == rm.display.events + (if k > 0 && !rm.queuedRedraw then [RedrawQueued] else [])
    ensures k > 0 ==> QueueTimes(rm, k).queuedRedraw
  {
    if k > 0 {
      RedrawsCoalesce(rm, k - 1);
    }
  }

  /** After a paint the next request queues a redraw again. */
  lemma PaintReopensQueue(rm: RM)
    ensures QueueDelayRedraw(PaintNotify(rm)).display.events == rm.display.events + [RedrawQueued]
  {
  }
}
