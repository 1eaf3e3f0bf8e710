/**
 * The mode state machine: hd_render_manager_set_state with its re-entrancy
 * guard, empty-switcher redirect and portrait diversion, the
 * before-transition sync it ends with, the input viewport, the title-bar
 * layout, and the restack that ties the layer passes together.
 */
module StateMachine {
  import opened Wrappers
  import opened Geometry
  import opened Modes
  import opened Blur
  import opened Scene
  import opened Wm
  import opened Restack
  import opened Visibility
  import opened Chrome
  import opened ModeLook
  import opened RenderManager

  // ---------------------------------------------------------------------------
  // Input viewport and title bar

  /** What set_input_viewport reads from the render manager. */
  function ViewportFor(rm: RM, env: Env): ViewportInput {
    ViewportInput(rm.state in env.table.needGrab, IsApp(rm.state), IsPortrait(rm.state), rm.state == App,
                  rm.display.anim.currentBlur == BlurBackgroundOnly || rm.display.anim.currentBlur == BlurHomeOnly,
                  rm.bar.buttons, rm.bar.statusAreaShown, rm.bar.statusArea, env.view.layout.width, env.view.layout.height)
  }

  /**
   * hd_render_manager_set_input_viewport: a grabbing mode takes the whole
   * screen; in APP itself a shown status area takes input only under a
   * dialog's blur, which is recognised by comparing the flags for equality.
   */
  function SetInputViewport(rm: RM, env: Env): (r: RM)
    requires Wf(rm)
    ensures r == rm.(viewport := r.viewport) && Wf(r)
    ensures rm.state in env.table.needGrab ==>
              r.viewport == [ScreenArea(Rect(0, 0, env.view.layout.width, env.view.layout.height))]
    ensures rm.state !in env.table.needGrab && rm.state == App && rm.bar.statusAreaShown == Some(true) ==>
              ((exists e :: e in r.viewport && e.StatusAreaArea?) <==>
                 rm.display.anim.currentBlur == BlurBackgroundOnly || rm.display.anim.currentBlur == BlurHomeOnly)
    ensures rm.state !in env.table.needGrab && IsPortrait(rm.state) ==>
              ((exists e :: e in r.viewport && e.StatusAreaArea?) <==> rm.bar.statusAreaShown == Some(true))
    ensures IsApp(rm.state) ==> forall e :: e in r.viewport ==> !(e.ButtonArea? && e.button == BackButton)
  {
    rm.(viewport := InputViewport(ViewportFor(rm, env)))
  }

  /** A registered button that is shown. */
  predicate ButtonShown(b: Option<ButtonActor>) { b.Some? && b.value.visible }

  /** The same slot holds the same actor, or is empty in both, up to the actor's visibility. */
  predicate SameActor(x: Option<ButtonActor>, y: Option<ButtonActor>) {
    x.Some? == y.Some? && (x.Some? ==> x.value.(visible := y.value.visible) == y.value)
  }

  /** The same button actors registered, differing at most in which are visible. */
  predicate SameButtons(x: Buttons, y: Buttons) {
    && SameActor(x.taskNav, y.taskNav) && SameActor(x.launcher, y.launcher) && SameActor(x.back, y.back)
    && x.edit.(visible := y.edit.visible) == y.edit
  }

  /** A registered actor shown or hidden; an empty slot stays empty. */
  function WithVisible(a: Option<ButtonActor>, v: bool): (r: Option<ButtonActor>)
    ensures SameActor(r, a) && (ButtonShown(r) <==> a.Some? && v)
  {
    if a.Some? then Some(a.value.(visible := v)) else None
  }

  /**
   * The title bar shows the top buttons of look and nothing else of them,
   * and the edit button is hidden outside HOME.
   */
  predicate ShowsButtons(bs: Buttons, m: Mode, look: Look) {
    && (ButtonShown(bs.taskNav) <==> bs.taskNav.Some? && look.left == TaskNavButton)
    && (ButtonShown(bs.launcher) <==> bs.launcher.Some? && look.left == LauncherButton)
    && (ButtonShown(bs.back) <==> bs.back.Some? && look.right == BackButton)
    && (m != Home ==> !bs.edit.visible)
  }

  /** The registered button that the left button of a look names. */
  predicate TopLeftRegistered(bs: Buttons, left: ButtonId) {
    (left == TaskNavButton && bs.taskNav.Some?) || (left == LauncherButton && bs.launcher.Some?)
  }

  /**
   * hd_title_bar_set_state with the HDTB_VIS_BTN_* bits sync_clutter_before
   * picks from the look (HDTB_VIS_BTN_SWITCHER for the task navigator,
   * HDTB_VIS_BTN_LAUNCHER and HDTB_VIS_BTN_BACK). hd-title-bar.c is not part
   * of this model: the title bar, which owns these three button actors, is
   * taken to show exactly those whose bit is set and to hide the others; it
   * does not touch the edit button.
   */
  function TitleBarButtons(bs: Buttons, look: Look): (r: Buttons)
    ensures SameButtons(r, bs) && r.edit == bs.edit
    ensures ButtonShown(r.taskNav) <==> bs.taskNav.Some? && look.left == TaskNavButton
    ensures ButtonShown(r.launcher) <==> bs.launcher.Some? && look.left == LauncherButton
    ensures ButtonShown(r.back) <==> bs.back.Some? && look.right == BackButton
  {
    bs.(taskNav := WithVisible(bs.taskNav, look.left == TaskNavButton),
        launcher := WithVisible(bs.launcher, look.left == LauncherButton),
        back := WithVisible(bs.back, look.right == BackButton))
  }

  /**
   * hd_home_hide_edit_button outside HOME. hd-home.c is not part of this
   * model; the call is taken to hide the edit button through
   * hd_render_manager_set_visible, the only route to it.
   */
  function HideEditOutsideHome(bs: Buttons, m: Mode): (r: Buttons)
    ensures SameButtons(r, bs) && r.(edit := bs.edit) == bs
    ensures r.edit.visible <==> bs.edit.visible && m == Home
  {
    if m != Home then SetVisible(bs, EditButton, false).0 else bs
  }

  /** What place_titlebar_elements reads from the title-bar side. */
  function TitleInputOf(b: Bar, appMode: bool, env: Env): TitleInput {
    TitleInput(ButtonShown(b.buttons.taskNav), ButtonShown(b.buttons.launcher),
               b.statusAreaShown, b.statusArea, Some(b.operatorShown), appMode,
               env.topLeftWidth, env.operatorPadding)
  }

  /**
   * hd_render_manager_place_titlebar_elements: the status area after the
   * top-left button, the operator logo and the dialog title after it. An
   * element that is not placed keeps its previous x.
   */
  function PlaceTitlebarElements(b: Bar, appMode: bool, env: Env): (r: Bar)
    requires BarWf(b)
    ensures BarWf(r)
    ensures r == b.(statusArea := r.statusArea, operatorX := r.operatorX, titleX := r.titleX)
    ensures b.statusAreaShown == Some(true) ==> r.statusArea.value.frame.x == Start(TitleInputOf(b, appMode, env))
    ensures b.statusAreaShown != Some(true) ==> r.statusArea == b.statusArea
    ensures r.operatorX == if b.operatorShown then Some(NextX(TitleInputOf(b, appMode, env)) + env.operatorPadding) else b.operatorX
    ensures r.titleX == if appMode then Some(NextX(TitleInputOf(b, appMode, env))) else b.titleX
    ensures b.operatorShown && appMode ==>
              r.operatorX.Some? && r.titleX.Some? && r.operatorX.value == r.titleX.value + env.operatorPadding
  {
    var p := PlaceTitlebar(TitleInputOf(b, appMode, env));
    b.(statusArea := p.statusArea,
       operatorX := if p.operatorX.Some? then p.operatorX else b.operatorX,
       titleX := if p.titleX.Some? then p.titleX else b.titleX)
  }

  // ---------------------------------------------------------------------------
  // sync_clutter_before

  /** The per-mode switch of sync_clutter_before: the home view shown or hidden, then set_blur. */
  function ApplyLook(d: Display, m: Mode, env: Env, look: Look): (r: Display)
    requires Valid(d.scene)
    ensures Valid(r.scene)
    ensures HomeActor in r.scene.visible <==> look.showHome
    ensures !IsApp(m) ==> r.anim.currentBlur == look.blur
    ensures r.anim.currentBlur.(background := look.blur.background) == look.blur
    ensures Aligned(r.anim, env) && Resting(r.anim)
    ensures d.events <= r.events
    ensures ParentOf(r.scene, HomeFrontActor) == ParentOf(d.scene, HomeFrontActor)
    ensures HomeFrontActor in r.scene.visible <==> HomeFrontActor in d.scene.visible
    ensures r.scene.homeBlurShown == d.scene.homeBlurShown
  {
    var sc := if look.showHome then Show(d.scene, HomeActor) else Hide(d.scene, HomeActor);
    var r := SetBlur(d.(scene := sc), m, env, look.blur);
    LiftedKeeps(sc, r.scene, HomeActor);
    LiftedKeeps(sc, r.scene, HomeFrontActor);
    r
  }

  /**
   * The layer groups shown and blur_front taken out of home_blur when the
   * mode does not blur the buttons; the title bar gets the mode's buttons.
   */
  function ShowGroups(d: Display, m: Mode, env: Env, btn: TitleState, look: Look): (r: Display)
    requires Valid(d.scene)
    ensures Valid(r.scene)
    ensures r.anim == d.anim && d.events <= r.events
    ensures r.title == btn.(left := look.left, right := look.right)
    ensures r.scene.homeBlurShown
    ensures m !in env.table.blurButtons ==> ParentOf(r.scene, BlurFrontActor) == TopGroup
    ensures m in env.table.blurButtons ==> r.scene == d.scene.(homeBlurShown := true)
    ensures forall a :: a != BlurFrontActor ==>
              ParentOf(r.scene, a) == ParentOf(d.scene, a) && (a in r.scene.visible <==> a in d.scene.visible)
  {
    var sc := d.scene.(homeBlurShown := true);
    var title := btn.(left := look.left, right := look.right);
    if m !in env.table.blurButtons && ParentOf(sc, BlurFrontActor) != TopGroup then
      Display(d.anim, Reparent(sc, BlurFrontActor, TopGroup), title, d.events + [BlurredChanged])
    else d.(scene := sc, title := title)
  }

  /**
   * What sync_clutter_before sets on the title-bar side before placing the
   * elements: the operator logo and the status area shown per mode (a
   * missing status area stays missing) and the look's buttons.
   */
  function ShowBarElements(b: Bar, m: Mode, env: Env, look: Look): (r: Bar)
    requires BarWf(b)
    ensures BarWf(r)
    ensures SameButtons(r.buttons, b.buttons) && r.buttons.edit == b.buttons.edit
    ensures ShowsButtons(r.buttons, Home, look)
    ensures r.operatorShown <==> m in env.table.showOperator
    ensures r.statusAreaShown.Some? <==> b.statusAreaShown.Some?
    ensures r.statusAreaShown.Some? ==> (r.statusAreaShown.value <==> m in env.table.showStatusArea)
    ensures r.statusArea == b.statusArea && r.leftPressed == b.leftPressed
    ensures Start(TitleInputOf(r, IsApp(m), env)) == (if TopLeftRegistered(b.buttons, look.left) then env.topLeftWidth else 0)
  {
    b.(operatorShown := m in env.table.showOperator,
       statusAreaShown := if b.statusAreaShown.Some? then Some(m in env.table.showStatusArea) else None,
       buttons := TitleBarButtons(b.buttons, look))
  }

  /**
   * The title-bar half of sync_clutter_before: the elements shown per mode,
   * then placed from the buttons now shown, the edit button hidden outside
   * HOME, and the left button released.
   */
  function SyncBar(b: Bar, m: Mode, env: Env, look: Look): (r: Bar)
    requires BarWf(b)
    ensures BarWf(r)
    ensures SameButtons(r.buttons, b.buttons) && ShowsButtons(r.buttons, m, look) && !r.leftPressed
    ensures r.buttons.edit.visible <==> b.buttons.edit.visible && m == Home
    ensures r.operatorShown <==> m in env.table.showOperator
    ensures r.statusAreaShown.Some? <==> b.statusAreaShown.Some?
    ensures r.statusAreaShown.Some? ==> (r.statusAreaShown.value <==> m in env.table.showStatusArea)
    ensures r.statusAreaShown == Some(true) ==>
              r.statusArea.value.frame.x == (if TopLeftRegistered(b.buttons, look.left) then env.topLeftWidth else 0)
    ensures m in env.table.showOperator && IsApp(m) ==>
              r.operatorX.Some? && r.titleX.Some? && r.operatorX.value == r.titleX.value + env.operatorPadding
  {
    var b1 := ShowBarElements(b, m, env, look);
    var b2 := PlaceTitlebarElements(b1, IsApp(m), env);
    b2.(buttons := HideEditOutsideHome(b2.buttons, m), leftPressed := false)
  }

  /**
   * The display shows the look of mode m: its buttons on a title bar whose
   * foreground bit is fg, the home view as the look says, and its blur
   * flags, with the background bit added in an application mode when the
   * window stack asks for it.
   */
  predicate ShowsLook(d: Display, m: Mode, look: Look, fg: bool) {
    && d.title == TitleState(look.left, look.right, false, fg)
    && (HomeActor in d.scene.visible <==> look.showHome)
    && (!IsApp(m) ==> d.anim.currentBlur == look.blur)
    && d.anim.currentBlur.(background := false) == look.blur
  }

  /** The display half of sync_clutter_before. */
  function SyncDisplay(d: Display, m: Mode, env: Env, look: Look): (r: Display)
    requires Valid(d.scene)
    ensures Valid(r.scene)
    ensures r.title == TitleState(look.left, look.right, false, d.title.foreground)
    ensures HomeActor in r.scene.visible <==> look.showHome
    ensures !IsApp(m) ==> r.anim.currentBlur == look.blur
    ensures r.anim.currentBlur.(background := look.blur.background) == look.blur
    ensures Aligned(r.anim, env) && Resting(r.anim)
    ensures r.scene.homeBlurShown
    ensures m !in env.table.blurButtons ==> ParentOf(r.scene, BlurFrontActor) == TopGroup
    ensures ParentOf(r.scene, HomeFrontActor) == ParentOf(d.scene, HomeFrontActor)
    ensures HomeFrontActor in r.scene.visible <==> HomeFrontActor in d.scene.visible
    ensures d.events <= r.events
  {
    var btn := TitleState(NoButton, NoButton, false, d.title.foreground);
    var d1 := ApplyLook(d, m, env, look);
    ShowGroups(d1, m, env, btn, look)
  }

  /** The display side of sync_clutter_before in mode m entered from previous, ending with the edit button hidden outside HOME. */
  function BeforeDisplay(d: Display, m: Mode, previous: Mode, env: Env): (r: Display)
    requires Valid(d.scene) && m != Undefined
    ensures Valid(r.scene)
    ensures ShowsLook(r, m, LookOf(m, env.taskNavEmpty, previous), d.title.foreground)
    ensures HomeActor in r.scene.visible <==> !IsApp(m)
    ensures r.title.right == BackButton <==> m == Launcher
    ensures Aligned(r.anim, env) && Resting(r.anim)
    ensures r.scene.homeBlurShown
    ensures m !in env.table.blurButtons ==> ParentOf(r.scene, BlurFrontActor) == TopGroup
    ensures ParentOf(r.scene, HomeFrontActor) == ParentOf(d.scene, HomeFrontActor)
    ensures HomeFrontActor in r.scene.visible <==> HomeFrontActor in d.scene.visible
    ensures d.events <= r.events
    ensures m != Home ==> |r.events| > 0 && r.events[|r.events| - 1] == EditButtonHidden
  {
    var look := LookOf(m, env.taskNavEmpty, previous);
    var d1 := SyncDisplay(d, m, env, look);
    var hid := if m != Home then [EditButtonHidden] else [];
    d1.(events := d1.events + hid)
  }

  /** sync_clutter_before up to the input viewport. */
  function SyncChrome(rm: RM, env: Env): (r: RM)
    requires Wf(rm) && rm.state != Undefined
    ensures Wf(r)
    ensures r.state == rm.state && r.previous == rm.previous && r.inSetState == rm.inSetState
    ensures r.queuedRedraw == rm.queuedRedraw
    ensures ShowsLook(r.display, rm.state, LookOf(rm.state, env.taskNavEmpty, rm.previous), rm.display.title.foreground)
    ensures HomeActor in r.display.scene.visible <==> !IsApp(rm.state)
    ensures r.display.title.right == BackButton <==> rm.state == Launcher
    ensures Aligned(r.display.anim, env) && Resting(r.display.anim)
    ensures r.display.scene.homeBlurShown
    ensures rm.state !in env.table.blurButtons ==> ParentOf(r.display.scene, BlurFrontActor) == TopGroup
    ensures ParentOf(r.display.scene, HomeFrontActor) == ParentOf(rm.display.scene, HomeFrontActor)
    ensures HomeFrontActor in r.display.scene.visible <==> HomeFrontActor in rm.display.scene.visible
    ensures rm.display.events <= r.display.events
    ensures rm.state != Home ==> |r.display.events| > 0 && r.display.events[|r.display.events| - 1] == EditButtonHidden
    ensures SameButtons(r.bar.buttons, rm.bar.buttons) && !r.bar.leftPressed
    ensures ShowsButtons(r.bar.buttons, rm.state, LookOf(rm.state, env.taskNavEmpty, rm.previous))
    ensures r.bar.buttons.edit.visible <==> rm.bar.buttons.edit.visible && rm.state == Home
    ensures r.bar.statusAreaShown == Some(true) ==>
              r.bar.statusArea.value.frame.x
                == (if TopLeftRegistered(rm.bar.buttons, LookOf(rm.state, env.taskNavEmpty, rm.previous).left)
                    then env.topLeftWidth else 0)
    ensures r.bar.operatorShown <==> rm.state in env.table.showOperator
    ensures r.bar.statusAreaShown.Some? <==> rm.bar.statusAreaShown.Some?
    ensures r.bar.statusAreaShown.Some? ==> (r.bar.statusAreaShown.value <==> rm.state in env.table.showStatusArea)
    ensures r.viewport == rm.viewport
  {
    rm.(display := BeforeDisplay(rm.display, rm.state, rm.previous, env),
        bar := SyncBar(rm.bar, rm.state, env, LookOf(rm.state, env.taskNavEmpty, rm.previous)))
  }

  /**
   * hd_render_manager_sync_clutter_before: the title bar's button bits are
   * taken (with the left, right and full-width bits cleared) before set_blur
   * runs and written back after it, so a FOREGROUND change made by the
   * blur routines in between is undone.
   */
  function SyncBefore(rm: RM, env: Env): (r: RM)
    requires Wf(rm) && rm.state != Undefined
    ensures Wf(r)
    ensures r.state == rm.state && r.previous == rm.previous && r.inSetState == rm.inSetState
    ensures r.queuedRedraw == rm.queuedRedraw
    ensures ShowsLook(r.display, rm.state, LookOf(rm.state, env.taskNavEmpty, rm.previous), rm.display.title.foreground)
    ensures HomeActor in r.display.scene.visible <==> !IsApp(rm.state)
    ensures r.display.title.right == BackButton <==> rm.state == Launcher
    ensures Aligned(r.display.anim, env) && Resting(r.display.anim)
    ensures r.display.scene.homeBlurShown
    ensures rm.state !in env.table.blurButtons ==> ParentOf(r.display.scene, BlurFrontActor) == TopGroup
    ensures ParentOf(r.display.scene, HomeFrontActor) == ParentOf(rm.display.scene, HomeFrontActor)
    ensures HomeFrontActor in r.display.scene.visible <==> HomeFrontActor in rm.display.scene.visible
    ensures rm.display.events <= r.display.events
    ensures rm.state != Home ==> |r.display.events| > 0 && r.display.events[|r.display.events| - 1] == EditButtonHidden
    ensures SameButtons(r.bar.buttons, rm.bar.buttons) && !r.bar.leftPressed
    ensures ShowsButtons(r.bar.buttons, rm.state, LookOf(rm.state, env.taskNavEmpty, rm.previous))
    ensures r.bar.buttons.edit.visible <==> rm.bar.buttons.edit.visible && rm.state == Home
    ensures r.bar.statusAreaShown == Some(true) ==>
              r.bar.statusArea.value.frame.x
                == (if TopLeftRegistered(rm.bar.buttons, LookOf(rm.state, env.taskNavEmpty, rm.previous).left)
                    then env.topLeftWidth else 0)
    ensures r.bar.operatorShown <==> rm.state in env.table.showOperator
    ensures r.bar.statusAreaShown.Some? <==> rm.bar.statusAreaShown.Some?
    ensures r.bar.statusAreaShown.Some? ==> (r.bar.statusAreaShown.value <==> rm.state in env.table.showStatusArea)
    ensures rm.state in env.table.needGrab ==>
              r.viewport == [ScreenArea(Rect(0, 0, env.view.layout.width, env.view.layout.height))]
  {
    SetInputViewport(SyncChrome(rm, env), env)
  }

  /**
   * Outside a grab, the back button takes input after the sync exactly in
   * the launcher, when it is registered, reactive and in a shown parent:
   * the title bar has just been told to show it there and to hide it
   * everywhere else, whatever its visibility was before.
   */
  lemma BackButtonOnlyInLauncher(rm: RM, env: Env)
    requires Wf(rm) && rm.state != Undefined && rm.state !in env.table.needGrab
    ensures var r := SyncBefore(rm, env);
            var back := rm.bar.buttons.back;
            (exists e :: e in r.viewport && e.ButtonArea? && e.button == BackButton) <==>
              rm.state == Launcher && back.Some? && back.value.parentVisible && back.value.reactive
    ensures var r := SyncBefore(rm, env);
            var back := rm.bar.buttons.back;
            rm.state == Launcher && back.Some? && back.value.parentVisible && back.value.reactive ==>
              ButtonArea(BackButton, back.value.geometry) in r.viewport
  {
    var r1 := SyncChrome(rm, env);
    var back := rm.bar.buttons.back;
    assert LookOf(rm.state, env.taskNavEmpty, rm.previous).right == BackButton <==> rm.state == Launcher;
    assert SameActor(r1.bar.buttons.back, back);
    BackButtonArea(r1, env);
  }

  /** Outside a grab, the back button has an area in the viewport exactly when it takes input. */
  lemma BackButtonArea(rm: RM, env: Env)
    requires Wf(rm) && rm.state !in env.table.needGrab
    ensures var back := rm.bar.buttons.back;
            var vp := SetInputViewport(rm, env).viewport;
            && ((exists e :: e in vp && e.ButtonArea? && e.button == BackButton) <==>
                  ButtonShown(back) && back.value.parentVisible && back.value.reactive && !IsApp(rm.state))
            && (ButtonShown(back) && back.value.parentVisible && back.value.reactive && !IsApp(rm.state) ==>
                  ButtonArea(BackButton, back.value.geometry) in vp)
  {
    var inp := ViewportFor(rm, env);
    assert Included(inp, BackButton) <==>
             ButtonShown(rm.bar.buttons.back) && rm.bar.buttons.back.value.parentVisible
             && rm.bar.buttons.back.value.reactive && !IsApp(rm.state);
  }

  /**
   * A shown status area is placed right after the top-left button the mode
   * asks the title bar for when that button is registered, and at the left
   * edge otherwise, whatever the buttons showed before.
   */
  lemma StatusAreaAfterTopLeft(rm: RM, env: Env)
    requires Wf(rm) && rm.state != Undefined
    requires rm.bar.statusAreaShown.Some? && rm.state in env.table.showStatusArea
    ensures var r := SyncBefore(rm, env);
            var look := LookOf(rm.state, env.taskNavEmpty, rm.previous);
            && r.bar.statusAreaShown == Some(true)
            && r.bar.statusArea.value.frame.x == (if TopLeftRegistered(rm.bar.buttons, look.left) then env.topLeftWidth else 0)
            && (rm.state == Home && rm.bar.buttons.taskNav.Some? && rm.bar.buttons.launcher.Some? ==>
                  r.bar.statusArea.value.frame.x == env.topLeftWidth)
            && (IsPortrait(rm.state) || rm.state == Launcher ==> r.bar.statusArea.value.frame.x == 0)
  {
  }

  // ---------------------------------------------------------------------------
  // set_state

  /** A TASK_NAV request with an empty switcher means HOME. */
  function Redirected(req: Mode, env: Env): (s: Mode)
    ensures s == TaskNav ==> !env.taskNavEmpty
    ensures s != req ==> req == TaskNav && s == Home
  {
    if req == TaskNav && env.taskNavEmpty then Home else req
  }

  /** A landscape APP or HOME entered from outside its portrait sibling is diverted when the screen should be portrait. */
  predicate Diverts(prev: Mode, s: Mode, env: Env) {
    ((prev != AppPortrait && s == App) || (prev != HomePortrait && s == Home)) && env.shouldBePortrait
  }

  /** The mode a processed request ends in. */
  function Outcome(prev: Mode, req: Mode, env: Env): Mode {
    var s := Redirected(req, env);
    if Diverts(prev, s, env) then PortraitSibling(s) else s
  }

  /** Entering a switcher mode from an application whose window the switcher holds zooms out of it. */
  predicate ZoomsOut(prev: Mode, s: Mode, env: Env) {
    s in env.table.needTaskNav && IsApp(prev) && env.zoomOutTarget
  }

  /** The switcher call set_state makes on entering a switcher mode from prev. */
  function NavEvents(prev: Mode, s: Mode, env: Env): (e: seq<Event>)
    ensures |e| <= 1
    ensures ZoomOut in e <==> s in env.table.needTaskNav && IsApp(prev) && env.zoomOutTarget
    ensures ScrollBack in e <==> s in env.table.needTaskNav && !IsApp(prev) && prev != Launcher
  {
    if s !in env.table.needTaskNav then []
    else if IsApp(prev) then (if env.zoomOutTarget then [ZoomOut] else [])
    else if prev != Launcher then [ScrollBack]
    else []
  }

  /**
   * The task-switcher part of set_state: zoom out of the application, first
   * making the switcher fully opaque, or scroll the switcher back unless the
   * launcher was showing.
   */
  function EnterTaskNav(rm: RM, env: Env, prev: Mode, s: Mode): (r: RM)
    ensures r == rm.(display := r.display, taskNavOpacity := r.taskNavOpacity)
    ensures r.display == rm.display.(anim := r.display.anim, events := rm.display.events + NavEvents(prev, s, env))
    ensures ZoomsOut(prev, s, env) ==>
              r.taskNavOpacity == 255 && r.display.anim == rm.display.anim.(taskNavOpacity := RangeSet(1.0))
    ensures !ZoomsOut(prev, s, env) ==> r.taskNavOpacity == rm.taskNavOpacity && r.display.anim == rm.display.anim
    ensures Resting(rm.display.anim) ==> Resting(r.display.anim)
  {
    if ZoomsOut(prev, s, env) then
      var an := rm.display.anim.(taskNavOpacity := RangeSet(1.0));
      rm.(display := rm.display.(anim := an, events := rm.display.events + [ZoomOut]), taskNavOpacity := 255)
    else rm.(display := rm.display.(events := rm.display.events + NavEvents(prev, s, env)))
  }

  /**
   * The opacity written on a zoom-out agrees with the switcher's range: any
   * frame that follows keeps the switcher fully opaque and shown.
   */
  lemma ZoomOutStaysOpaque(rm: RM, env: Env, prev: Mode, s: Mode, frame: nat, nFrames: nat)
    requires ZoomsOut(prev, s, env) && nFrames > 0
    ensures var r := EnterTaskNav(rm, env, prev, s);
            && r.taskNavOpacity == 255
            && OnNewFrame(r, frame, nFrames).taskNavOpacity == 255
            && OnNewFrame(r, frame, nFrames).taskNavShown
  {
    var r := EnterTaskNav(rm, env, prev, s);
    var amt := frame as real / nFrames as real;
    assert Interpolate(RangeSet(1.0), amt).current == 1.0;
    assert Frame(r.display.anim, amt).taskNavOpacity.current == 1.0;
  }

  /** The calls set_state makes to other components on a mode change from prev to s. */
  function ChangeEvents(prev: Mode, s: Mode, env: Env): (e: seq<Event>)
    ensures LauncherShown in e <==> s == Launcher
    ensures LauncherHidden in e <==> prev == Launcher
    ensures SwitcherPulseOff in e <==> s == TaskNav || prev == TaskNav
    ensures CurrentAppReset in e <==> (s == TaskNav || s == Launcher) && prev != TaskNav && prev != Launcher
  {
    (if s == TaskNav || prev == TaskNav then [SwitcherPulseOff] else [])
    + (if s == Launcher then [LauncherShown] else [])
    + (if prev == Launcher then [LauncherHidden] else [])
    + (if (s == TaskNav || s == Launcher) && !(prev == TaskNav || prev == Launcher) then [CurrentAppReset] else [])
  }

  /** The applets group sits in front of the blur in the modes that want it there and is shown exactly where the mode shows applets. */
  predicate AppletsPlaced(sc: Scene, m: Mode, env: Env) {
    && ParentOf(sc, HomeFrontActor) == AppletsParent(m, env)
    && (HomeFrontActor in sc.visible <==> m in env.table.showApplets)
  }

  /** In front of the blur in the home-front modes, in the home view otherwise. */
  function AppletsParent(m: Mode, env: Env): Parent {
    if m in env.table.homeFront then BlurFrontGroup else HomeGroup
  }

  /** The blurred_changed call made when the applets group has to change parent. */
  function AppletsEvents(sc: Scene, m: Mode, env: Env): seq<Event> {
    if ParentOf(sc, HomeFrontActor) != AppletsParent(m, env) then [BlurredChanged] else []
  }

  /** The window manager is told to show or leave the desktop exactly when the two modes disagree on needing it. */
  function DesktopEvents(prev: Mode, s: Mode, env: Env): (e: seq<Event>)
    ensures (exists b :: ShowDesktop(b) in e) <==> ((s in env.table.needDesktop) != (prev in env.table.needDesktop))
    ensures forall b :: ShowDesktop(b) in e ==> (b <==> s in env.table.needDesktop)
  {
    if (s in env.table.needDesktop) != (prev in env.table.needDesktop) then [ShowDesktop(s in env.table.needDesktop)] else []
  }

  /** The applets group moves in front of the blur in the modes that want it there, then is shown or hidden. */
  function PlaceApplets(rm: RM, env: Env, s: Mode): (r: RM)
    requires Wf(rm)
    ensures Wf(r) && r == rm.(display := r.display)
    ensures r.display.anim == rm.display.anim && r.display.title == rm.display.title
    ensures AppletsPlaced(r.display.scene, s, env)
    ensures r.display.events == rm.display.events + AppletsEvents(rm.display.scene, s, env)
  {
    var sc := rm.display.scene;
    var target := AppletsParent(s, env);
    var d :=
      if ParentOf(sc, HomeFrontActor) != target then
        rm.display.(scene := Reparent(sc, HomeFrontActor, target), events := rm.display.events + [BlurredChanged])
      else rm.display;
    var sc2 := if s in env.table.showApplets then Show(d.scene, HomeFrontActor) else Hide(d.scene, HomeFrontActor);
    rm.(display := d.(scene := sc2))
  }

  /**
   * The part of set_state before the portrait check: the mode is recorded,
   * the redirect applied, and the switcher, launcher, applets and desktop
   * told about the change.
   */
  function Prepare(rm: RM, env: Env, req: Mode): (r: RM)
    requires Wf(rm) && req != Undefined
    ensures Wf(r)
    ensures r.state == Redirected(req, env) && r.previous == rm.state && r.inSetState
    ensures r.bar.buttons == rm.bar.buttons && r.queuedRedraw == rm.queuedRedraw
    ensures AppletsPlaced(r.display.scene, r.state, env)
    ensures Resting(rm.display.anim) ==> Resting(r.display.anim)
    ensures var s := Redirected(req, env);
            r.display.events == rm.display.events + NavEvents(rm.state, s, env) + ChangeEvents(rm.state, s, env)
                                + AppletsEvents(rm.display.scene, s, env) + DesktopEvents(rm.state, s, env)
    ensures ZoomsOut(rm.state, Redirected(req, env), env) ==>
              r.taskNavOpacity == 255 && r.display.anim.taskNavOpacity == RangeSet(1.0)
  {
    var prev := rm.state;
    var s := Redirected(req, env);
    var rm1 := rm.(previous := prev, state := s, inSetState := true);
    var rm2 := EnterTaskNav(rm1, env, prev, s);
    var rm3 := rm2.(display := rm2.display.(events := rm2.display.events + ChangeEvents(prev, s, env)));
    var rm4 := PlaceApplets(rm3, env, s);
    rm4.(display := rm4.display.(events := rm4.display.events + DesktopEvents(prev, s, env)))
  }

  /**
   * What holds once a mode has been entered: the flag is down, the home view
   * is shown exactly outside the application modes, the back button is up
   * exactly in the launcher, the applets are where and as visible as the
   * mode wants, the blur is settled on its targets, and the last thing
   * emitted is the state notification.
   */
  predicate Entered(r: RM, env: Env) {
    && r.state != Undefined && !r.inSetState
    && (HomeActor in r.display.scene.visible <==> !IsApp(r.state))
    && (r.display.title.right == BackButton <==> r.state == Launcher)
    && ShowsButtons(r.bar.buttons, r.state, LookOf(r.state, env.taskNavEmpty, r.previous))
    && AppletsPlaced(r.display.scene, r.state, env)
    && Aligned(r.display.anim, env) && Resting(r.display.anim)
    && |r.display.events| > 0 && r.display.events[|r.display.events| - 1] == StateNotify
  }

  /** The screen turns when exactly one of the two modes is a portrait one; then the state change is announced. */
  function Announce(d: Display, prev: Mode, s: Mode): (r: Display)
    ensures r == d.(events := r.events) && d.events <= r.events
    ensures |r.events| > 0 && r.events[|r.events| - 1] == StateNotify
    ensures IsPortrait(prev) == IsPortrait(s) ==> |r.events| == |d.events| + 1
    ensures IsPortrait(prev) != IsPortrait(s) ==>
              |r.events| == |d.events| + 2 && r.events[|r.events| - 2] == Orientation(IsPortrait(s))
  {
    var turn := if IsPortrait(prev) == IsPortrait(s) then [] else [Orientation(IsPortrait(s))];
    d.(events := d.events + turn + [StateNotify])
  }

  /** The end of set_state without a diversion: the sync, the orientation change from prev, and the notification. */
  function Settle(rm: RM, env: Env, prev: Mode): (r: RM)
    requires Wf(rm) && rm.state != Undefined
    requires AppletsPlaced(rm.display.scene, rm.state, env)
    ensures Wf(r) && Entered(r, env)
    ensures r.state == rm.state && r.previous == rm.previous
    ensures SameButtons(r.bar.buttons, rm.bar.buttons) && r.queuedRedraw == rm.queuedRedraw
    ensures rm.display.events <= r.display.events
    ensures IsPortrait(prev) != IsPortrait(rm.state) ==>
              |r.display.events| >= 2 && r.display.events[|r.display.events| - 2] == Orientation(IsPortrait(rm.state))
  {
    var rm1 := SyncBefore(rm, env);
    rm1.(inSetState := false, display := Announce(rm1.display, prev, rm.state))
  }

  /**
   * hd_render_manager_set_state. Without a compositor, during another
   * set_state, or for the current mode, nothing changes. Otherwise the mode
   * becomes the request (HOME for an empty switcher), or its portrait sibling
   * through a nested call that records the landscape mode as the previous
   * one; the sync, orientation change and notification follow, and the
   * re-entrancy flag is down again on every return path.
   */
  function SetState(rm: RM, env: Env, req: Mode): (r: RM)
    requires Wf(rm) && req != Undefined
    ensures Wf(r)
    ensures !env.view.compMgr || rm.inSetState || req == rm.state ==> r == rm
    ensures !rm.inSetState ==> !r.inSetState
    ensures env.view.compMgr && !rm.inSetState && req != rm.state ==>
              && r.state == Outcome(rm.state, req, env)
              && r.previous == (if Diverts(rm.state, Redirected(req, env), env) then Redirected(req, env) else rm.state)
              && Entered(r, env)
    ensures SameButtons(r.bar.buttons, rm.bar.buttons) && r.queuedRedraw == rm.queuedRedraw
    decreases if req == App || req == Home || req == TaskNav then 1 else 0, 2
  {
    if !env.view.compMgr || rm.inSetState || req == rm.state then rm else Process(rm, env, req)
  }

  /** A change set_state goes through with: the preparation, then the diversion or the sync and announcement. */
  function Process(rm: RM, env: Env, req: Mode): (r: RM)
    requires Wf(rm) && req != Undefined && env.view.compMgr
    ensures Wf(r) && Entered(r, env)
    ensures r.state == Outcome(rm.state, req, env)
    ensures r.previous == (if Diverts(rm.state, Redirected(req, env), env) then Redirected(req, env) else rm.state)
    ensures SameButtons(r.bar.buttons, rm.bar.buttons) && r.queuedRedraw == rm.queuedRedraw
    decreases if req == App || req == Home || req == TaskNav then 1 else 0, 1
  {
    var rm1 := Prepare(rm, env, req);
    var s := Redirected(req, env);
    assert rm1.state == s;
    if Diverts(rm.state, s, env) then Divert(rm1, env) else Settle(rm1, env, rm.state)
  }

  /**
   * The diversion: the flag is dropped and set_state is called again for the
   * portrait sibling, which is entered from the landscape mode just
   * recorded.
   */
  function Divert(rm: RM, env: Env): (r: RM)
    requires Wf(rm) && env.view.compMgr && (rm.state == App || rm.state == Home)
    ensures Wf(r) && Entered(r, env)
    ensures r.state == PortraitSibling(rm.state) && r.previous == rm.state
    ensures SameButtons(r.bar.buttons, rm.bar.buttons) && r.queuedRedraw == rm.queuedRedraw
    decreases 1, 0
  {
    SetState(rm.(inSetState := false), env, PortraitSibling(rm.state))
  }

  /** hd_render_manager_set_state_portrait: a portrait-capable mode moves to its portrait sibling. */
  function SetStatePortrait(rm: RM, env: Env): (r: RM)
    requires Wf(rm) && rm.state in env.table.portraitCapable
    ensures Wf(r)
    ensures env.view.compMgr && !rm.inSetState && !IsPortrait(rm.state) ==>
              IsPortrait(r.state) && r.previous == rm.state && (IsApp(r.state) <==> rm.state == App)
  {
    var req := if rm.state == App then AppPortrait else HomePortrait;
    assert Redirected(req, env) == req && !Diverts(rm.state, req, env);
    SetState(rm, env, req)
  }

  /**
   * hd_render_manager_set_state_unportrait: a portrait mode returns to its
   * landscape sibling, which is not diverted back, because the old mode is
   * that sibling's portrait mode.
   */
  function SetStateUnportrait(rm: RM, env: Env): (r: RM)
    requires Wf(rm) && IsPortrait(rm.state)
    ensures Wf(r)
    ensures env.view.compMgr && !rm.inSetState ==>
              !IsPortrait(r.state) && r.previous == rm.state && (IsApp(r.state) <==> IsApp(rm.state))
              && r.state == (if rm.state == AppPortrait then App else Home)
  {
    var req := if rm.state == AppPortrait then App else Home;
    assert !Diverts(rm.state, req, env) && Outcome(rm.state, req, env) == req;
    SetState(rm, env, req)
  }

  /**
   * The status area is left out of APP's input viewport unless the blur is
   * exactly BLUR_BACKGROUND or exactly BLUR_HOME: set_input_viewport compares
   * current_blur for equality, so a background or home blur combined with any
   * other bit does not let the status area take input.
   */
  lemma DialogBlurIsExact(rm: RM, env: Env)
    requires Wf(rm) && rm.state == App && rm.state !in env.table.needGrab && rm.bar.statusAreaShown == Some(true)
    ensures (rm.display.anim.currentBlur.background || rm.display.anim.currentBlur.home)
            && rm.display.anim.currentBlur != BlurBackgroundOnly && rm.display.anim.currentBlur != BlurHomeOnly
            ==> forall e :: e in SetInputViewport(rm, env).viewport ==> !e.StatusAreaArea?
    ensures rm.display.anim.currentBlur == BlurBackgroundOnly || rm.display.anim.currentBlur == BlurHomeOnly
            ==> exists e :: e in SetInputViewport(rm, env).viewport && e.StatusAreaArea?
  {
  }

  /** hd_render_manager_update: the before-transition sync alone. */
  function Update(rm: RM, env: Env): (r: RM)
    requires Wf(rm) && rm.state != Undefined
    ensures Wf(r) && r.state == rm.state
    ensures var look := LookOf(rm.state, env.taskNavEmpty, rm.previous);
            r.display.title.left == look.left && r.display.title.right == look.right
  {
    SyncBefore(rm, env)
  }

  /** An ignored request leaves the render manager exactly as it was, whatever was asked. */
  lemma IgnoredWhileChanging(rm: RM, env: Env, req: Mode)
    requires Wf(rm) && req != Undefined && rm.inSetState
    ensures SetState(rm, env, req) == rm
  {
  }

  /** Asking for the switcher with nothing in it lands on HOME or its portrait sibling, never TASK_NAV. */
  lemma EmptySwitcherGoesHome(rm: RM, env: Env)
    requires Wf(rm) && env.view.compMgr && !rm.inSetState && rm.state != TaskNav && env.taskNavEmpty
    ensures SetState(rm, env, TaskNav).state == (if Diverts(rm.state, Home, env) then HomePortrait else Home)
  {
  }

  // ---------------------------------------------------------------------------
  // Restack

  /**
   * hd_render_manager_restack: the two layer passes, the visibility pass with
   * the input viewport, and a blurred_changed call exactly when home_blur's
   * children changed.
   */
  method RestackAll(rm: RM, env: Env) returns (r: RM)
    requires Wf(rm) && ValidView(env.view)
    ensures Wf(r)
    ensures var arranged := Arrange(rm.display.scene, env.view.w, env.view.layout);
            r.display.scene.homeBlur == arranged.homeBlur && r.display.scene.appTop == arranged.appTop
            && r.display.scene.parent == arranged.parent
            && forall a :: a != BlurFrontActor ==>
                 (a in r.display.scene.visible <==> a in Decided(env.view, arranged, rm.state in env.table.needDesktop))
    ensures r.display.events == rm.display.events
              + (if r.display.scene.homeBlur != rm.display.scene.homeBlur then [BlurredChanged] else [])
    ensures r.state == rm.state && r.display.anim == rm.display.anim && r.display.title == rm.display.title
  {
    var arranged := Arrange(rm.display.scene, env.view.w, env.view.layout);
    var vis := SetVisibilities(env.view, arranged, rm.state in env.table.needDesktop, rm.bar.statusArea);
    var rm1 := rm.(display := rm.display.(scene := vis.scene), bar := rm.bar.(statusArea := vis.statusArea));
    var rm2 := SetInputViewport(rm1, env);
    var changed := HomeBlurChanged(rm.display.scene.homeBlur, rm2.display.scene.homeBlur);
    if changed {
      r := rm2.(display := rm2.display.(events := rm2.display.events + [BlurredChanged]));
    } else {
      r := rm2;
    }
  }
}
