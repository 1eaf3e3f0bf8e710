/**
 * The chrome around the windows: the four buttons the render manager keeps,
 * the X input viewport built from them, and the placement of the status
 * area, the operator logo and the dialog title along the title bar.
 */
module Chrome {
  import opened Wrappers
  import opened Geometry
  import opened Wm

  /**
   * HDRMButtonEnum. Its header is not part of this model; the buttons are
   * taken to be numbered from 1 in the order below, which is the order the
   * input viewport lists them in.
   */
  datatype ButtonId = NoButton | TaskNavButton | LauncherButton | BackButton | EditButton

  /** The parts of a button actor the render manager looks at. */
  datatype ButtonActor = ButtonActor(visible: bool, parentVisible: bool, reactive: bool, geometry: Rect)

  /** The button actors; the edit button exists from creation on, the others are set later. */
  datatype Buttons = Buttons(taskNav: Option<ButtonActor>, launcher: Option<ButtonActor>,
                             back: Option<ButtonActor>, edit: ButtonActor)

  /** The buttons hd_render_manager_set_button accepts. */
  predicate Settable(b: ButtonId) { b == TaskNavButton || b == LauncherButton || b == BackButton }

  /** hd_render_manager_get_button; NoButton is a failed assertion. */
  function GetButton(bs: Buttons, b: ButtonId): (r: Option<ButtonActor>)
    requires b != NoButton
    ensures b == EditButton ==> r == Some(bs.edit)
  {
    match b
    case TaskNavButton => bs.taskNav
    case LauncherButton => bs.launcher
    case BackButton => bs.back
    case EditButton => Some(bs.edit)
  }

  /**
   * hd_render_manager_set_button: each settable button can be assigned once;
   * assigning it again, or assigning the edit button, is a failed assertion.
   */
  function SetButton(bs: Buttons, b: ButtonId, item: ButtonActor): (r: Buttons)
    requires Settable(b) && GetButton(bs, b).None?
    ensures GetButton(r, b) == Some(item)
    ensures forall o :: o != NoButton && o != b ==> GetButton(r, o) == GetButton(bs, o)
  {
    match b
    case TaskNavButton => bs.(taskNav := Some(item))
    case LauncherButton => bs.(launcher := Some(item))
    case BackButton => bs.(back := Some(item))
  }

  /** Two different buttons can be assigned in either order, and assigning one leaves the other unassigned. */
  lemma SetButtonsInAnyOrder(bs: Buttons, b1: ButtonId, i1: ButtonActor, b2: ButtonId, i2: ButtonActor)
    requires Settable(b1) && Settable(b2) && b1 != b2
    requires GetButton(bs, b1).None? && GetButton(bs, b2).None?
    ensures GetButton(SetButton(bs, b1, i1), b2).None? && GetButton(SetButton(bs, b2, i2), b1).None?
    ensures SetButton(SetButton(bs, b1, i1), b2, i2) == SetButton(SetButton(bs, b2, i2), b1, i1)
  {
  }

  /**
   * hd_render_manager_get_visible: meaningful for the edit, task navigator
   * and launcher buttons (the latter two must have been set); false for any
   * other button.
   */
  function GetVisible(bs: Buttons, b: ButtonId): (v: bool)
    requires b == TaskNavButton ==> bs.taskNav.Some?
    requires b == LauncherButton ==> bs.launcher.Some?
    ensures b == EditButton || b == TaskNavButton || b == LauncherButton ==> v == GetButton(bs, b).value.visible
    ensures b == NoButton || b == BackButton ==> !v
  {
    match b
    case EditButton => bs.edit.visible
    case TaskNavButton => bs.taskNav.value.visible
    case LauncherButton => bs.launcher.value.visible
    case _ => false
  }

  /**
   * hd_render_manager_set_visible: only the edit button can be shown or
   * hidden; the flag says whether the input viewport has to be rebuilt.
   */
  function SetVisible(bs: Buttons, b: ButtonId, visible: bool): (r: (Buttons, bool))
    ensures b == EditButton ==> r.0.edit.visible == visible && r.0 == bs.(edit := bs.edit.(visible := visible))
    ensures b == EditButton ==> (r.1 <==> visible != bs.edit.visible)
    ensures b != EditButton ==> r == (bs, false)
  {
    if b != EditButton || visible == bs.edit.visible then (bs, false)
    else (bs.(edit := bs.edit.(visible := visible)), true)
  }

  /** Reading back the edit button's visibility gives what was set, and setting it again changes nothing. */
  lemma EditVisibleRoundTrip(bs: Buttons, visible: bool)
    ensures GetVisible(SetVisible(bs, EditButton, visible).0, EditButton) == visible
    ensures SetVisible(SetVisible(bs, EditButton, visible).0, EditButton, visible) == (SetVisible(bs, EditButton, visible).0, false)
    ensures SetVisible(bs, EditButton, bs.edit.visible) == (bs, false)
  {
  }

  // ---------------------------------------------------------------------------
  // The X input viewport

  /** A rectangle of the input viewport, with where it comes from. */
  datatype Area = ButtonArea(button: ButtonId, rect: Rect) | StatusAreaArea(rect: Rect) | ScreenArea(rect: Rect)

  /** What hd_render_manager_set_input_viewport reads. */
  datatype ViewportInput = ViewportInput(
    needGrab: bool,             // STATE_NEED_GRAB of the current mode
    appMode: bool,              // STATE_IS_APP
    portrait: bool,             // STATE_IS_PORTRAIT
    exactlyApp: bool,           // the mode is HDRM_STATE_APP itself
    dialogBlur: bool,           // current_blur is exactly HDRM_BLUR_BACKGROUND or exactly HDRM_BLUR_HOME
    buttons: Buttons,
    statusAreaShown: Option<bool>,  // the status area actor, if any, and whether it is visible
    statusArea: Option<StatusArea>, // the status area client
    screenWidth: nat,
    screenHeight: nat)

  /** The buttons in the order the viewport lists them. */
  const ButtonOrder: seq<ButtonId> := [TaskNavButton, LauncherButton, BackButton, EditButton]

  /** A button that takes input: set, visible, in a visible parent, reactive, and not back in application mode. */
  predicate Included(inp: ViewportInput, b: ButtonId)
    requires b != NoButton
  {
    var a := GetButton(inp.buttons, b);
    a.Some? && a.value.visible && a.value.parentVisible && a.value.reactive
    && (b != BackButton || !inp.appMode)
  }

  /** The status area blocks input in portrait mode, and in application mode under a dialog's blur. */
  predicate StatusAreaBlocks(inp: ViewportInput) {
    inp.statusAreaShown == Some(true) && (inp.portrait || (inp.exactlyApp && inp.dialogBlur))
  }

  function ButtonAreas(inp: ViewportInput, order: seq<ButtonId>): (r: seq<Area>)
    requires forall i :: 0 <= i < |order| ==> order[i] != NoButton
    ensures |r| <= |order|
    ensures forall e :: e in r <==> exists i :: 0 <= i < |order| && Included(inp, order[i])
                                             && e == ButtonArea(order[i], GetButton(inp.buttons, order[i]).value.geometry)
  {
    if order == [] then []
    else
      var b := order[0];
      var rest := ButtonAreas(inp, order[1..]);
      assert forall i :: 0 < i < |order| ==> order[i] == order[1..][i - 1];
      assert forall i :: 0 <= i < |order[1..]| ==> order[1..][i] == order[i + 1];
      (if Included(inp, b) then [ButtonArea(b, GetButton(inp.buttons, b).value.geometry)] else []) + rest
  }

  lemma AllButtonsListed(inp: ViewportInput)
    ensures forall b :: b != NoButton && Included(inp, b) ==>
              ButtonArea(b, GetButton(inp.buttons, b).value.geometry) in ButtonAreas(inp, ButtonOrder)
  {
    forall b | b != NoButton && Included(inp, b)
      ensures ButtonArea(b, GetButton(inp.buttons, b).value.geometry) in ButtonAreas(inp, ButtonOrder)
    {
      var i := match b case TaskNavButton => 0 case LauncherButton => 1 case BackButton => 2 case _ => 3;
      assert ButtonOrder[i] == b;
    }
  }

  /**
   * hd_render_manager_set_input_viewport: the whole screen while the mode
   * needs a grab; otherwise every button taking input and, when it blocks
   * input, the status area's frame.
   */
  function InputViewport(inp: ViewportInput): (r: seq<Area>)
    requires StatusAreaBlocks(inp) && !inp.needGrab ==> inp.statusArea.Some?
    ensures inp.needGrab ==> r == [ScreenArea(Rect(0, 0, inp.screenWidth, inp.screenHeight))]
    ensures !inp.needGrab ==> |r| <= 5
    ensures !inp.needGrab ==> forall b :: b != NoButton && Included(inp, b) ==>
              ButtonArea(b, GetButton(inp.buttons, b).value.geometry) in r
    ensures !inp.needGrab ==> forall e :: e in r && e.ButtonArea? ==>
              e.button != NoButton && Included(inp, e.button) && e.rect == GetButton(inp.buttons, e.button).value.geometry
    ensures !inp.needGrab ==> (StatusAreaBlocks(inp) <==> exists e :: e in r && e.StatusAreaArea?)
    ensures !inp.needGrab && StatusAreaBlocks(inp) ==> r[|r| - 1] == StatusAreaArea(inp.statusArea.value.frame)
    ensures forall e :: e in r ==> !(e.ButtonArea? && e.button == BackButton && inp.appMode)
  {
    if inp.needGrab then [ScreenArea(Rect(0, 0, inp.screenWidth, inp.screenHeight))]
    else
      var bs := ButtonAreas(inp, ButtonOrder);
      AllButtonsListed(inp);
      assert |ButtonOrder| == 4 && forall e :: e in bs ==> e.ButtonArea?;
      var tail := if StatusAreaBlocks(inp) then [StatusAreaArea(inp.statusArea.value.frame)] else [];
      assert forall e :: e in bs + tail ==> e in bs || e in tail;
      assert |bs| <= |ButtonOrder| && |tail| <= 1;
      bs + tail
  }

  // ---------------------------------------------------------------------------
  // Title bar elements

  /** What hd_render_manager_place_titlebar_elements reads and moves. */
  datatype TitleInput = TitleInput(
    taskNavVisible: bool,
    launcherVisible: bool,
    statusAreaShown: Option<bool>,
    statusArea: Option<StatusArea>,
    operatorShown: Option<bool>,
    appMode: bool,              // the mode is App or AppPortrait
    topLeftWidth: nat,          // HD_COMP_MGR_TOP_LEFT_BTN_WIDTH
    operatorPadding: nat)       // HD_COMP_MGR_OPERATOR_PADDING

  /** Where the elements end up: the status area client, the operator's x and the dialog title's x. */
  datatype TitlePlacement = TitlePlacement(statusArea: Option<StatusArea>, operatorX: Option<int>, titleX: Option<int>)

  predicate StatusAreaOnShow(t: TitleInput) { t.statusAreaShown == Some(true) }

  /** The left edge after the top-left button. */
  function Start(t: TitleInput): nat {
    if t.taskNavVisible || t.launcherVisible then t.topLeftWidth else 0
  }

  /** A shown status area whose frame is not already at the start is moved there. */
  predicate StatusAreaMoves(t: TitleInput)
    requires StatusAreaOnShow(t) ==> t.statusArea.Some?
  {
    StatusAreaOnShow(t) && t.statusArea.value.frame.x != Start(t)
  }

  /**
   * Where the operator logo and the dialog title go: past the top-left
   * button and past a shown status area, whose width is its window's when it
   * is moved and its frame's otherwise.
   */
  function NextX(t: TitleInput): nat
    requires StatusAreaOnShow(t) ==> t.statusArea.Some?
  {
    Start(t) + (if !StatusAreaOnShow(t) then 0
                else if StatusAreaMoves(t) then t.statusArea.value.window.width
                else t.statusArea.value.frame.width)
  }

  function PlaceTitlebar(t: TitleInput): (r: TitlePlacement)
    requires StatusAreaOnShow(t) ==> t.statusArea.Some?
    ensures r.statusArea.Some? <==> t.statusArea.Some?
    ensures StatusAreaOnShow(t) ==>
              r.statusArea.value.frame.x == Start(t) && r.statusArea.value.window.x
                == (if t.statusArea.value.frame.x != Start(t) then Start(t) else t.statusArea.value.window.x)
    ensures StatusAreaOnShow(t) ==> r.statusArea.value.frame.(x := 0) == t.statusArea.value.frame.(x := 0)
                                    && r.statusArea.value.window.(x := 0) == t.statusArea.value.window.(x := 0)
    ensures !StatusAreaOnShow(t) ==> r.statusArea == t.statusArea
    ensures r.operatorX.Some? <==> t.operatorShown == Some(true)
    ensures r.titleX.Some? <==> t.appMode
    ensures r.operatorX.Some? && r.titleX.Some? ==> r.operatorX.value == r.titleX.value + t.operatorPadding
    ensures r.titleX.Some? ==> r.titleX.value == NextX(t)
    ensures r.operatorX.Some? ==> r.operatorX.value == NextX(t) + t.operatorPadding
  {
    var x0 := Start(t);
    var (sa, x) :=
      if StatusAreaOnShow(t) then
        var s := t.statusArea.value;
        if s.frame.x != x0 then
          (Some(StatusArea(s.frame.(x := x0), s.window.(x := x0))), x0 + s.window.width)
        else (t.statusArea, x0 + s.frame.width)
      else (t.statusArea, x0);
    TitlePlacement(sa,
                   if t.operatorShown == Some(true) then Some(x + t.operatorPadding) else None,
                   if t.appMode then Some(x) else None)
  }

  /**
   * The placed elements never overlap the chrome to their left: with no
   * status area on show they start right after the top-left button, and
   * otherwise at the right edge of the status area as placed (its window
   * when it was moved, its frame when it stayed).
   */
  lemma PlacedAfterStatusArea(t: TitleInput)
    requires StatusAreaOnShow(t) ==> t.statusArea.Some?
    ensures var r := PlaceTitlebar(t);
            && NextX(t) >= Start(t)
            && (!StatusAreaOnShow(t) ==> NextX(t) == Start(t))
            && (StatusAreaMoves(t) ==> NextX(t) == Right(r.statusArea.value.window) && r.statusArea.value.window.x == Start(t))
            && (StatusAreaOnShow(t) && !StatusAreaMoves(t) ==> NextX(t) == Right(r.statusArea.value.frame))
  {
  }

  /** The title bar input seen again after placing the elements once. */
  function Replaced(t: TitleInput): TitleInput
    requires StatusAreaOnShow(t) ==> t.statusArea.Some?
  {
    t.(statusArea := PlaceTitlebar(t).statusArea)
  }

  /** Placing the elements twice changes nothing more when the status area's frame and window are equally wide. */
  lemma PlaceTitlebarIdempotent(t: TitleInput)
    requires StatusAreaOnShow(t) ==> t.statusArea.Some? && t.statusArea.value.frame.width == t.statusArea.value.window.width
    ensures PlaceTitlebar(Replaced(t)) == PlaceTitlebar(t)
  {
  }

  /**
   * Otherwise the elements after the status area move: the first placement
   * counts the window's width, a second one the frame's.
   */
  lemma PlaceTitlebarNotIdempotent()
    ensures var t := TitleInput(false, false, Some(true), Some(StatusArea(Rect(5, 0, 100, 50), Rect(5, 0, 90, 50))),
                                Some(true), true, 112, 16);
            PlaceTitlebar(t).titleX == Some(90) && PlaceTitlebar(Replaced(t)).titleX == Some(100)
  {
  }
}
