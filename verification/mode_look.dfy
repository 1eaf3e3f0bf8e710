/**
 * What each mode asks of the chrome in hd_render_manager_sync_clutter_before:
 * the top-left and top-right title-bar buttons, whether the home view is
 * shown, and the blur flags handed to set_blur.
 */
module ModeLook {
  import opened Modes
  import opened Blur
  import opened Chrome

  datatype Look = Look(left: ButtonId, right: ButtonId, showHome: bool, blur: BlurFlags)

  /**
   * The per-mode switch. HOME falls through into HOME_PORTRAIT and APP into
   * APP_PORTRAIT after choosing their top-left button; UNDEFINED is fatal
   * there and excluded here.
   */
  function LookOf(m: Mode, taskNavEmpty: bool, previous: Mode): (r: Look)
    requires m != Undefined
    ensures r.showHome <==> !IsApp(m)
    ensures r.right == (if m == Launcher then BackButton else NoButton)
    ensures r.left == TaskNavButton <==> m == App || (m == Home && !taskNavEmpty)
    ensures r.left == LauncherButton <==> m == TaskNav || (m == Home && taskNavEmpty)
    ensures r.left == NoButton || r.left == TaskNavButton || r.left == LauncherButton
    ensures !r.blur.background && !r.blur.zoomLauncherSubmenu
    ensures r.blur.home <==> m == HomeEdit || m == HomeEditDlg || m == TaskNav || m == Launcher
    ensures r.blur.showTaskNav <==> m == TaskNav
    ensures r.blur.zoomLauncher <==> m == Launcher
    ensures r.blur.zoomTaskNav <==> m == TaskNav || (m == Launcher && previous == TaskNav)
    decreases if m == Home || m == App then 1 else 0
  {
    match m
    case Home =>
      LookOf(HomePortrait, taskNavEmpty, previous).(left := if taskNavEmpty then LauncherButton else TaskNavButton)
    case HomePortrait => Look(NoButton, NoButton, true, BlurNone)
    case HomeEdit => Look(NoButton, NoButton, true, BlurHomeOnly)
    case HomeEditDlg => Look(NoButton, NoButton, true, BlurHomeOnly)
    case App => LookOf(AppPortrait, taskNavEmpty, previous).(left := TaskNavButton)
    case AppPortrait => Look(NoButton, NoButton, false, BlurNone)
    case TaskNav => Look(LauncherButton, NoButton, true, BlurHomeOnly.(zoomTaskNav := true, showTaskNav := true))
    case Launcher =>
      Look(NoButton, BackButton, true, BlurHomeOnly.(zoomLauncher := true, zoomTaskNav := previous == TaskNav))
  }

  /**
   * A landscape mode and its portrait sibling look alike except that the
   * portrait one has no top-left button.
   */
  lemma PortraitSiblingLook(m: Mode, taskNavEmpty: bool, previous: Mode)
    requires m == App || m == Home
    ensures LookOf(PortraitSibling(m), taskNavEmpty, previous)
              == LookOf(m, taskNavEmpty, previous).(left := NoButton)
    ensures LookOf(m, taskNavEmpty, previous).left != NoButton
  {
  }

  /** Only the launcher's look depends on the previous mode, and only HOME's on the switcher being empty. */
  lemma LookDependencies(m: Mode, e1: bool, e2: bool, p1: Mode, p2: Mode)
    requires m != Undefined
    ensures m != Launcher ==> LookOf(m, e1, p1) == LookOf(m, e1, p2)
    ensures m != Home ==> LookOf(m, e1, p1) == LookOf(m, e2, p1)
  {
  }
}
