/**
 * The render manager's nine modes (HDRMStateEnum) and the STATE_* predicates
 * over them.
 */
module Modes {

  /** The values registered for HdRenderManagerStateType, in order. */
  datatype Mode =
    | Undefined
    | Home
    | HomeEdit
    | HomeEditDlg
    | HomePortrait
    | App
    | AppPortrait
    | TaskNav
    | Launcher

  /** STATE_IS_APP: an application is on top, in either orientation. */
  predicate IsApp(m: Mode) { m == App || m == AppPortrait }

  /** STATE_IS_PORTRAIT. */
  predicate IsPortrait(m: Mode) { m == HomePortrait || m == AppPortrait }

  /**
   * The remaining STATE_* predicates, whose definitions live in a header that
   * is not part of this model: each is given as the set of modes for which it
   * holds.
   */
  datatype StateTable = StateTable(
    needGrab: set<Mode>,         // STATE_NEED_GRAB
    needTaskNav: set<Mode>,      // STATE_NEED_TASK_NAV
    homeFront: set<Mode>,        // STATE_HOME_FRONT
    showApplets: set<Mode>,      // STATE_SHOW_APPLETS
    needDesktop: set<Mode>,      // STATE_NEED_DESKTOP
    blurButtons: set<Mode>,      // STATE_BLUR_BUTTONS
    showOperator: set<Mode>,     // STATE_SHOW_OPERATOR
    showStatusArea: set<Mode>,   // STATE_SHOW_STATUS_AREA
    portraitCapable: set<Mode>)  // STATE_IS_PORTRAIT_CAPABLE

  /** The portrait sibling a landscape request is diverted to. */
  function PortraitSibling(m: Mode): (p: Mode)
    requires m == App || m == Home
    ensures IsPortrait(p)
    ensures IsApp(p) <==> IsApp(m)
  {
    if m == App then AppPortrait else HomePortrait
  }
}
