# hildon-desktop render manager, modelled in Dafny

This project models the render manager of hildon-desktop
(`src/home/hd-render-manager.c`). The render manager is the single-threaded
component that decides:

- how the compositor's actors are layered into the blurred `home_blur` group
  and the unblurred `app_top` group;
- which actors are worth drawing, judged by the opaque windows above them;
- which blur, zoom and switcher-opacity targets the background animates to;
- which mode (home, application, switcher, launcher, edit, portrait) the
  desktop is in, and what entering a mode does to the chrome.

Every Clutter, matchbox and configuration call is replaced by a plain value:

- a layer group is a sequence of actor ids, bottom first;
- a client is a record;
- the transition configuration is a map;
- a call into another component is an event appended to a log.

The modules follow the source's structure:

| module | models |
|---|---|
| `Geometry` (geometry.dfy) | `clip_geo` and the occlusion test `is_visible` |
| `Blur` (blur.dfy) | `HDRMBlurEnum` and the `Range` helpers; the target computation and timeline bookkeeping of `set_blur`; the frame and completion callbacks |
| `Modes` (modes.dfy) | the nine modes and the `STATE_*` predicates |
| `Scene` (scene.dfy) | layer groups, parents and visibility; the Clutter reparent, raise, lower, show and hide primitives; `return_app` and `return_dialog` |
| `Wm` (wm.dfy) | the window-manager stack; the client lookup behind an actor; the opacity test |
| `Chrome` (chrome.dfy) | the button registry; the input viewport; the title-bar layout arithmetic |
| `Restack` (restack.dfy) | the two layer passes of `restack` and its home_blur change check |
| `Visibility` (visibility.dfy) | `set_visibilities` |
| `RenderManager` (render_manager.dfy) | the render manager's state; `set_blur`, `sync_clutter_after` and `update_blur_state`, which call one another; the timeline callbacks; `stop_transition`; `set_launcher_subview`; the queued-redraw flag |
| `ModeLook` (mode_look.dfy) | the per-mode switch of `sync_clutter_before` |
| `StateMachine` (state_machine.dfy) | `set_state` with its re-entrancy guard, redirect and portrait diversion; `sync_clutter_before`; `set_input_viewport`; `place_titlebar_elements`; the whole `restack` |

The predicates of the header that is not part of this model become parameters:

- `STATE_NEED_GRAB`, `STATE_HOME_FRONT`, `STATE_BLUR_BUTTONS` and the other
  `STATE_*` predicates are a `StateTable` of mode sets. Only `STATE_IS_APP` and
  `STATE_IS_PORTRAIT` are fixed, because their names leave no doubt.
- The screen size, the maximized test, the top-left button width and the
  operator padding are parameters too.

Source paths below are relative to the repository root.

## Model

| member | source | states |
|---|---|---|
| Geometry.ClipGeo | src/home/hd-render-manager.c:1355-1375 | Clipping fails exactly when the rect lies wholly in the negative x or y half-plane. On success the origin is floored at zero and the right and bottom edges stay put. A rect with non-negative origin is untouched. No on-screen point is gained or lost. |
| Geometry.SecondClip | src/home/hd-render-manager.c:1751-1775 | The second clipping block keeps the rect's x span and never lowers its bottom edge. Every point of the old rect is either inside the blocker or still inside the new rect. |
| Geometry.IsVisibleSound | src/home/hd-render-manager.c:1684-1779 | The occlusion test only reports a rect invisible when every on-screen point of it lies in some blocker. This holds for every blocker list with positive heights and non-negative bottom edges. |
| Geometry.ScanSound | src/home/hd-render-manager.c:1692-1776 | The same soundness for the blocker loop over an already clipped rect, including the split that re-tests the upper piece against the same list. |
| Geometry.RestSound | src/home/hd-render-manager.c:1751-1776 | The same soundness for the second clipping block followed by the rest of the list. |
| Geometry.NoBlockersVisible | src/home/hd-render-manager.c:1684-1710 | With no blockers, a rect is visible exactly when clipping leaves something of it. |
| Geometry.DropNonSpanning | src/home/hd-render-manager.c:1708-1710 | A leading blocker that does not span the clipped rect in x can be dropped without changing the answer. |
| Geometry.InsideFirstBlockerHidden | src/home/hd-render-manager.c:1708-1741 | A rect with non-negative origin and positive height that lies inside the first blocker on both axes is invisible, whatever blockers follow. |
| Geometry.RemovingBlockerCanHide | src/home/hd-render-manager.c:1770-1773 | The test is not monotonic in its blocker list. The second clipping block pulls a rect below a blocker up to that blocker's bottom edge, so a rect visible against two blockers is invisible against the second one alone. |
| Blur.MaskRoundTrip | src/home/hd-render-manager.c:107-116 | The flag record survives the trip through the integer mask, and the mask never sets a bit outside the defined ones. |
| Blur.FlagsRoundTrip | src/home/hd-render-manager.c:107-116 | A mask survives the trip through the flags once its undefined bits (8 and 128) are dropped. |
| Blur.BackgroundToggleIsOneBit | src/home/hd-render-manager.c:1634-1637 | Setting or clearing BLUR_BACKGROUND as update_blur_state does changes that bit of the mask and no other. |
| Blur.Interpolate | src/home/hd-render-manager.c:242-245 | Interpolation keeps both end points. It yields a at progress 0 and b at progress 1, and a range with a == b does not move. |
| Blur.Next | src/home/hd-render-manager.c:246-250 | A new animation starts from where the range currently is and heads for the new target. |
| Blur.InterpolateBetween | src/home/hd-render-manager.c:242-245 | For progress between 0 and 1, the interpolated value lies between the two end points, rising or falling. |
| Blur.TargetsFor | src/home/hd-render-manager.c:557-603 | Without BLUR_HOME or BLUR_BACKGROUND, radius, saturation and brightness head for 0, 1 and 1. With no zoom flag the home zoom is 1. Without a launcher zoom flag the switcher zoom is 1. The switcher opacity is 1 exactly under SHOW_TASK_NAV. |
| Blur.TargetsReadOnlyConsulted | src/home/hd-render-manager.c:573-603 | The targets depend on the configuration only through the keys the flags make set_blur consult. Two configurations agreeing on those keys give the same targets. |
| Blur.NoFlagsNoConfig | src/home/hd-render-manager.c:559-603 | With no flags, no configuration key is read. The targets are radius 0, saturation, brightness and zoom 1, switcher opacity 0 and switcher zoom 1. |
| Blur.TaskNavZoomIgnoresTaskNavFlag | src/home/hd-render-manager.c:566-571 | ZOOM_FOR_TASK_NAV counts towards zoom_home but not towards zoom_task_nav. |
| Blur.DefaultTargets | src/home/hd-render-manager.c:576-603 | When every key is absent, the source's default values decide the targets: radius 8 under a background blur, and 1 for every zoom. |
| Blur.Retarget | src/home/hd-render-manager.c:557-564 | Re-targeting records the flags, starts every range from its current value and heads it for the computed target. A re-targeted animator with nothing to animate is settled. |
| Blur.BlurStepAsWritten | src/home/hd-render-manager.c:551-622 | set_blur's bookkeeping as written. The timeline starts, with the effect flag raised, exactly when a range needs animating. Otherwise timeline_playing keeps whatever value it had. Whenever the flag is down the ranges rest on their targets. |
| Blur.BlurStep | src/home/hd-render-manager.c:551-622 | The corrected bookkeeping. timeline_playing is raised exactly when some range needs animating, and then with the configured duration and the effect flag. The animator invariant holds afterwards. |
| Blur.StaleTimelineFlag | src/home/hd-render-manager.c:551-555 | Asking for no blur while a home blur is still playing leaves timeline_playing raised as written, with nothing to animate and the effect flag down. |
| Blur.NoStaleTimelineFlag | src/home/hd-render-manager.c:551-622 | The same two calls through the corrected step leave the flag lowered. |
| Blur.CorrectionOnlyLowersFlag | src/home/hd-render-manager.c:551-622 | The corrected step differs from the step as written in timeline_playing alone, and only when a playing timeline is stopped and nothing is left to animate. As written, the animator invariant can fail only in its second half: the effect flag being raised while a timeline plays. |
| Blur.Frame | src/home/hd-render-manager.c:485-492 | A frame moves every range towards its target and leaves the targets, flags and timeline state alone. The last frame puts every range on its target. |
| Blur.Complete | src/home/hd-render-manager.c:519-520 | Completion lowers the timeline and effect flags and changes no range. |
| Modes.PortraitSibling | src/home/hd-render-manager.c:1212-1214 | The diversion target is a portrait mode, and it is an application mode exactly when the landscape request was one. |
| Scene.ReturnApp | src/home/hd-render-manager.c:1333-1339 | A returned application actor ends hidden at the bottom of home_blur and leaves app_top. Every other actor keeps its parent and visibility. |
| Scene.ReturnDialog | src/home/hd-render-manager.c:1342-1347 | A returned dialog ends hidden in app_top and leaves home_blur. It goes on top when it comes from another group and keeps its place when it is already in app_top, since reparenting to the same parent does nothing. Every other actor keeps its parent and visibility. |
| Wm.Search | src/home/hd-render-manager.c:1797-1804 | The search from the stack bottom finds the lowest client that shows the actor, or reports that none does. |
| Wm.ClientOf | src/home/hd-render-manager.c:1781-1805 | The client attached to the actor wins. Otherwise the lowest client showing it is returned. There is no client exactly when neither exists. |
| Wm.Opaque | src/home/hd-render-manager.c:1807-1823 | An actor is opaque exactly when a compositor is present and the actor has a client that is neither ARGB32 nor shaped. Without a client it is never opaque. |
| Wm.HomeNeverOpaque | src/home/hd-render-manager.c:1814-1822 | The home view has no client of its own, so it never counts as a blocker. |
| Chrome.GetButton | src/home/hd-render-manager.c:992-1011 | Each button id reads its own slot, and the edit button always exists. |
| Chrome.SetButton | src/home/hd-render-manager.c:963-990 | A settable button that is still unset gets the actor. Every other button reads as before. |
| Chrome.SetButtonsInAnyOrder | src/home/hd-render-manager.c:963-990 | Assigning one button leaves another unassigned, and two different buttons can be assigned in either order with the same result. |
| Chrome.GetVisible | src/home/hd-render-manager.c:1045-1062 | The edit, switcher and launcher buttons report their actor's visibility. Any other id reports false. |
| Chrome.SetVisible | src/home/hd-render-manager.c:1023-1043 | Only the edit button can be shown or hidden. The input viewport is rebuilt exactly when its visibility actually changes. |
| Chrome.EditVisibleRoundTrip | src/home/hd-render-manager.c:1023-1062 | Reading back the edit button's visibility gives what was set. Setting the same value again asks for no viewport rebuild. |
| Chrome.ButtonAreas | src/home/hd-render-manager.c:640-653 | An area is listed exactly for each button that is set, visible, in a visible parent, reactive and, in an application mode, not the back button. Its rect is that button's geometry. |
| Chrome.InputViewport | src/home/hd-render-manager.c:625-689 | A grabbing mode takes the whole screen. Otherwise every button that takes input is listed and no other. The status area's frame comes last, exactly when the status area blocks input. The back button is never listed in an application mode. |
| Chrome.PlaceTitlebar | src/home/hd-render-manager.c:2026-2058 | A shown status area starts after the top-left button, and only its x moves. The operator is placed exactly when it is shown, and the title exactly in an application mode. Both go past the top-left button and past a shown status area, which counts its window's width when it was moved and its frame's otherwise; the operator adds its padding. |
| Chrome.PlacedAfterStatusArea | src/home/hd-render-manager.c:2031-2057 | The operator and title never overlap the chrome to their left. With no status area on show they start right after the top-left button. Otherwise they start at the right edge of the status area as placed: its window when it was moved, its frame when it stayed. |
| Chrome.PlaceTitlebarIdempotent | src/home/hd-render-manager.c:2037-2050 | When the status area's frame and window are equally wide, placing the elements a second time changes nothing. |
| Chrome.PlaceTitlebarNotIdempotent | src/home/hd-render-manager.c:2040-2049 | Otherwise a second placement moves the title. The first placement advances by the window's width, a second one by the frame's. |
| Restack.Place | src/home/hd-render-manager.c:1399-1445 | Once the desktop has been passed, a client's actor parented to its desktop group or app_top moves on top of home_blur, and one already in home_blur is raised to its top. Before the desktop, an actor in home_blur or app_top goes back to its desktop group. Nothing else changes parent. |
| Restack.Pass1 | src/home/hd-render-manager.c:1397-1448 | The bottom-up pass keeps the layer groups consistent. |
| Restack.Pass1Shape | src/home/hd-render-manager.c:1397-1448 | After the bottom-up pass, every actor the pass moved has left home_blur and app_top. The lifted actors sit on top of home_blur in the window manager's stacking order. |
| Restack.Pass1Parent | src/home/hd-render-manager.c:1399-1445 | Each handled client's actor ends where its own client sends it: on top of home_blur past the desktop, back in its desktop group before it, otherwise unmoved. |
| Restack.Pass1KeepsOthers | src/home/hd-render-manager.c:1397-1448 | An actor that no handled client shows keeps its parent through the bottom-up pass. |
| Restack.Cut | src/home/hd-render-manager.c:1457-1489 | The top-down scan stops at the topmost stopper: a maximized child, or one of full width touching the screen bottom. No child above the cut is a stopper. |
| Restack.Visit | src/home/hd-render-manager.c:1463-1482 | A movable child goes to the bottom of app_top and is shown. Home, blur_front, a child clipped away and a maximized window stay where they are. |
| Restack.TopDown | src/home/hd-render-manager.c:1453-1493 | The top-down pass keeps the layer groups consistent. |
| Restack.MoveChildIsReparentLower | src/home/hd-render-manager.c:1478-1480 | Moving a child to app_top is the reparent, lower-to-bottom and show that the pass performs. |
| Restack.TopDownShape | src/home/hd-render-manager.c:1453-1493 | Against the children the pass started from: those at or above the cut that are not home, blur_front, clipped away or maximized move, in order, to the bottom of app_top. Everything else stays in home_blur in its order. |
| Restack.TopDownResult | src/home/hd-render-manager.c:1453-1493 | The whole top-down pass, with k the cut. home_blur keeps its children below k and the non-movable ones above it. The movable ones above the cut land below the previous app_top. |
| Restack.TopDownMembers | src/home/hd-render-manager.c:1453-1493 | Home, blur_front, clipped-away children and maximized windows never leave home_blur, nor does anything below the cut. Every other child at or above the cut ends in app_top. |
| Restack.HomeBlurChanged | src/home/hd-render-manager.c:1505-1529 | The walk over the prepended list against the current children reports a change exactly when home_blur's children differ from before, in number or in order. |
| Restack.Arrange | src/home/hd-render-manager.c:1396-1497 | After both passes the groups are consistent. blur_front, when in home_blur, is its topmost child. |
| Visibility.TopBlockers | src/home/hd-render-manager.c:1825-1857 | The initial blockers are exactly the clipped geometries of app_top's opaque children that survive clipping. |
| Visibility.TopmostBlocksFirst | src/home/hd-render-manager.c:1825-1857 | Because each blocker is prepended, the topmost opaque child of app_top is the first blocker. |
| Visibility.WalkDecides | src/home/hd-render-manager.c:1870-1904 | Every home_blur child other than blur_front is shown exactly when it is visible against app_top's opaque windows and the shown opaque children above it. |
| Visibility.HiddenIsCovered | src/home/hd-render-manager.c:1870-1904 | A child the walk hides is hidden for good reason: every on-screen point of it lies under a blocker above it. |
| Visibility.AnyFullscreen | src/home/hd-render-manager.c:1926-1943 | The scan down the stack finds a fullscreen client exactly when some eligible client with a shown actor is fullscreen. |
| Visibility.MoveAway | src/home/hd-render-manager.c:1952-1957 | A status area at or below the top edge is moved just above the screen. One already above it is left alone. Only y changes. |
| Visibility.Restore | src/home/hd-render-manager.c:1962-1966 | A status area above the screen comes back to the top edge. Only y changes. |
| Visibility.MoveAwayRestore | src/home/hd-render-manager.c:1948-1967 | A status area at the top edge comes back to where it was after being moved away. |
| Visibility.RestoreMoveAway | src/home/hd-render-manager.c:1948-1967 | A status area moved away by its own height goes back to the same place after being restored. |
| Visibility.MovesIdempotent | src/home/hd-render-manager.c:1948-1967 | Moving away twice, or restoring twice, is the same as doing it once. |
| Visibility.SetVisibilities | src/home/hd-render-manager.c:1841-1967 | Group order and parents are unchanged. home_blur is drawn exactly when the full-screen rect is visible against app_top's opaque windows. Every child is shown as the walk decides. Home is shown in a mode that needs the desktop. blur_front is hidden exactly when a fullscreen client is on show, and the status area moves away or is restored to match. |
| RenderManager.BlurScan | src/home/hd-render-manager.c:1584-1629 | The background is blurred exactly when some considered client blurs it with nothing above it ending the scan. The buttons stay blurred on the same terms. |
| RenderManager.SetBlur | src/home/hd-render-manager.c:541-623 | The ranges head for the targets of the new flags. With the corrected step (see Findings), the animator invariant holds. In an application mode the sync may bring the background bit up to date. While a timeline plays outside the application modes, the scene and the event log are untouched. Only blur_front may move, and back on top of home_blur. |
| RenderManager.SyncAfter | src/home/hd-render-manager.c:840-867 | In a mode that blurs the buttons, blur_front ends on top of home_blur. In an application mode, the background bit follows the window stack. Elsewhere the animator and title bar are unchanged. With the corrected set_blur step, the animator invariant is kept. |
| RenderManager.RaiseBlurFront | src/home/hd-render-manager.c:845-854 | blur_front is put back on top of home_blur in a mode that blurs the buttons, with a blurred_changed call. Otherwise nothing changes. |
| RenderManager.UpdateBlurState | src/home/hd-render-manager.c:1574-1651 | Only the BLUR_BACKGROUND flag and the title bar's FOREGROUND bit change. The flag follows the scan's verdict, and FOREGROUND is raised exactly when the background blurs but the buttons do not. set_blur runs only when the flag changes, and the stacking sync comes last. With the corrected set_blur step, the animator invariant is kept. |
| RenderManager.SetBackground | src/home/hd-render-manager.c:1631-1645 | set_blur runs with BLUR_BACKGROUND set to the verdict, and only when that changes the flags. With the corrected set_blur step, the animator invariant is kept. |
| RenderManager.SetLauncherSubview | src/home/hd-render-manager.c:1655-1666 | ZOOM_FOR_LAUNCHER_SUBMENU becomes the argument and no other flag changes, except that an application mode's sync may update the background bit. The ranges head for the new targets. With the corrected set_blur step, the animator invariant holds. |
| RenderManager.OnNewFrame | src/home/hd-render-manager.c:475-512 | A frame moves the ranges and nothing else in the animator. The last frame settles every range. The switcher is shown exactly when its truncated opacity is non-zero. |
| RenderManager.OpacityRange | src/home/hd-render-manager.c:503-508 | The switcher's opacity stays within 0..255, and it is zero exactly below 1/255. |
| RenderManager.OnCompleted | src/home/hd-render-manager.c:514-526 | TRANSITION_COMPLETE is emitted first. The timeline and effect flags drop unless the after-sync starts a new blur. The blur targets stay aligned. With the corrected set_blur step, settled ranges leave the animator invariant holding. |
| RenderManager.StopTransition | src/home/hd-render-manager.c:873-887 | A playing timeline jumps to its last frame and completes. With the corrected set_blur step, that leaves the animator settled, or re-started for the background bit alone. The launcher transition is stopped last in any case. |
| RenderManager.FinishTimeline | src/home/hd-render-manager.c:877-884 | The last frame and the completion callback run in order. With the corrected set_blur step, the animator invariant holds afterwards. |
| RenderManager.QueueDelayRedraw | src/home/hd-render-manager.c:1971-1984 | A redraw is requested only when none is queued, and afterwards one is queued. |
| RenderManager.PaintNotify | src/home/hd-render-manager.c:532-539 | A completed paint clears the queued flag and nothing else. |
| RenderManager.RedrawsCoalesce | src/home/hd-render-manager.c:1971-1984 | Any number of requests between two paints asks the stage for at most one redraw. |
| RenderManager.PaintReopensQueue | src/home/hd-render-manager.c:532-539 | After a paint, the next request asks for a redraw again. |
| ModeLook.LookOf | src/home/hd-render-manager.c:702-752 | The per-mode switch. Home is shown exactly outside the application modes. The back button is shown exactly in the launcher. The switcher button is shown in APP and in a HOME with a non-empty switcher, and the launcher button in TASK_NAV and in a HOME with an empty one. The blur flags follow the same switch. |
| ModeLook.PortraitSiblingLook | src/home/hd-render-manager.c:707-733 | A landscape mode and its portrait sibling look alike except for the top-left button, which only the landscape one has. |
| ModeLook.LookDependencies | src/home/hd-render-manager.c:702-752 | Only the launcher's look depends on the previous mode, and only HOME's depends on the switcher being empty. |
| StateMachine.SetInputViewport | src/home/hd-render-manager.c:625-689 | Only the viewport changes. In APP a shown status area takes input exactly under a dialog's blur. In portrait it takes input exactly when shown. The back button never takes input in an application mode. |
| StateMachine.DialogBlurIsExact | src/home/hd-render-manager.c:658-667 | In APP with the status area shown, the status area takes input when the blur is exactly BLUR_BACKGROUND or exactly BLUR_HOME. A background or home blur combined with any other bit leaves it out of the viewport. |
| StateMachine.PlaceTitlebarElements | src/home/hd-render-manager.c:2026-2061 | A shown status area starts after the top-left button. A shown operator goes past the top-left button and a shown status area, plus its padding, and in an application mode so does the title, without the padding. An element that is not placed keeps its x. |
| StateMachine.ApplyLook | src/home/hd-render-manager.c:702-752 | The home view is shown exactly as the look says, and set_blur leaves the look's flags with only the background bit possibly updated. The ranges head for their targets, and the applets group is untouched. With the corrected set_blur step, the animator invariant holds. |
| StateMachine.ShowGroups | src/home/hd-render-manager.c:754-820 | home_blur is drawn, and the title bar gets the mode's buttons. In a mode that does not blur the buttons, blur_front leaves home_blur for the top level. No other actor moves. |
| StateMachine.SyncBar | src/home/hd-render-manager.c:760-836 | The operator is shown exactly in the modes that show it. An existing status area is shown exactly in the modes that show it, and a missing one stays missing. The title bar shows exactly the look's registered top buttons, and the edit button is hidden outside HOME; no button is registered or dropped. A shown status area is placed after the top-left button the mode asks for when that button is registered, else at x = 0. The operator follows the title by the padding, and the left button is released. |
| StateMachine.SyncDisplay | src/home/hd-render-manager.c:702-820 | The display shows the mode's look. The title bar's FOREGROUND bit is the one read before set_blur ran. The animator is aligned and, with the corrected set_blur step, resting. |
| StateMachine.BeforeDisplay | src/home/hd-render-manager.c:692-829 | The display shows the look of the mode entered from the previous one. The edit button is hidden last outside HOME. With the corrected set_blur step, the animator invariant holds. |
| StateMachine.SyncChrome | src/home/hd-render-manager.c:692-836 | The display and the title-bar side both follow the mode: the look's buttons are the ones shown, the edit button is hidden outside HOME, and the status area is placed after the mode's top-left button. The mode, the flags and the viewport are unchanged. With the corrected set_blur step, the animator invariant holds. |
| StateMachine.SyncBefore | src/home/hd-render-manager.c:692-837 | The whole before-transition sync. The look of the mode is shown, the blur heads for its targets and, with the corrected set_blur step, rests. The operator, the status area and the buttons follow the mode, with the status area placed after the mode's top-left button. The left button is released, and a grabbing mode's viewport is the whole screen. |
| StateMachine.BackButtonOnlyInLauncher | src/home/hd-render-manager.c:782-832 | Outside a grab, after the sync the back button has an input area exactly in LAUNCHER, when it is registered, reactive and in a shown parent. This holds whatever its visibility was before, because the title bar has just been given HDTB_VIS_BTN_BACK or not. |
| StateMachine.BackButtonArea | src/home/hd-render-manager.c:640-653 | The back button has a viewport area exactly when it is shown, reactive, in a shown parent and the mode is not an application mode. |
| StateMachine.StatusAreaAfterTopLeft | src/home/hd-render-manager.c:776-821 | After the sync, a shown status area sits after the top-left button the mode asks for when that button is registered, and at x = 0 otherwise. HOME with both buttons registered places it at the top-left width; the portrait modes and LAUNCHER place it at 0. |
| StateMachine.Redirected | src/home/hd-render-manager.c:1113-1122 | A request is changed only when it is TASK_NAV with an empty switcher, and then to HOME. The result is never TASK_NAV with an empty switcher. |
| StateMachine.EnterTaskNav | src/home/hd-render-manager.c:1124-1156 | Entering a switcher mode from an application whose window the switcher holds zooms out of it: the switcher range is reset to fully opaque and its opacity set to 255. Entering one from elsewhere than an application or the launcher scrolls back. Exactly the matching call is logged, and nothing else changes. |
| StateMachine.NavEvents | src/home/hd-render-manager.c:1124-1156 | At most one switcher call is made. zoom_out is called exactly on entering a switcher mode from an application whose window the switcher holds, and scroll_back exactly on entering one from neither an application mode nor the launcher. |
| StateMachine.ZoomOutStaysOpaque | src/home/hd-render-manager.c:1141-1143 | The opacity written on a zoom-out agrees with the switcher's range, so any frame that follows keeps the switcher fully opaque and shown. |
| StateMachine.ChangeEvents | src/home/hd-render-manager.c:1157-1170 | The launcher is shown exactly when it is entered and hidden exactly when it is left. The switcher pulse stops exactly when the switcher is entered or left. The current application is reset exactly on entering the switcher or launcher from outside both. |
| StateMachine.DesktopEvents | src/home/hd-render-manager.c:1198-1199 | The window manager is told to show or leave the desktop exactly when the two modes disagree on needing it, and it is told the new mode's need. |
| StateMachine.PlaceApplets | src/home/hd-render-manager.c:1172-1196 | The applets group ends in blur_front in the home-front modes and in the home view otherwise. It is shown exactly in the modes that show applets. blurred_changed is logged exactly when the group had to change parent. |
| StateMachine.Prepare | src/home/hd-render-manager.c:1104-1199 | The old mode becomes the previous one, the redirected request the current one, and the flag is raised. The applets are placed for the new mode. The log gains, in order, the switcher call, the pulse, launcher and current-application calls, the applets' blurred_changed, and the desktop call. A zoom-out leaves the switcher fully opaque. |
| StateMachine.Announce | src/home/hd-render-manager.c:1220-1229 | The screen turns exactly when one of the two modes is a portrait one, and then to the new mode's orientation. The state notification comes last. |
| StateMachine.Settle | src/home/hd-render-manager.c:1218-1231 | After the sync, the orientation change and the notification, the mode is entered (with the mode's buttons shown) and the flag is down. The same buttons stay registered. The blur is in place with the corrected set_blur step. |
| StateMachine.SetState | src/home/hd-render-manager.c:1078-1232 | Without a compositor, during another set_state, or for the current mode, nothing changes. Otherwise the mode ends as the redirected request or its portrait sibling, and the previous mode is the old one or, after a diversion, the landscape mode. The mode is entered with its chrome and applets in place, and with its blur in place given the corrected set_blur step. The re-entrancy flag is down on every return path. |
| StateMachine.Process | src/home/hd-render-manager.c:1104-1231 | A change that goes through ends in the outcome mode with the right previous mode, entered, with the blur resting given the corrected set_blur step. |
| StateMachine.Divert | src/home/hd-render-manager.c:1205-1216 | The diversion drops the flag and enters the portrait sibling, with the landscape mode recorded as the previous one, and with the blur resting given the corrected set_blur step. |
| StateMachine.SetStatePortrait | src/home/hd-render-manager.c:1235-1242 | A portrait-capable landscape mode moves to its portrait sibling, with the old mode recorded as the previous one. |
| StateMachine.SetStateUnportrait | src/home/hd-render-manager.c:1245-1252 | APP_PORTRAIT moves to APP and HOME_PORTRAIT to HOME, which is not diverted back, with the old mode recorded as the previous one. |
| StateMachine.Update | src/home/hd-render-manager.c:1988-1991 | The mode stays, and the title bar shows the mode's buttons again. |
| StateMachine.IgnoredWhileChanging | src/home/hd-render-manager.c:1098-1103 | A call made during another set_state changes nothing, whatever was asked. |
| StateMachine.EmptySwitcherGoesHome | src/home/hd-render-manager.c:1113-1122 | Asking for an empty switcher lands on HOME, or on its portrait sibling when diverted, and never on TASK_NAV. |
| StateMachine.RestackAll | src/home/hd-render-manager.c:1378-1572 | The groups are those of the two passes, and visibilities are as the visibility pass decides. blurred_changed is called exactly when home_blur's children changed. The mode, the animator and the title bar stay. |

## Left out

- Geometry.IsVisible: every blocker must have a positive height and a non-negative bottom edge. With a zero-height blocker on the probe's bottom edge the source recurses on its own arguments forever. A negative bottom edge is compared as an unsigned number there. Visibility.ValidView (every actor has a positive height) makes the visibility pass build only such blockers.
- Floating point: the `Range` values are `real`. The per-frame progress `frame/n_frames` is exact, and RenderManager.OnNewFrame requires at least one frame.
- The Clutter scene graph is reduced to the two layer groups' order, every actor's parent and the set of shown actors. The stacking of the top-level children (app_top and front raised, blur_front lowered below app_top) and of the status area and status menu is not modelled.
- Tidy blur-group rendering (the radius, saturation, brightness and zoom pushes) and the switcher's scale are not modelled. The frame callback's opacity truncation is.
- The title bar's content (`hd_title_bar_update`) and the dialog title's text are not modelled. Only the x positions the layout computes are kept.
- hd-title-bar.c and hd-home.c are not part of this model. `hd_title_bar_set_state` is taken to show exactly the task navigator, launcher and back buttons whose HDTB_VIS_BTN_* bit is set and to hide the others. `hd_home_hide_edit_button` is taken to hide the edit button through `hd_render_manager_set_visible`.
- Calls into the window manager, the compositor, the home view, the launcher and the task navigator are events in a log: sync_stacking, show_desktop, orientation change, zoom_out, scroll_back, launcher show/hide/transition stop, hide_edit_button, and the state notification.
- `hd_task_navigator_is_empty`, `hd_comp_mgr_should_be_portrait` and the visible-main-client lookup behind the zoom-out are inputs.
- `hd_home_update_layout`, called after set_blur in the home and edit modes (lines 716 and 724), is not modelled: it lays out the home view's own content, which no modelled state reads.
- `zoom_out_completed` is not modelled, because it only drops a reference.
- The `__i386__` check `hd_transition_actor_will_go_away` in the visibility pass is not modelled: the model always hides a child found invisible.
- The button order: the header defining HDRMButtonEnum is not part of this model, so the buttons are assumed to be numbered task switcher, launcher, back, edit.
- GObject type registration, properties, signals, creation and finalize, `get_state`, `get_state_str`, `is_changing_state`, `in_transition`, and the plain getters of the title bar, status area and front group are not modelled: they read a field and nothing more.
- `set_status_area`, `set_status_menu`, `set_operator`, `add_to_front_group`, `set_reactive` and `is_client_visible` are not modelled: they only reference actors and forward to Clutter.
- The transition configuration file is a map of keys to values. A missing key yields the caller's default.
- StateMachine.SetState does not state that the event log only grows. Its three mutually recursive layers keep the verifier's work small without it. Each stage it is built from (Prepare, Settle, SyncBefore) states the growth itself.
- StateMachine.Settle states the orientation change as the second-to-last event rather than naming every event before it. The events the sync emits before it are left unconstrained.
- RenderManager.StopTransition: its Resting ensures comes through the corrected set_blur step, as for RenderManager.SetBlur. Also, in an application mode where the stack asks for a different background bit, the completion's after-sync starts a new timeline. Only the animator invariant is stated for that case, not settled ranges.
- RenderManager.SetBlur: runs the corrected Blur.BlurStep (see Findings), so its animator-invariant ensures holds for the corrected program, not the one as written. As written, stopping a playing timeline when nothing is left to animate leaves timeline_playing raised with the effect flag down. Blur.CorrectionOnlyLowersFlag shows that this flag is the only difference, and that the ranges still rest on their targets whenever it is down.
- RenderManager.SyncAfter: its Resting ensures comes through the corrected set_blur step, as for RenderManager.SetBlur.
- RenderManager.UpdateBlurState: its Resting ensures comes through the corrected set_blur step, as for RenderManager.SetBlur.
- RenderManager.SetBackground: its Resting ensures comes through the corrected set_blur step, as for RenderManager.SetBlur.
- RenderManager.SetLauncherSubview: its Resting ensures comes through the corrected set_blur step, as for RenderManager.SetBlur.
- RenderManager.OnCompleted: its Resting ensures comes through the corrected set_blur step, as for RenderManager.SetBlur.
- RenderManager.FinishTimeline: its Resting ensures comes through the corrected set_blur step, as for RenderManager.SetBlur.
- StateMachine.ApplyLook: its Resting ensures comes through the corrected set_blur step, as for RenderManager.SetBlur.
- StateMachine.SyncDisplay: its Resting ensures comes through the corrected set_blur step, as for RenderManager.SetBlur.
- StateMachine.BeforeDisplay: its Resting ensures comes through the corrected set_blur step, as for RenderManager.SetBlur.
- StateMachine.SyncChrome: its Resting ensures comes through the corrected set_blur step, as for RenderManager.SetBlur.
- StateMachine.SyncBefore: its Resting ensures comes through the corrected set_blur step, as for RenderManager.SetBlur.
- StateMachine.Settle: Entered includes Resting, which comes through the corrected set_blur step, as for RenderManager.SetBlur.
- StateMachine.SetState: Entered includes Resting, which comes through the corrected set_blur step, as for RenderManager.SetBlur.
- StateMachine.Process: Entered includes Resting, which comes through the corrected set_blur step, as for RenderManager.SetBlur.
- StateMachine.Divert: Entered includes Resting, which comes through the corrected set_blur step, as for RenderManager.SetBlur.
- The `g_assert` and `g_error` paths (an unset button, a second assignment, UNDEFINED in the sync, a missing status area client) are preconditions. The `g_warning`-only paths leave the state unchanged.

## Findings

| source | as written | input that shows it | evidently intended | confidence | as-written member | corrected member |
|---|---|---|---|---|---|---|
| src/home/hd-render-manager.c:551-615 | Stopping a playing timeline lowers the effect-running flag but leaves `timeline_playing` TRUE. When the new targets need no animation, set_blur returns without starting a timeline, so the flag stays TRUE with nothing playing and no completion to come. | set_blur(BLUR_HOME) from the initial state, then set_blur(BLUR_NONE) before the first frame. | `timeline_playing` is cleared when the timeline is stopped, so the flag is TRUE exactly while a timeline plays. | medium; not executed | Blur.BlurStepAsWritten, Blur.StaleTimelineFlag | Blur.BlurStep, Blur.NoStaleTimelineFlag, Blur.CorrectionOnlyLowersFlag |

The rest of the model, from RenderManager.SetBlur upwards, runs the corrected step; the lines under "## Left out" name each member whose animator-invariant ensures depends on it.
