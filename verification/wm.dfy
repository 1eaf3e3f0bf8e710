/**
 * What the render manager reads from the window manager: the client stack,
 * the desktop client, and the client behind an actor (with the opacity test
 * built on it).
 */
module Wm {
  import opened Wrappers
  import opened Geometry
  import opened Scene

  /** The matchbox client types the render manager tests, with the hildon-desktop additions. */
  datatype ClientType =
    | AppClient
    | DesktopClient
    | DialogClient
    | MenuClient
    | NoteClient
    | OtherMbClient
    | HomeAppletClient       // HdWmClientTypeHomeApplet
    | AppMenuClient          // HdWmClientTypeAppMenu
    | StatusAreaClient       // HdWmClientTypeStatusArea
    | StatusMenuClient       // HdWmClientTypeStatusMenu
    | AnimationActorClient   // HdWmClientTypeAnimationActor
    | RemoteTextureClient    // HdWmClientTypeRemoteTexture

  /** The parts of an MBWindowManagerClient the render manager looks at. */
  datatype Client = Client(
    id: nat,
    kind: ClientType,
    desktop: int,              // c->desktop; negative for clients on no particular desktop
    cmClient: bool,            // c->cm_client is set
    actor: Option<ActorId>,    // the compositing client's actor
    geometry: Rect,            // c->window->geometry
    fullscreen: bool,          // the EWMH fullscreen state bit
    argb32: bool,              // c->is_argb32
    shaped: bool,              // the theme reports the client as shaped
    ignored: bool,             // hd_comp_mgr_ignore_window
    confirmationNote: bool,    // HD_IS_CONFIRMATION_NOTE
    modalBlocker: bool)        // hd_util_client_has_modal_blocker

  /**
   * The window manager: the stack bottom first, the position of the desktop
   * client in it (if any), and the stack position of the client each actor
   * carries in its HD-MBWMCompMgrClutterClient data.
   */
  datatype Wm = Wm(stack: seq<Client>, desktop: Option<nat>, attached: map<ActorId, nat>)

  /** The status area client: its frame geometry and its window's geometry. */
  datatype StatusArea = StatusArea(frame: Rect, window: Rect)

  predicate ValidWm(w: Wm) {
    forall a :: a in w.attached ==> w.attached[a] < |w.stack|
  }

  /** The client shows a through its compositing client. */
  predicate Shows(c: Client, a: ActorId) { c.cmClient && c.actor == Some(a) }

  /** The first client from position i up whose actor is a. */
  function Search(stack: seq<Client>, a: ActorId, i: nat): (k: Option<nat>)
    requires i <= |stack|
    ensures k.Some? ==> i <= k.value < |stack| && Shows(stack[k.value], a)
    ensures k.Some? ==> forall j :: i <= j < k.value ==> !Shows(stack[j], a)
    ensures k.None? ==> forall j :: i <= j < |stack| ==> !Shows(stack[j], a)
    decreases |stack| - i
  {
    if i == |stack| then None
    else if Shows(stack[i], a) then Some(i)
    else Search(stack, a, i + 1)
  }

  /** hd_render_manager_get_wm_client_from_actor, as a stack position. */
  function ClientOf(w: Wm, a: ActorId): (k: Option<nat>)
    requires ValidWm(w)
    ensures k.Some? ==> k.value < |w.stack|
    ensures a in w.attached ==> k == Some(w.attached[a])
    ensures a !in w.attached && k.Some? ==>
              Shows(w.stack[k.value], a) && forall j :: 0 <= j < k.value ==> !Shows(w.stack[j], a)
    ensures k.None? <==> a !in w.attached && forall j :: 0 <= j < |w.stack| ==> !Shows(w.stack[j], a)
  {
    if a in w.attached then Some(w.attached[a]) else Search(w.stack, a, 0)
  }

  /**
   * hd_render_manager_actor_opaque: the actor belongs to a client that is
   * neither ARGB32 nor shaped; false without a compositor or a client.
   */
  function Opaque(w: Wm, compMgr: bool, a: ActorId): (o: bool)
    requires ValidWm(w)
    ensures o <==> compMgr && ClientOf(w, a).Some?
                   && !w.stack[ClientOf(w, a).value].argb32 && !w.stack[ClientOf(w, a).value].shaped
    ensures a !in w.attached && (forall j :: 0 <= j < |w.stack| ==> !Shows(w.stack[j], a)) ==> !o
  {
    if !compMgr then false
    else match ClientOf(w, a)
      case None => false
      case Some(k) => !w.stack[k].argb32 && !w.stack[k].shaped
  }

  /** The window manager's stack holds no client whose actor is any of the special actors. */
  predicate WindowActorsOnly(w: Wm) {
    forall i :: 0 <= i < |w.stack| && w.stack[i].actor.Some? ==> w.stack[i].actor.value.WindowActor?
  }

  /** Without a client of its own, the home view is never opaque and so never blocks anything. */
  lemma HomeNeverOpaque(w: Wm, compMgr: bool)
    requires ValidWm(w) && WindowActorsOnly(w) && HomeActor !in w.attached
    ensures !Opaque(w, compMgr, HomeActor)
  {
    forall j | 0 <= j < |w.stack| ensures !Shows(w.stack[j], HomeActor) {
      if w.stack[j].actor.Some? {
        assert w.stack[j].actor.value.WindowActor?;
      }
    }
  }
}
