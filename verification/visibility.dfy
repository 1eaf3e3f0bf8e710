/**
 * hd_render_manager_set_visibilities: which actors of home_blur are shown,
 * judged against the opaque windows above them, whether home_blur itself is
 * worth drawing, the fullscreen test, and moving the status area out of the
 * way of a fullscreen window.
 */
module Visibility {
  import opened Wrappers
  import opened Geometry
  import opened Scene
  import opened Wm
  import opened Restack

  /** What the visibility pass looks at besides the scene. */
  datatype View = View(w: Wm, compMgr: bool, layout: Layout)

  /**
   * The window manager's actor map is consistent, and every actor has a
   * positive height: a zero-height opaque window would make the occlusion
   * test recurse on its own arguments.
   */
  ghost predicate ValidView(v: View) {
    ValidWm(v.w) && forall a :: v.layout.geo(a).height > 0
  }

  function Geo(v: View, a: ActorId): Rect { v.layout.geo(a) }

  predicate Opq(v: View, a: ActorId)
    requires ValidView(v)
  {
    Opaque(v.w, v.compMgr, a)
  }

  /** A rect that survives clipping is a usable blocker. */
  lemma ClippedIsBlocker(g: Rect)
    requires g.height > 0 && ClipGeo(g).Some?
    ensures Blocker(ClipGeo(g).value)
  {
  }

  /** A rect found visible lies (partly) on screen, so it can serve as a blocker. */
  lemma VisibleIsBlocker(bs: seq<Rect>, g: Rect)
    requires Blockers(bs) && g.height > 0 && IsVisible(bs, g)
    ensures Blocker(g)
  {
  }

  // ---------------------------------------------------------------------------
  // Blockers from app_top

  /**
   * hd_render_manager_append_geo_cb applied to app_top's children from the
   * bottom up: each opaque child's clipped geometry is prepended, so the
   * topmost comes first.
   */
  function TopBlockers(v: View, s: seq<ActorId>): (bs: seq<Rect>)
    requires ValidView(v)
    ensures Blockers(bs) && |bs| <= |s|
    ensures forall r :: r in bs <==> exists a :: a in s && Opq(v, a) && ClipGeo(Geo(v, a)) == Some(r)
    decreases |s|
  {
    if s == [] then []
    else
      var rest := TopBlockers(v, s[1..]);
      var g := ClipGeo(Geo(v, s[0]));
      assert forall a :: a in s[1..] ==> a in s;
      assert forall a :: a in s ==> a == s[0] || a in s[1..];
      if Opq(v, s[0]) && g.Some? then
        ClippedIsBlocker(Geo(v, s[0]));
        rest + [g.value]
      else rest
  }

  /** The topmost child of app_top, when opaque and on screen, is the first blocker. */
  lemma TopmostBlocksFirst(v: View, s: seq<ActorId>)
    requires ValidView(v) && s != []
    requires Opq(v, s[|s| - 1]) && ClipGeo(Geo(v, s[|s| - 1])).Some?
    ensures TopBlockers(v, s)[0] == ClipGeo(Geo(v, s[|s| - 1])).value
    decreases |s|
  {
    if |s| > 1 {
      assert s[1..][|s[1..]| - 1] == s[|s| - 1];
      TopmostBlocksFirst(v, s[1..]);
    }
  }

  // ---------------------------------------------------------------------------
  // The walk over home_blur

  /**
   * The loop over home_blur from position i - 1 down to the bottom, with the
   * blockers met so far: every child but blur_front is shown when visible and
   * hidden otherwise, and a shown opaque child adds its geometry in front of
   * the blockers.
   */
  function Walk(v: View, hb: seq<ActorId>, i: nat, bs: seq<Rect>, vis: set<ActorId>): (r: set<ActorId>)
    requires ValidView(v) && i <= |hb| && Blockers(bs)
    decreases i
  {
    if i == 0 then vis
    else
      var c := hb[i - 1];
      if c == BlurFrontActor then Walk(v, hb, i - 1, bs, vis)
      else if IsVisible(bs, Geo(v, c)) then
        VisibleIsBlocker(bs, Geo(v, c));
        Walk(v, hb, i - 1, if Opq(v, c) then [Geo(v, c)] + bs else bs, vis + {c})
      else Walk(v, hb, i - 1, bs, vis - {c})
  }

  /** A child that, when shown, blocks what lies below it. */
  predicate Blocks(v: View, a: ActorId, vis: set<ActorId>)
    requires ValidView(v)
  {
    a != BlurFrontActor && a in vis && Opq(v, a)
  }

  /**
   * The blockers a child below position j meets, stated from the final
   * visibilities: the shown opaque children from j up, nearest first, then
   * those of app_top.
   */
  function Above(v: View, hb: seq<ActorId>, j: nat, vis: set<ActorId>, bs0: seq<Rect>): seq<Rect>
    requires ValidView(v) && j <= |hb|
    decreases |hb| - j
  {
    if j == |hb| then bs0
    else (if Blocks(v, hb[j], vis) then [Geo(v, hb[j])] else []) + Above(v, hb, j + 1, vis, bs0)
  }

  /** Above only looks at the visibilities of the children from j up. */
  lemma {:induction false} AboveFrame(v: View, hb: seq<ActorId>, j: nat, vis1: set<ActorId>, vis2: set<ActorId>, bs0: seq<Rect>)
    requires ValidView(v) && j <= |hb|
    requires forall k :: j <= k < |hb| ==> (hb[k] in vis1 <==> hb[k] in vis2)
    ensures Above(v, hb, j, vis1, bs0) == Above(v, hb, j, vis2, bs0)
    decreases |hb| - j
  {
    if j < |hb| {
      AboveFrame(v, hb, j + 1, vis1, vis2, bs0);
    }
  }

  /** The walk decides only the children below position i other than blur_front. */
  lemma {:induction false} WalkFrame(v: View, hb: seq<ActorId>, i: nat, bs: seq<Rect>, vis: set<ActorId>, a: ActorId)
    requires ValidView(v) && i <= |hb| && Blockers(bs)
    requires a == BlurFrontActor || forall k :: 0 <= k < i ==> hb[k] != a
    ensures a in Walk(v, hb, i, bs, vis) <==> a in vis
    decreases i
  {
    if i > 0 {
      var c := hb[i - 1];
      if c == BlurFrontActor {
        WalkFrame(v, hb, i - 1, bs, vis, a);
      } else if IsVisible(bs, Geo(v, c)) {
        VisibleIsBlocker(bs, Geo(v, c));
        WalkFrame(v, hb, i - 1, if Opq(v, c) then [Geo(v, c)] + bs else bs, vis + {c}, a);
      } else {
        WalkFrame(v, hb, i - 1, bs, vis - {c}, a);
      }
    }
  }

  /**
   * Every child the walk decides is shown exactly when it is visible against
   * the blockers above it: app_top's opaque windows and the shown opaque
   * children above it in home_blur.
   */
  lemma {:induction false} WalkDecides(v: View, hb: seq<ActorId>, i: nat, bs: seq<Rect>, vis: set<ActorId>, bs0: seq<Rect>, k: nat)
    requires ValidView(v) && i <= |hb| && NoDup(hb) && Blockers(bs0)
    requires bs == Above(v, hb, i, vis, bs0) && Blockers(bs)
    requires k < i && hb[k] != BlurFrontActor
    ensures Blockers(Above(v, hb, k + 1, Walk(v, hb, i, bs, vis), bs0))
    ensures hb[k] in Walk(v, hb, i, bs, vis) <==> IsVisible(Above(v, hb, k + 1, Walk(v, hb, i, bs, vis), bs0), Geo(v, hb[k]))
    decreases i
  {
    var c := hb[i - 1];
    var bs' := if c != BlurFrontActor && IsVisible(bs, Geo(v, c)) && Opq(v, c) then [Geo(v, c)] + bs else bs;
    var vis' := if c == BlurFrontActor then vis else if IsVisible(bs, Geo(v, c)) then vis + {c} else vis - {c};
    if c != BlurFrontActor && IsVisible(bs, Geo(v, c)) {
      VisibleIsBlocker(bs, Geo(v, c));
    }
    assert Walk(v, hb, i, bs, vis) == Walk(v, hb, i - 1, bs', vis');
    var r := Walk(v, hb, i, bs, vis);
    // the children from i - 1 up keep in r the visibility they have in vis'
    forall m | i - 1 <= m < |hb| ensures hb[m] in r <==> hb[m] in vis' {
      forall q | 0 <= q < i - 1 ensures hb[q] != hb[m] {}
      WalkFrame(v, hb, i - 1, bs', vis', hb[m]);
    }
    AboveFrame(v, hb, i, vis, vis', bs0);
    assert bs' == Above(v, hb, i - 1, vis', bs0);
    AboveFrame(v, hb, i - 1, vis', r, bs0);
    if k == i - 1 {
      AboveFrame(v, hb, i, vis', r, bs0);
    } else {
      WalkDecides(v, hb, i - 1, bs', vis', bs0, k);
    }
  }

  /** A child the walk hides is hidden for good reason: every on-screen point of it lies under a blocker above it. */
  lemma HiddenIsCovered(v: View, hb: seq<ActorId>, bs0: seq<Rect>, vis: set<ActorId>, k: nat, px: int, py: int)
    requires ValidView(v) && NoDup(hb) && Blockers(bs0) && k < |hb| && hb[k] != BlurFrontActor
    requires hb[k] !in Walk(v, hb, |hb|, bs0, vis)
    requires Contains(Geo(v, hb[k]), px, py) && OnScreen(px, py)
    ensures Blockers(Above(v, hb, k + 1, Walk(v, hb, |hb|, bs0, vis), bs0))
    ensures Covered(Above(v, hb, k + 1, Walk(v, hb, |hb|, bs0, vis), bs0), px, py)
  {
    WalkDecides(v, hb, |hb|, bs0, vis, bs0, k);
    IsVisibleSound(Above(v, hb, k + 1, Walk(v, hb, |hb|, bs0, vis), bs0), Geo(v, hb[k]), px, py);
  }

  // ---------------------------------------------------------------------------
  // Fullscreen clients and the status area

  /** A client whose fullscreen window is on show. */
  predicate FullscreenShown(c: Client, vis: set<ActorId>) {
    c.cmClient && c.desktop >= 0 && c.actor.Some? && c.actor.value in vis && c.fullscreen
  }

  /** The scan from the top of the stack down to position 0, starting below position n. */
  function AnyFullscreen(stack: seq<Client>, vis: set<ActorId>, n: nat): (has: bool)
    requires n <= |stack|
    ensures has <==> exists i :: 0 <= i < n && FullscreenShown(stack[i], vis)
  {
    if n == 0 then false
    else FullscreenShown(stack[n - 1], vis) || AnyFullscreen(stack, vis, n - 1)
  }

  /** Moves the status area above the screen's top edge, unless it is already there. */
  function MoveAway(sa: StatusArea): (r: StatusArea)
    ensures sa.frame.y >= 0 ==> Bottom(r.frame) == 0 && Bottom(r.window) == 0
    ensures sa.frame.y < 0 ==> r == sa
    ensures r.frame.x == sa.frame.x && r.frame.width == sa.frame.width && r.frame.height == sa.frame.height
    ensures r.window.x == sa.window.x && r.window.width == sa.window.width && r.window.height == sa.window.height
  {
    if sa.frame.y >= 0 then StatusArea(sa.frame.(y := -(sa.frame.height as int)), sa.window.(y := -(sa.window.height as int)))
    else sa
  }

  /** Puts a status area that was moved away back at the top edge. */
  function Restore(sa: StatusArea): (r: StatusArea)
    ensures sa.frame.y < 0 ==> r.frame.y == 0 && r.window.y == 0
    ensures sa.frame.y >= 0 ==> r == sa
    ensures r.frame.x == sa.frame.x && r.frame.width == sa.frame.width && r.frame.height == sa.frame.height
    ensures r.window.x == sa.window.x && r.window.width == sa.window.width && r.window.height == sa.window.height
  {
    if sa.frame.y < 0 then StatusArea(sa.frame.(y := 0), sa.window.(y := 0)) else sa
  }

  /** A status area at the top edge comes back to where it was after being moved away. */
  lemma MoveAwayRestore(sa: StatusArea)
    requires sa.frame.y == 0 && sa.window.y == 0 && sa.frame.height > 0
    ensures Restore(MoveAway(sa)) == sa
  {
  }

  /** A status area moved away goes back to the same place after being restored. */
  lemma RestoreMoveAway(sa: StatusArea)
    requires sa.frame.y == -(sa.frame.height as int) && sa.window.y == -(sa.window.height as int) && sa.frame.height > 0
    ensures MoveAway(Restore(sa)) == sa
  {
  }

  /** Both moves are idempotent. */
  lemma MovesIdempotent(sa: StatusArea)
    ensures MoveAway(MoveAway(sa)) == MoveAway(sa)
    ensures Restore(Restore(sa)) == Restore(sa)
  {
  }

  // ---------------------------------------------------------------------------
  // The whole pass

  datatype Visibilities = Visibilities(scene: Scene, statusArea: Option<StatusArea>, fullscreen: bool)

  /** The actors shown after the walk and the fix-up of the home view. */
  function Decided(v: View, sc: Scene, needDesktop: bool): (vis: set<ActorId>)
    requires ValidView(v)
  {
    var walked := Walk(v, sc.homeBlur, |sc.homeBlur|, TopBlockers(v, sc.appTop), sc.visible);
    if needDesktop then walked + {HomeActor} else walked
  }

  /** hd_render_manager_set_visibilities, up to the final input viewport update. */
  function SetVisibilities(v: View, sc: Scene, needDesktop: bool, sa: Option<StatusArea>): (r: Visibilities)
    requires ValidView(v) && Valid(sc)
    ensures Valid(r.scene)
    ensures r.scene.homeBlur == sc.homeBlur && r.scene.appTop == sc.appTop && r.scene.parent == sc.parent
    ensures r.scene.homeBlurShown <==>
              IsVisible(TopBlockers(v, sc.appTop), Rect(0, 0, v.layout.width, v.layout.height))
    ensures forall a :: a != BlurFrontActor ==> (a in r.scene.visible <==> a in Decided(v, sc, needDesktop))
    ensures needDesktop ==> HomeActor in r.scene.visible
    ensures r.fullscreen <==> exists i :: 0 <= i < |v.w.stack| && FullscreenShown(v.w.stack[i], Decided(v, sc, needDesktop))
    ensures BlurFrontActor in r.scene.visible <==> !r.fullscreen
    ensures r.statusArea.Some? <==> sa.Some?
    ensures sa.Some? && r.fullscreen ==> r.statusArea.value == MoveAway(sa.value)
    ensures sa.Some? && !r.fullscreen ==> r.statusArea.value == Restore(sa.value)
  {
    var bs0 := TopBlockers(v, sc.appTop);
    var shown := IsVisible(bs0, Rect(0, 0, v.layout.width, v.layout.height));
    var vis := Decided(v, sc, needDesktop);
    var fs := AnyFullscreen(v.w.stack, vis, |v.w.stack|);
    var sa' := match sa
      case None => None
      case Some(s) => Some(if fs then MoveAway(s) else Restore(s));
    var vis' := if fs then vis - {BlurFrontActor} else vis + {BlurFrontActor};
    Visibilities(sc.(visible := vis', homeBlurShown := shown), sa', fs)
  }
}
