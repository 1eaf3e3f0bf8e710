/**
 * hd_render_manager_restack: the bottom-up pass that moves window actors
 * between their desktop group, home_blur and app_top; the top-down pass that
 * lifts unmaximized windows above the blur; and the check whether home_blur
 * changed.
 */
module Restack {
  import opened Wrappers
  import opened Geometry
  import opened Scene
  import opened Wm

  /**
   * Screen size, every actor's geometry and the HD_COMP_MGR_CLIENT_IS_MAXIMIZED
   * test: none of them is changed by a restack.
   */
  datatype Layout = Layout(width: nat, height: nat, geo: ActorId -> Rect, isMax: Rect -> bool)

  // ---------------------------------------------------------------------------
  // Bottom-up pass over the window manager's stack

  /** A client whose actor the pass handles. */
  predicate Eligible(c: Client) { c.cmClient && c.desktop >= 0 && c.actor.Some? }

  /** past_desktop while handling position i: the desktop client is at or below i. */
  predicate PastDesktop(w: Wm, i: nat) { w.desktop.Some? && w.desktop.value <= i }

  /** The client's actor ends up on top of home_blur. */
  predicate Lifted(sc: Scene, c: Client, past: bool) {
    Eligible(c) && past &&
    var p := ParentOf(sc, c.actor.value);
    p == DesktopGroup(c.desktop) || p == AppTopGroup || p == HomeBlurGroup
  }

  /** The client's actor goes back to its desktop group. */
  predicate Dropped(sc: Scene, c: Client, past: bool) {
    Eligible(c) && !past &&
    var p := ParentOf(sc, c.actor.value);
    p == HomeBlurGroup || p == AppTopGroup
  }

  /** One client of the bottom-up pass. */
  function Place(sc: Scene, c: Client, past: bool): (r: Scene)
    requires Valid(sc)
    ensures Valid(r)
    ensures Lifted(sc, c, past) ==>
              r.homeBlur == Without(sc.homeBlur, {c.actor.value}) + [c.actor.value]
              && r.appTop == Without(sc.appTop, {c.actor.value})
              && ParentOf(r, c.actor.value) == HomeBlurGroup
    ensures Dropped(sc, c, past) ==>
              r.homeBlur == Without(sc.homeBlur, {c.actor.value})
              && r.appTop == Without(sc.appTop, {c.actor.value})
              && ParentOf(r, c.actor.value) == DesktopGroup(c.desktop)
    ensures !Lifted(sc, c, past) && !Dropped(sc, c, past) ==>
              r.homeBlur == sc.homeBlur && r.appTop == sc.appTop && r.parent == sc.parent
    ensures forall b :: (c.actor.None? || b != c.actor.value) ==> ParentOf(r, b) == ParentOf(sc, b)
  {
    if !Eligible(c) then sc
    else
      var a := c.actor.value;
      var p := ParentOf(sc, a);
      NotInGroupsFacts(sc, a);
      if past then
        var s1 := if p == DesktopGroup(c.desktop) || p == AppTopGroup then Reparent(sc, a, HomeBlurGroup) else sc;
        if p != NoParent then RaiseTop(s1, a) else s1
      else if p == HomeBlurGroup || p == AppTopGroup then Reparent(sc, a, DesktopGroup(c.desktop))
      else sc
  }

  /** The bottom-up pass from stack position i. */
  function Pass1(sc: Scene, w: Wm, i: nat): (r: Scene)
    requires Valid(sc) && i <= |w.stack|
    ensures Valid(r)
    decreases |w.stack| - i
  {
    if i == |w.stack| then sc
    else Pass1(Place(sc, w.stack[i], PastDesktop(w, i)), w, i + 1)
  }

  /** The actor client c moves, if any. */
  function MovedBy(sc: Scene, c: Client, past: bool): set<ActorId> {
    if Lifted(sc, c, past) || Dropped(sc, c, past) then {c.actor.value} else {}
  }

  /** The actor client c puts on top of home_blur, if any. */
  function LiftedBy(sc: Scene, c: Client, past: bool): seq<ActorId> {
    if Lifted(sc, c, past) then [c.actor.value] else []
  }

  /** The actors the pass moves, from position i up, judged by their parents in sc. */
  function Touched(sc: Scene, w: Wm, i: nat): set<ActorId>
    decreases |w.stack| - i
  {
    if i >= |w.stack| then {}
    else MovedBy(sc, w.stack[i], PastDesktop(w, i)) + Touched(sc, w, i + 1)
  }

  /** The actors lifted onto home_blur, from position i up, in stack order. */
  function LiftedSeq(sc: Scene, w: Wm, i: nat): seq<ActorId>
    decreases |w.stack| - i
  {
    if i >= |w.stack| then []
    else LiftedBy(sc, w.stack[i], PastDesktop(w, i)) + LiftedSeq(sc, w, i + 1)
  }

  /** One client's placement, stated through the actor it moves and the actor it lifts. */
  lemma PlaceShape(sc: Scene, c: Client, past: bool)
    requires Valid(sc)
    ensures Place(sc, c, past).homeBlur == Without(sc.homeBlur, MovedBy(sc, c, past)) + LiftedBy(sc, c, past)
    ensures Place(sc, c, past).appTop == Without(sc.appTop, MovedBy(sc, c, past))
  {
    if !Lifted(sc, c, past) && !Dropped(sc, c, past) {
      WithoutAbsent(sc.homeBlur, {});
      WithoutAbsent(sc.appTop, {});
    }
  }

  /** Two removals followed by two appends, merged into one of each. */
  lemma ComposeStep(s: seq<ActorId>, t: set<ActorId>, l: seq<ActorId>, t': set<ActorId>, l': seq<ActorId>)
    requires forall x :: x in l ==> x !in t'
    ensures Without(Without(s, t) + l, t') + l' == Without(s, t + t') + (l + l')
  {
    WithoutAppend(Without(s, t), l, t');
    WithoutAbsent(l, t');
    WithoutTwice(s, t, t');
  }

  /** No two handled clients share an actor. */
  predicate DistinctActors(w: Wm) {
    forall j, k :: 0 <= j < k < |w.stack| && Eligible(w.stack[j]) && Eligible(w.stack[k]) ==>
      w.stack[j].actor != w.stack[k].actor
  }

  predicate SameParents(s1: Scene, s2: Scene, w: Wm, i: nat) {
    forall k :: i <= k < |w.stack| && Eligible(w.stack[k]) ==>
      ParentOf(s1, w.stack[k].actor.value) == ParentOf(s2, w.stack[k].actor.value)
  }

  lemma {:induction false} SameParentsSameMoves(s1: Scene, s2: Scene, w: Wm, i: nat)
    requires SameParents(s1, s2, w, i)
    ensures Touched(s1, w, i) == Touched(s2, w, i) && LiftedSeq(s1, w, i) == LiftedSeq(s2, w, i)
    decreases |w.stack| - i
  {
    if i < |w.stack| {
      SameParentSameMove(s1, s2, w.stack[i], PastDesktop(w, i));
      SameParentsSameMoves(s1, s2, w, i + 1);
    }
  }

  /** A client's move depends only on its own actor's parent. */
  lemma SameParentSameMove(s1: Scene, s2: Scene, c: Client, past: bool)
    requires Eligible(c) ==> ParentOf(s1, c.actor.value) == ParentOf(s2, c.actor.value)
    ensures MovedBy(s1, c, past) == MovedBy(s2, c, past) && LiftedBy(s1, c, past) == LiftedBy(s2, c, past)
  {
  }

  lemma {:induction false} NotTouchedLater(sc: Scene, w: Wm, i: nat, j: nat)
    requires DistinctActors(w) && j < i && j < |w.stack| && Eligible(w.stack[j])
    ensures w.stack[j].actor.value !in Touched(sc, w, i)
    decreases |w.stack| - i
  {
    if i < |w.stack| {
      NotTouchedLater(sc, w, i + 1, j);
    }
  }

  /** Placing client i leaves the parents of the later clients' actors alone. */
  lemma PlaceFrame(sc: Scene, w: Wm, i: nat)
    requires Valid(sc) && DistinctActors(w) && i < |w.stack|
    ensures SameParents(Place(sc, w.stack[i], PastDesktop(w, i)), sc, w, i + 1)
  {
    var c := w.stack[i];
    forall k | i + 1 <= k < |w.stack| && Eligible(w.stack[k])
      ensures ParentOf(Place(sc, c, PastDesktop(w, i)), w.stack[k].actor.value) == ParentOf(sc, w.stack[k].actor.value)
    {
      if Eligible(c) {
        assert w.stack[i].actor != w.stack[k].actor;
      }
    }
  }

  /**
   * The shape of the groups after the bottom-up pass: the moved actors leave
   * home_blur and app_top, and the lifted ones are stacked on top of home_blur
   * in the window manager's stacking order.
   */
  lemma {:induction false} Pass1Shape(sc: Scene, w: Wm, i: nat)
    requires Valid(sc) && i <= |w.stack| && DistinctActors(w)
    ensures Pass1(sc, w, i).homeBlur == Without(sc.homeBlur, Touched(sc, w, i)) + LiftedSeq(sc, w, i)
    ensures Pass1(sc, w, i).appTop == Without(sc.appTop, Touched(sc, w, i))
    decreases |w.stack| - i
  {
    if i == |w.stack| {
      WithoutAbsent(sc.homeBlur, {});
      WithoutAbsent(sc.appTop, {});
    } else {
      var c := w.stack[i];
      var past := PastDesktop(w, i);
      var sc' := Place(sc, c, past);
      Pass1Step(sc, w, i);
      Pass1Shape(sc', w, i + 1);
      ComposeStep(sc.homeBlur, MovedBy(sc, c, past), LiftedBy(sc, c, past), Touched(sc', w, i + 1), LiftedSeq(sc', w, i + 1));
      WithoutTwice(sc.appTop, MovedBy(sc, c, past), Touched(sc', w, i + 1));
    }
  }

  /** One client of the bottom-up pass, and what the rest of the pass sees afterwards. */
  lemma Pass1Step(sc: Scene, w: Wm, i: nat)
    requires Valid(sc) && i < |w.stack| && DistinctActors(w)
    ensures var c := w.stack[i]; var past := PastDesktop(w, i); var sc' := Place(sc, c, past);
            && Pass1(sc, w, i) == Pass1(sc', w, i + 1)
            && Touched(sc, w, i) == MovedBy(sc, c, past) + Touched(sc', w, i + 1)
            && LiftedSeq(sc, w, i) == LiftedBy(sc, c, past) + LiftedSeq(sc', w, i + 1)
            && sc'.homeBlur == Without(sc.homeBlur, MovedBy(sc, c, past)) + LiftedBy(sc, c, past)
            && sc'.appTop == Without(sc.appTop, MovedBy(sc, c, past))
            && forall x :: x in LiftedBy(sc, c, past) ==> x !in Touched(sc', w, i + 1)
  {
    Pass1Unfold(sc, w, i);
    PlaceKeepsLater(sc, w, i);
    LiftedNotLater(sc, w, i);
    PlaceShape(sc, w.stack[i], PastDesktop(w, i));
  }

  /** The pass, the moved set and the lifted list, one client at a time. */
  lemma Pass1Unfold(sc: Scene, w: Wm, i: nat)
    requires Valid(sc) && i < |w.stack|
    ensures var c := w.stack[i]; var past := PastDesktop(w, i);
            && Pass1(sc, w, i) == Pass1(Place(sc, c, past), w, i + 1)
            && Touched(sc, w, i) == MovedBy(sc, c, past) + Touched(sc, w, i + 1)
            && LiftedSeq(sc, w, i) == LiftedBy(sc, c, past) + LiftedSeq(sc, w, i + 1)
  {
  }

  /** Placing client i changes no parent the later clients' moves depend on. */
  lemma PlaceKeepsLater(sc: Scene, w: Wm, i: nat)
    requires Valid(sc) && i < |w.stack| && DistinctActors(w)
    ensures var sc' := Place(sc, w.stack[i], PastDesktop(w, i));
            Touched(sc', w, i + 1) == Touched(sc, w, i + 1) && LiftedSeq(sc', w, i + 1) == LiftedSeq(sc, w, i + 1)
  {
    var sc' := Place(sc, w.stack[i], PastDesktop(w, i));
    PlaceFrame(sc, w, i);
    SameParentsSameMoves(sc', sc, w, i + 1);
  }

  /** The actor client i lifts is not moved again by a later client. */
  lemma LiftedNotLater(sc: Scene, w: Wm, i: nat)
    requires i < |w.stack| && DistinctActors(w)
    ensures forall x :: x in LiftedBy(sc, w.stack[i], PastDesktop(w, i)) ==> x !in Touched(sc, w, i + 1)
  {
    if Lifted(sc, w.stack[i], PastDesktop(w, i)) {
      NotTouchedLater(sc, w, i + 1, i);
    }
  }

  /** Where pass 1 leaves the actor of client k, judged by the scene before the pass. */
  function Pass1Outcome(sc: Scene, w: Wm, k: nat): Parent
    requires k < |w.stack| && Eligible(w.stack[k])
  {
    var c := w.stack[k];
    if Lifted(sc, c, PastDesktop(w, k)) then HomeBlurGroup
    else if Dropped(sc, c, PastDesktop(w, k)) then DesktopGroup(c.desktop)
    else ParentOf(sc, c.actor.value)
  }

  lemma {:induction false} Pass1KeepsOthers(sc: Scene, w: Wm, i: nat, a: ActorId)
    requires Valid(sc) && i <= |w.stack|
    requires forall k :: i <= k < |w.stack| && Eligible(w.stack[k]) ==> w.stack[k].actor.value != a
    ensures ParentOf(Pass1(sc, w, i), a) == ParentOf(sc, a)
    decreases |w.stack| - i
  {
    if i < |w.stack| {
      Pass1KeepsOthers(Place(sc, w.stack[i], PastDesktop(w, i)), w, i + 1, a);
    }
  }

  /**
   * Each handled client's actor goes on top of home_blur once the desktop has
   * been passed (if it sat in its desktop group, app_top or home_blur), back
   * to its desktop group before that (if it sat in home_blur or app_top), and
   * otherwise keeps its parent.
   */
  lemma {:induction false} Pass1Parent(sc: Scene, w: Wm, i: nat, k: nat)
    requires Valid(sc) && i <= k < |w.stack| && DistinctActors(w) && Eligible(w.stack[k])
    ensures ParentOf(Pass1(sc, w, i), w.stack[k].actor.value) == Pass1Outcome(sc, w, k)
    decreases |w.stack| - i
  {
    var sc' := Place(sc, w.stack[i], PastDesktop(w, i));
    if i < k {
      PlaceFrame(sc, w, i);
      Pass1Parent(sc', w, i + 1, k);
    } else {
      forall j | i + 1 <= j < |w.stack| && Eligible(w.stack[j])
        ensures w.stack[j].actor.value != w.stack[k].actor.value
      {
        assert w.stack[k].actor != w.stack[j].actor;
      }
      Pass1KeepsOthers(sc', w, i + 1, w.stack[k].actor.value);
    }
  }

  // ---------------------------------------------------------------------------
  // Top-down pass over home_blur

  /** home and blur_front are never moved, and a child clipped away does not exist. */
  predicate Skipped(a: ActorId, l: Layout) {
    a == HomeActor || a == BlurFrontActor || ClipGeo(l.geo(a)).None?
  }

  /** A scanned child that goes to app_top. */
  predicate Movable(a: ActorId, l: Layout) {
    !Skipped(a, l) && !l.isMax(ClipGeo(l.geo(a)).value)
  }

  /** A child after which the scan stops: maximized, or full width and touching the bottom. */
  predicate Stopper(a: ActorId, l: Layout) {
    !Skipped(a, l) &&
    var g := ClipGeo(l.geo(a)).value;
    l.isMax(g) || (g.width == l.width && Bottom(g) == l.height)
  }

  /** The children of s that stay in home_blur, in order. */
  function Kept(s: seq<ActorId>, l: Layout): seq<ActorId> {
    if s == [] then [] else (if Movable(s[0], l) then [] else [s[0]]) + Kept(s[1..], l)
  }

  /** The children of s that go to app_top, in order. */
  function MovedOut(s: seq<ActorId>, l: Layout): seq<ActorId> {
    if s == [] then [] else (if Movable(s[0], l) then [s[0]] else []) + MovedOut(s[1..], l)
  }

  /** Where the scan stops: the topmost stopper, or 0 when there is none. */
  function Cut(s: seq<ActorId>, l: Layout): (k: nat)
    ensures s == [] ==> k == 0
    ensures s != [] ==> k < |s|
    ensures forall j :: k < j < |s| ==> !Stopper(s[j], l)
    ensures k > 0 ==> Stopper(s[k], l)
  {
    if s == [] then 0
    else if Stopper(s[|s| - 1], l) then |s| - 1
    else
      var k := Cut(s[..|s| - 1], l);
      assert forall j :: k < j < |s| - 1 ==> s[..|s| - 1][j] == s[j];
      k
  }

  /**
   * What the top-down pass does with child c: a movable child goes to the
   * bottom of app_top, anything else (home, blur_front, a child clipped away,
   * a maximized window) stays where it is.
   */
  function Visit(sc: Scene, l: Layout, c: ActorId): (r: Scene)
    requires Valid(sc)
    ensures Valid(r)
  {
    if Movable(c, l) then MoveChild(sc, c) else sc
  }

  /** The top-down pass over the children below position i of home_blur; it stops after a stopper. */
  function TopDown(sc: Scene, l: Layout, i: nat): (r: Scene)
    requires Valid(sc) && i <= |sc.homeBlur|
    ensures Valid(r)
    decreases i
  {
    if i == 0 then sc
    else
      var c := sc.homeBlur[i - 1];
      var s1 := Visit(sc, l, c);
      if Stopper(c, l) then s1
      else
        WithoutAt(sc.homeBlur, i - 1);
        TopDown(s1, l, i - 1)
  }

  /**
   * A home_blur child moved to the bottom of app_top and shown, written as the
   * resulting scene; MoveChildIsReparentLower shows it is the reparent, lower
   * and show the pass performs.
   */
  function MoveChild(sc: Scene, c: ActorId): (r: Scene)
    requires Valid(sc)
    ensures Valid(r)
  {
    MoveChildIsReparentLower(sc, c);
    sc.(homeBlur := Without(sc.homeBlur, {c}), appTop := [c] + Without(sc.appTop, {c}),
        parent := sc.parent[c := AppTopGroup], visible := sc.visible + {c})
  }

  lemma MoveChildIsReparentLower(sc: Scene, c: ActorId)
    requires Valid(sc)
    ensures var r := Show(LowerBottom(Reparent(sc, c, AppTopGroup), c), c);
            Valid(r) && r == sc.(homeBlur := Without(sc.homeBlur, {c}), appTop := [c] + Without(sc.appTop, {c}),
                                  parent := sc.parent[c := AppTopGroup], visible := sc.visible + {c})
  {
    var s1 := Reparent(sc, c, AppTopGroup);
    assert s1.parent == sc.parent[c := AppTopGroup];
  }

  lemma SplitAt(s: seq<ActorId>, i: nat)
    requires 0 < i <= |s|
    ensures s[i - 1..] == [s[i - 1]] + s[i..]
    ensures s[..i] == s[..i - 1] + [s[i - 1]]
    ensures s[..i][..i - 1] == s[..i - 1]
  {
  }

  lemma KeptCons(c: ActorId, rest: seq<ActorId>, l: Layout)
    ensures Kept([c] + rest, l) == (if Movable(c, l) then [] else [c]) + Kept(rest, l)
    ensures MovedOut([c] + rest, l) == (if Movable(c, l) then [c] else []) + MovedOut(rest, l)
  {
    assert ([c] + rest)[0] == c && ([c] + rest)[1..] == rest;
  }

  /** One step of the top-down pass. */
  lemma TopDownStep(sc: Scene, l: Layout, i: nat)
    requires Valid(sc) && 0 < i <= |sc.homeBlur|
    ensures i - 1 <= |Visit(sc, l, sc.homeBlur[i - 1]).homeBlur|
    ensures Stopper(sc.homeBlur[i - 1], l) ==> TopDown(sc, l, i) == Visit(sc, l, sc.homeBlur[i - 1])
    ensures !Stopper(sc.homeBlur[i - 1], l) ==> TopDown(sc, l, i) == TopDown(Visit(sc, l, sc.homeBlur[i - 1]), l, i - 1)
  {
    WithoutAt(sc.homeBlur, i - 1);
  }

  /** Where the scan stops, one child further down. */
  lemma CutStep(s: seq<ActorId>, i: nat, l: Layout)
    requires 0 < i <= |s|
    ensures !Stopper(s[i - 1], l) ==> Cut(s[..i], l) == Cut(s[..i - 1], l)
    ensures Stopper(s[i - 1], l) ==> Cut(s[..i], l) == i - 1
  {
    assert s[..i][..i - 1] == s[..i - 1];
    assert s[..i][i - 1] == s[i - 1];
  }

  /** What the top-down pass's invariant says one child further down, when that child stays. */
  lemma ShapeKeep(hb: seq<ActorId>, l: Layout, i: nat, hb0: seq<ActorId>)
    requires 0 < i <= |hb0| && !Movable(hb0[i - 1], l)
    requires hb == hb0[..i] + Kept(hb0[i..], l)
    ensures i <= |hb| && hb[i - 1] == hb0[i - 1]
    ensures hb == hb0[..i - 1] + Kept(hb0[i - 1..], l)
    ensures MovedOut(hb0[i..], l) == MovedOut(hb0[i - 1..], l)
  {
    SplitAt(hb0, i);
    KeptCons(hb0[i - 1], hb0[i..], l);
  }

  /** The same, when that child moves to app_top. */
  lemma ShapeMove(hb: seq<ActorId>, at: seq<ActorId>, l: Layout, i: nat, hb0: seq<ActorId>, at0: seq<ActorId>)
    requires 0 < i <= |hb0| && Movable(hb0[i - 1], l)
    requires hb == hb0[..i] + Kept(hb0[i..], l) && NoDup(hb)
    requires at == MovedOut(hb0[i..], l) + at0 && hb0[i - 1] !in at
    ensures i <= |hb| && hb[i - 1] == hb0[i - 1]
    ensures Without(hb, {hb0[i - 1]}) == hb0[..i - 1] + Kept(hb0[i - 1..], l)
    ensures [hb0[i - 1]] + Without(at, {hb0[i - 1]}) == MovedOut(hb0[i - 1..], l) + at0
  {
    ShapeMoveHome(hb, l, i, hb0);
    ShapeMoveTop(at, l, i, hb0, at0);
  }

  lemma ShapeMoveHome(hb: seq<ActorId>, l: Layout, i: nat, hb0: seq<ActorId>)
    requires 0 < i <= |hb0| && Movable(hb0[i - 1], l)
    requires hb == hb0[..i] + Kept(hb0[i..], l) && NoDup(hb)
    ensures i <= |hb| && hb[i - 1] == hb0[i - 1]
    ensures Without(hb, {hb0[i - 1]}) == hb0[..i - 1] + Kept(hb0[i - 1..], l)
  {
    var c := hb0[i - 1];
    var rest := hb0[i..];
    SplitAt(hb0, i);
    KeptCons(c, rest, l);
    assert hb == hb0[..i - 1] + [c] + Kept(rest, l);
    WithoutMember(hb0[..i - 1], c, Kept(rest, l));
  }

  lemma ShapeMoveTop(at: seq<ActorId>, l: Layout, i: nat, hb0: seq<ActorId>, at0: seq<ActorId>)
    requires 0 < i <= |hb0| && Movable(hb0[i - 1], l)
    requires at == MovedOut(hb0[i..], l) + at0 && hb0[i - 1] !in at
    ensures [hb0[i - 1]] + Without(at, {hb0[i - 1]}) == MovedOut(hb0[i - 1..], l) + at0
  {
    var c := hb0[i - 1];
    var rest := hb0[i..];
    assert hb0[i - 1..] == [c] + rest;
    KeptCons(c, rest, l);
    WithoutAbsent(at, {c});
    var m := MovedOut(rest, l);
    assert MovedOut(hb0[i - 1..], l) == [c] + m;
    AppendAssoc([c], m, at0);
  }

  lemma AppendAssoc(a: seq<ActorId>, b: seq<ActorId>, c: seq<ActorId>)
    ensures (a + b) + c == a + (b + c)
  {
  }

  /** The top-down pass's invariant, one child further down. */
  lemma VisitShape(sc: Scene, l: Layout, i: nat, hb0: seq<ActorId>, at0: seq<ActorId>)
    requires Valid(sc) && 0 < i <= |hb0|
    requires sc.homeBlur == hb0[..i] + Kept(hb0[i..], l)
    requires sc.appTop == MovedOut(hb0[i..], l) + at0
    ensures i <= |sc.homeBlur| && sc.homeBlur[i - 1] == hb0[i - 1]
    ensures Visit(sc, l, hb0[i - 1]).homeBlur == hb0[..i - 1] + Kept(hb0[i - 1..], l)
    ensures Visit(sc, l, hb0[i - 1]).appTop == MovedOut(hb0[i - 1..], l) + at0
  {
    var c := hb0[i - 1];
    if Movable(c, l) {
      assert c in sc.homeBlur by {
        assert sc.homeBlur[i - 1] == hb0[..i][i - 1];
      }
      HomeBlurMember(sc, c);
      ShapeMove(sc.homeBlur, sc.appTop, l, i, hb0, at0);
    } else {
      ShapeKeep(sc.homeBlur, l, i, hb0);
    }
  }

  /**
   * The top-down pass, stated against the home_blur children hb0 it started
   * from: the children above the cut that are not maximized move, in order,
   * to the bottom of app_top; everything else stays in home_blur.
   */
  lemma {:induction false} TopDownShape(sc: Scene, l: Layout, i: nat, hb0: seq<ActorId>, at0: seq<ActorId>)
    requires Valid(sc) && i <= |hb0|
    requires sc.homeBlur == hb0[..i] + Kept(hb0[i..], l)
    requires sc.appTop == MovedOut(hb0[i..], l) + at0
    requires forall j :: i <= j < |hb0| ==> !Stopper(hb0[j], l)
    ensures i <= |sc.homeBlur|
    ensures TopDown(sc, l, i).homeBlur == hb0[..Cut(hb0[..i], l)] + Kept(hb0[Cut(hb0[..i], l)..], l)
    ensures TopDown(sc, l, i).appTop == MovedOut(hb0[Cut(hb0[..i], l)..], l) + at0
    decreases i
  {
    if i == 0 {
      assert hb0[..0] == [];
    } else if Stopper(hb0[i - 1], l) {
      TopDownStop(sc, l, i, hb0, at0);
    } else {
      var s1 := Visit(sc, l, hb0[i - 1]);
      TopDownNext(sc, l, i, hb0, at0);
      assert forall j :: i - 1 <= j < |hb0| ==> !Stopper(hb0[j], l);
      TopDownShape(s1, l, i - 1, hb0, at0);
      var k := Cut(hb0[..i - 1], l);
      assert TopDown(s1, l, i - 1).homeBlur == hb0[..k] + Kept(hb0[k..], l);
      assert TopDown(s1, l, i - 1).appTop == MovedOut(hb0[k..], l) + at0;
    }
  }

  /** The top-down pass stopping at child i - 1, which stays where it is. */
  lemma TopDownStop(sc: Scene, l: Layout, i: nat, hb0: seq<ActorId>, at0: seq<ActorId>)
    requires Valid(sc) && 0 < i <= |hb0| && Stopper(hb0[i - 1], l)
    requires sc.homeBlur == hb0[..i] + Kept(hb0[i..], l)
    requires sc.appTop == MovedOut(hb0[i..], l) + at0
    ensures i <= |sc.homeBlur|
    ensures TopDown(sc, l, i).homeBlur == hb0[..Cut(hb0[..i], l)] + Kept(hb0[Cut(hb0[..i], l)..], l)
    ensures TopDown(sc, l, i).appTop == MovedOut(hb0[Cut(hb0[..i], l)..], l) + at0
  {
    VisitShape(sc, l, i, hb0, at0);
    CutStep(hb0, i, l);
    TopDownStep(sc, l, i);
  }

  /** The top-down pass going on past child i - 1, with the invariant one child further down. */
  lemma TopDownNext(sc: Scene, l: Layout, i: nat, hb0: seq<ActorId>, at0: seq<ActorId>)
    requires Valid(sc) && 0 < i <= |hb0| && !Stopper(hb0[i - 1], l)
    requires sc.homeBlur == hb0[..i] + Kept(hb0[i..], l)
    requires sc.appTop == MovedOut(hb0[i..], l) + at0
    ensures i <= |sc.homeBlur| && Valid(Visit(sc, l, hb0[i - 1]))
    ensures Visit(sc, l, hb0[i - 1]).homeBlur == hb0[..i - 1] + Kept(hb0[i - 1..], l)
    ensures Visit(sc, l, hb0[i - 1]).appTop == MovedOut(hb0[i - 1..], l) + at0
    ensures TopDown(sc, l, i) == TopDown(Visit(sc, l, hb0[i - 1]), l, i - 1)
    ensures Cut(hb0[..i], l) == Cut(hb0[..i - 1], l)
  {
    VisitShape(sc, l, i, hb0, at0);
    CutStep(hb0, i, l);
    TopDownStep(sc, l, i);
  }

  /**
   * The whole top-down pass: with k the cut, home_blur keeps its children
   * below k and the maximized ones above it; the others land, in their order,
   * at the bottom of app_top.
   */
  lemma TopDownResult(sc: Scene, l: Layout)
    requires Valid(sc)
    ensures var hb := sc.homeBlur; var k := Cut(hb, l);
            TopDown(sc, l, |hb|).homeBlur == hb[..k] + Kept(hb[k..], l)
            && TopDown(sc, l, |hb|).appTop == MovedOut(hb[k..], l) + sc.appTop
  {
    var hb := sc.homeBlur;
    assert hb[..|hb|] == hb && hb[|hb|..] == [];
    TopDownShape(sc, l, |hb|, hb, sc.appTop);
  }

  /** Kept keeps exactly the children that are not movable. */
  lemma {:induction false} KeptMembers(s: seq<ActorId>, l: Layout)
    ensures forall a :: a in Kept(s, l) <==> a in s && !Movable(a, l)
    ensures forall a :: a in MovedOut(s, l) <==> a in s && Movable(a, l)
  {
    if s != [] {
      KeptMembers(s[1..], l);
      assert s == [s[0]] + s[1..];
    }
  }

  lemma SplitMembership(s: seq<ActorId>, k: nat, a: ActorId)
    requires k <= |s| && a in s
    ensures a in s[..k] || a in s[k..]
  {
    assert s == s[..k] + s[k..];
  }

  /**
   * Which children leave home_blur: home, blur_front, children clipped away
   * and maximized windows never do, nor does anything below the cut; every
   * other child above the cut ends up in app_top.
   */
  lemma TopDownMembers(sc: Scene, l: Layout, a: ActorId)
    requires Valid(sc) && a in sc.homeBlur
    ensures !Movable(a, l) ==> a in TopDown(sc, l, |sc.homeBlur|).homeBlur
    ensures a in sc.homeBlur[..Cut(sc.homeBlur, l)] ==> a in TopDown(sc, l, |sc.homeBlur|).homeBlur
    ensures a in sc.homeBlur[Cut(sc.homeBlur, l)..] && Movable(a, l) ==> a in TopDown(sc, l, |sc.homeBlur|).appTop
  {
    var hb := sc.homeBlur;
    var k := Cut(hb, l);
    TopDownResult(sc, l);
    KeptMembers(hb[k..], l);
    SplitMembership(hb, k, a);
  }

  // ---------------------------------------------------------------------------
  // Did home_blur change?

  /**
   * The comparison at the end of the restack: the children before the passes
   * are collected by prepending, then walked from the list's end alongside
   * the children after them.
   */
  method HomeBlurChanged(previous: seq<ActorId>, current: seq<ActorId>) returns (changed: bool)
    ensures changed <==> previous != current
  {
    var list: seq<ActorId> := [];
    var i := 0;
    while i < |previous|
      invariant 0 <= i <= |previous| && |list| == i
      invariant forall m :: 0 <= m < i ==> list[m] == previous[i - 1 - m]
    {
      list := [previous[i]] + list;
      i := i + 1;
    }
    if |list| == |current| {
      changed := false;
      var j := 0;
      while j < |current| && !changed
        invariant 0 <= j <= |current|
        invariant !changed ==> forall m :: 0 <= m < j ==> previous[m] == current[m]
        invariant changed ==> previous != current
      {
        if list[|list| - 1 - j] != current[j] {
          changed := true;
        }
        j := j + 1;
      }
    } else {
      changed := true;
    }
  }

  /** The two passes of hd_render_manager_restack, then blur_front raised inside home_blur. */
  function Arrange(sc: Scene, w: Wm, l: Layout): (r: Scene)
    requires Valid(sc)
    ensures Valid(r)
    ensures ParentOf(r, BlurFrontActor) == HomeBlurGroup ==> r.homeBlur[|r.homeBlur| - 1] == BlurFrontActor
  {
    var s1 := Pass1(sc, w, 0);
    var s2 := TopDown(s1, l, |s1.homeBlur|);
    if ParentOf(s2, BlurFrontActor) == HomeBlurGroup then RaiseTop(s2, BlurFrontActor) else s2
  }
}
