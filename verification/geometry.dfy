/**
 * Rectangle clipping and the occlusion test of the render manager
 * (hd_render_manager_clip_geo and hd_render_manager_is_visible).
 *
 * A rectangle is a ClutterGeometry: a signed origin and an unsigned extent.
 * Only the negative x and y half-planes count as off-screen.
 */
module Geometry {
  import opened Wrappers

  datatype Rect = Rect(x: int, y: int, width: nat, height: nat)

  function Right(r: Rect): int { r.x + r.width }

  function Bottom(r: Rect): int { r.y + r.height }

  /** The bottom edge, floored at zero: the termination measure of the occlusion test. */
  function Edge(r: Rect): nat { if Bottom(r) < 0 then 0 else Bottom(r) }

  predicate Contains(r: Rect, px: int, py: int) {
    r.x <= px < Right(r) && r.y <= py < Bottom(r)
  }

  predicate OnScreen(px: int, py: int) { 0 <= px && 0 <= py }

  /**
   * Trims the parts of g lying in the negative half-planes; None when nothing
   * is left on the x or the y axis.
   */
  function ClipGeo(g: Rect): (r: Option<Rect>)
    ensures r.None? <==> (g.x < 0 && -g.x >= g.width) || (g.y < 0 && -g.y >= g.height)
    ensures r.Some? ==> r.value.x == (if g.x < 0 then 0 else g.x) && r.value.y == (if g.y < 0 then 0 else g.y)
    ensures r.Some? ==> Right(r.value) == Right(g) && Bottom(r.value) == Bottom(g)
    ensures r.Some? && g.x >= 0 && g.y >= 0 ==> r.value == g
    ensures forall px, py :: OnScreen(px, py) ==>
              (Contains(g, px, py) <==> r.Some? && Contains(r.value, px, py))
  {
    if g.x < 0 && -g.x >= g.width then None
    else
      var gx := if g.x < 0 then Rect(0, g.y, g.width + g.x, g.height) else g;
      if gx.y < 0 && -gx.y >= gx.height then None
      else if gx.y < 0 then Some(Rect(gx.x, 0, gx.width, gx.height + gx.y))
      else Some(gx)
  }

  /**
   * What the occlusion test needs of a blocker: a positive height (a
   * zero-height blocker lying on the probe's bottom edge makes the split
   * recurse on its own arguments) and a non-negative bottom edge (the source
   * compares bottom edges as unsigned integers, which agrees with integer
   * comparison only for non-negative values).
   */
  predicate Blocker(b: Rect) { b.height > 0 && Bottom(b) >= 0 }

  predicate Blockers(bs: seq<Rect>) { forall i :: 0 <= i < |bs| ==> Blocker(bs[i]) }

  /** r lies inside b's horizontal span; blockers that do not span r are ignored. */
  predicate SpansX(b: Rect, r: Rect) { b.x <= r.x && Right(r) <= Right(b) }

  predicate Covered(bs: seq<Rect>, px: int, py: int) {
    exists i :: 0 <= i < |bs| && Contains(bs[i], px, py)
  }

  /**
   * The second clipping block run after the first split checks. None means the
   * rect is inside the blocker. A rect lying wholly below the blocker has its top
   * moved UP to the blocker's bottom edge, as the source does.
   */
  function SecondClip(b: Rect, r: Rect): (o: Option<Rect>)
    requires b.y <= Bottom(r)  // a rect wholly above the blocker has already moved on
    ensures o.Some? ==> o.value.x == r.x && o.value.width == r.width
    ensures o.Some? ==> Bottom(o.value) <= Bottom(r)
    ensures o.Some? && Blocker(b) && r.y >= 0 ==> o.value.y >= 0
    ensures forall px, py :: Contains(r, px, py) ==>
              Contains(b, px, py) || (o.Some? && Contains(o.value, px, py))
  {
    if SpansX(b, r) then
      if b.y <= r.y && Bottom(r) <= Bottom(b) then None
      else if r.y < b.y then
        if Bottom(b) >= Bottom(r) then Some(r.(height := b.y - r.y)) else Some(r)
      else Some(Rect(r.x, Bottom(b), r.width, Bottom(r) - Bottom(b)))
    else Some(r)
  }

  /** Visibility of rect against blockers, after clipping it to the screen. */
  function IsVisible(bs: seq<Rect>, rect: Rect): bool
    requires Blockers(bs)
    decreases Edge(rect), |bs|, 2
  {
    match ClipGeo(rect)
    case None => false
    case Some(c) => Scan(bs, c)
  }

  /** The loop over the blockers, for an already clipped rect. */
  function Scan(bs: seq<Rect>, r: Rect): bool
    requires Blockers(bs) && r.x >= 0 && r.y >= 0
    decreases Edge(r), |bs|, 1
  {
    if bs == [] then true
    else
      var b := bs[0];
      if !SpansX(b, r) then Scan(bs[1..], r)
      else if r.y < b.y then
        if Bottom(r) < b.y then Scan(bs[1..], r)
        else if Bottom(r) < Bottom(b) then Rest(bs, r.(height := b.y - r.y))
        else
          // split in two: the upper piece is tested against the same list
          IsVisible(bs, r.(height := b.y - r.y))
          || Rest(bs, Rect(r.x, Bottom(b), r.width, Bottom(r) - Bottom(b)))
      else if r.y < Bottom(b) then
        if Bottom(r) < Bottom(b) then false
        else Rest(bs, Rect(r.x, Bottom(b), r.width, Bottom(r) - Bottom(b)))
      else Rest(bs, r)
  }

  /** Finishes one loop iteration: the second clipping block, then the next blocker. */
  function Rest(bs: seq<Rect>, r: Rect): bool
    requires bs != [] && Blockers(bs) && r.x >= 0 && r.y >= 0 && bs[0].y <= Bottom(r)
    decreases Edge(r), |bs|, 0
  {
    match SecondClip(bs[0], r)
    case None => false
    case Some(r2) => Scan(bs[1..], r2)
  }

  lemma CoveredTail(bs: seq<Rect>, px: int, py: int)
    requires bs != [] && Covered(bs[1..], px, py)
    ensures Covered(bs, px, py)
  {
    var i :| 0 <= i < |bs[1..]| && Contains(bs[1..][i], px, py);
    assert Contains(bs[i + 1], px, py);
  }

  lemma CoveredHead(bs: seq<Rect>, px: int, py: int)
    requires bs != [] && Contains(bs[0], px, py)
    ensures Covered(bs, px, py)
  {
  }

  /**
   * The test never hides anything that can be seen: if a rect is reported
   * invisible then every on-screen point of it lies in some blocker.
   */
  lemma {:induction false} IsVisibleSound(bs: seq<Rect>, rect: Rect, px: int, py: int)
    requires Blockers(bs) && !IsVisible(bs, rect)
    requires Contains(rect, px, py) && OnScreen(px, py)
    ensures Covered(bs, px, py)
    decreases Edge(rect), |bs|, 2
  {
    var c := ClipGeo(rect).value;
    ScanSound(bs, c, px, py);
  }

  lemma {:induction false} ScanSound(bs: seq<Rect>, r: Rect, px: int, py: int)
    requires Blockers(bs) && r.x >= 0 && r.y >= 0 && !Scan(bs, r)
    requires Contains(r, px, py)
    ensures Covered(bs, px, py)
    decreases Edge(r), |bs|, 1
  {
    var b := bs[0];
    if !SpansX(b, r) || (r.y < b.y && Bottom(r) < b.y) {
      ScanSound(bs[1..], r, px, py);
      CoveredTail(bs, px, py);
    } else if r.y < b.y {
      var upper := r.(height := b.y - r.y);
      if py < b.y {
        if Bottom(r) < Bottom(b) {
          RestSound(bs, upper, px, py);
        } else {
          IsVisibleSound(bs, upper, px, py);
        }
      } else if py < Bottom(b) {
        CoveredHead(bs, px, py);
      } else {
        RestSound(bs, Rect(r.x, Bottom(b), r.width, Bottom(r) - Bottom(b)), px, py);
      }
    } else if py < Bottom(b) {
      CoveredHead(bs, px, py);
    } else if r.y < Bottom(b) {
      RestSound(bs, Rect(r.x, Bottom(b), r.width, Bottom(r) - Bottom(b)), px, py);
    } else {
      RestSound(bs, r, px, py);
    }
  }

  lemma {:induction false} RestSound(bs: seq<Rect>, r: Rect, px: int, py: int)
    requires bs != [] && Blockers(bs) && r.x >= 0 && r.y >= 0 && bs[0].y <= Bottom(r)
    requires !Rest(bs, r)
    requires Contains(r, px, py)
    ensures Covered(bs, px, py)
    decreases Edge(r), |bs|, 0
  {
    if Contains(bs[0], px, py) {
      CoveredHead(bs, px, py);
    } else {
      var r2 := SecondClip(bs[0], r).value;
      ScanSound(bs[1..], r2, px, py);
      CoveredTail(bs, px, py);
    }
  }

  /** With no blockers a rect is visible exactly when clipping leaves something. */
  lemma NoBlockersVisible(rect: Rect)
    ensures IsVisible([], rect) <==> !((rect.x < 0 && -rect.x >= rect.width) || (rect.y < 0 && -rect.y >= rect.height))
  {
  }

  /** A leading blocker that does not span the clipped rect in X changes nothing. */
  lemma DropNonSpanning(b: Rect, bs: seq<Rect>, rect: Rect)
    requires Blockers([b] + bs) && ClipGeo(rect).Some?
    requires !SpansX(b, ClipGeo(rect).value)
    ensures Blockers(bs)
    ensures IsVisible([b] + bs, rect) == IsVisible(bs, rect)
  {
    assert ([b] + bs)[1..] == bs;
    assert forall i :: 0 <= i < |bs| ==> bs[i] == ([b] + bs)[i + 1];
  }

  /** A rect inside the first blocker on both axes is hidden, whatever follows. */
  lemma InsideFirstBlockerHidden(b: Rect, bs: seq<Rect>, rect: Rect)
    requires Blockers([b] + bs)
    requires rect.x >= 0 && rect.y >= 0 && rect.height > 0
    requires SpansX(b, rect) && b.y <= rect.y && Bottom(rect) <= Bottom(b)
    ensures !IsVisible([b] + bs, rect)
  {
    var bs' := [b] + bs;
    assert bs'[0] == b;
    assert ClipGeo(rect) == Some(rect);
    if Bottom(rect) == Bottom(b) {
      var low := Rect(rect.x, Bottom(b), rect.width, 0);
      assert SecondClip(b, low) == None;
      assert !Rest(bs', low);
      assert Scan(bs', rect) == Rest(bs', low);
    }
  }

  /**
   * Removing a blocker can turn a visible rect invisible: the first blocker
   * below which the rect lies pulls the rect's top up to its bottom edge, and
   * the enlarged rect is no longer inside the second blocker.
   */
  lemma RemovingBlockerCanHide()
    ensures Blockers([Rect(0, 0, 10, 2), Rect(0, 5, 10, 5)])
    ensures IsVisible([Rect(0, 0, 10, 2), Rect(0, 5, 10, 5)], Rect(0, 5, 10, 5))
    ensures !IsVisible([Rect(0, 5, 10, 5)], Rect(0, 5, 10, 5))
  {
    var a, b := Rect(0, 0, 10, 2), Rect(0, 5, 10, 5);
    PairShows(a, b);
    SecondBlockerAloneHides(b);
  }

  lemma PairShows(a: Rect, b: Rect)
    requires a == Rect(0, 0, 10, 2) && b == Rect(0, 5, 10, 5)
    ensures Blockers([a, b]) && IsVisible([a, b], b)
  {
    assert ClipGeo(b) == Some(b);
    PairScanPassesFirst(a, b);
    PairRestEnlarges(a, b);
    EnlargedPieceVisible(b);
  }

  /** The rect lies wholly below the first blocker, so the loop goes straight to the second clip. */
  lemma PairScanPassesFirst(a: Rect, b: Rect)
    requires a == Rect(0, 0, 10, 2) && b == Rect(0, 5, 10, 5)
    ensures Blockers([a, b]) && Scan([a, b], b) == Rest([a, b], b)
  {
    assert [a, b][0] == a;
  }

  /** The second clip pulls the rect's top up to the first blocker's bottom edge. */
  lemma PairRestEnlarges(a: Rect, b: Rect)
    requires a == Rect(0, 0, 10, 2) && b == Rect(0, 5, 10, 5)
    ensures Blockers([a, b]) && Blockers([b]) && Rest([a, b], b) == Scan([b], Rect(0, 2, 10, 8))
  {
    PairBlockers(a, b);
    assert [a, b][0] == a && [a, b][1..] == [b];
    assert SecondClip(a, b) == Some(Rect(0, 2, 10, 8));
  }

  lemma PairBlockers(a: Rect, b: Rect)
    requires a == Rect(0, 0, 10, 2) && b == Rect(0, 5, 10, 5)
    ensures Blockers([a, b]) && Blockers([b])
  {
    assert Blocker(a) && Blocker(b);
  }

  lemma EnlargedPieceVisible(b: Rect)
    requires b == Rect(0, 5, 10, 5)
    ensures Blockers([b]) && Scan([b], Rect(0, 2, 10, 8))
  {
    var u := Rect(0, 2, 10, 3);
    assert ClipGeo(u) == Some(u);
    assert [b][0] == b && [b][1..] == [];
    assert SecondClip(b, u) == Some(u);
    assert Rest([b], u);
    assert Scan([b], u);
    assert IsVisible([b], u);
  }

  lemma SecondBlockerAloneHides(b: Rect)
    requires b == Rect(0, 5, 10, 5)
    ensures Blockers([b]) && !IsVisible([b], b)
  {
    assert ClipGeo(b) == Some(b);
    assert [b][0] == b;
    var low := Rect(0, 10, 10, 0);
    assert SecondClip(b, low) == None;
    assert !Rest([b], low);
    assert !Scan([b], b);
  }
}
