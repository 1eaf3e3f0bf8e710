/**
 * The render manager's layer groups as sequences of actor ids, bottom first:
 * home_blur (blurred: home, application windows, blur_front) and app_top
 * (unblurred dialogs), plus every actor's parent and the set<ActorId> of shown actors.
 */
module Scene {

  /** An actor the render manager moves around. */
  datatype ActorId =
    | HomeActor          // the HdHome view
    | BlurFrontActor     // the blur_front group (title bar, edit button, operator)
    | HomeFrontActor     // the applets group returned by hd_home_get_front
    | WindowActor(n: nat)

  /** Where an actor is parented. */
  datatype Parent =
    | NoParent
    | HomeBlurGroup
    | AppTopGroup
    | DesktopGroup(n: int)   // the n-th desktop group of the compositor
    | TopGroup               // the render manager itself
    | BlurFrontGroup
    | HomeGroup
    | OtherGroup             // anything else (applet containers, the task navigator, ...)

  datatype Scene = Scene(
    homeBlur: seq<ActorId>,
    appTop: seq<ActorId>,
    parent: map<ActorId, Parent>,
    visible: set<ActorId>,
    homeBlurShown: bool)

  function ParentOf(sc: Scene, a: ActorId): Parent {
    if a in sc.parent then sc.parent[a] else NoParent
  }

  /** Each group lists exactly the actors parented to it, once each. */
  predicate Valid(sc: Scene) {
    NoDup(sc.homeBlur) && NoDup(sc.appTop)
    && (forall a :: a in sc.homeBlur ==> ParentOf(sc, a) == HomeBlurGroup)
    && (forall a :: a in sc.parent && sc.parent[a] == HomeBlurGroup ==> a in sc.homeBlur)
    && (forall a :: a in sc.appTop ==> ParentOf(sc, a) == AppTopGroup)
    && (forall a :: a in sc.parent && sc.parent[a] == AppTopGroup ==> a in sc.appTop)
  }


  predicate NoDup(s: seq<ActorId>) {
    forall i, j :: 0 <= i < j < |s| ==> s[i] != s[j]
  }

  /** s with the elements of t dropped, the rest kept in order. */
  function Without(s: seq<ActorId>, t: set<ActorId>): (r: seq<ActorId>)
    ensures forall x {:trigger x in r} :: x in r <==> x in s && x !in t
    ensures |r| <= |s|
  {
    if s == [] then [] else (if s[0] in t then [] else [s[0]]) + Without(s[1..], t)
  }

  lemma {:induction false} WithoutAppend(a: seq<ActorId>, b: seq<ActorId>, t: set<ActorId>)
    ensures Without(a + b, t) == Without(a, t) + Without(b, t)
  {
    if a == [] {
      assert a + b == b;
    } else {
      assert (a + b)[0] == a[0];
      assert (a + b)[1..] == a[1..] + b;
      WithoutAppend(a[1..], b, t);
    }
  }

  /** Dropping elements that do not occur changes nothing. */
  lemma {:induction false} WithoutAbsent(s: seq<ActorId>, t: set<ActorId>)
    requires forall i :: 0 <= i < |s| ==> s[i] !in t
    ensures Without(s, t) == s
  {
    if s != [] {
      WithoutAbsent(s[1..], t);
    }
  }

  lemma {:induction false} WithoutNoDup(s: seq<ActorId>, t: set<ActorId>)
    requires NoDup(s)
    ensures NoDup(Without(s, t))
  {
    if s != [] {
      assert NoDup(s[1..]) by {
        forall i, j | 0 <= i < j < |s[1..]| ensures s[1..][i] != s[1..][j] {
          assert s[1..][i] == s[i + 1] && s[1..][j] == s[j + 1];
        }
      }
      WithoutNoDup(s[1..], t);
      var rest := Without(s[1..], t);
      assert s[0] !in s[1..] by {
        forall k | 0 <= k < |s[1..]| ensures s[1..][k] != s[0] {
          assert s[1..][k] == s[k + 1];
        }
      }
      assert s[0] !in rest;
      NoDupCons(if s[0] in t then [] else [s[0]], rest);
    }
  }

  lemma NoDupCons(h: seq<ActorId>, rest: seq<ActorId>)
    requires |h| <= 1 && NoDup(rest)
    requires forall x :: x in h ==> x !in rest
    ensures NoDup(h + rest)
  {
    if |h| == 1 {
      forall i, j | 0 <= i < j < |h + rest| ensures (h + rest)[i] != (h + rest)[j] {
        if i == 0 {
          assert (h + rest)[0] == h[0] && h[0] in h;
          assert (h + rest)[j] == rest[j - 1] && rest[j - 1] in rest;
        } else {
          assert (h + rest)[i] == rest[i - 1] && (h + rest)[j] == rest[j - 1];
        }
      }
    } else {
      assert h + rest == rest;
    }
  }

  lemma NoDupSnoc(s: seq<ActorId>, x: ActorId)
    requires NoDup(s) && x !in s
    ensures NoDup(s + [x])
  {
    forall i, j | 0 <= i < j < |s + [x]| ensures (s + [x])[i] != (s + [x])[j] {
      assert (s + [x])[i] == s[i];
    }
  }

  /** Removing one occurrence-free element from a duplicate-free sequence. */
  lemma WithoutMember(p: seq<ActorId>, x: ActorId, q: seq<ActorId>)
    requires NoDup(p + [x] + q)
    ensures Without(p + [x] + q, {x}) == p + q
  {
    MemberAbsentAround(p, x, q);
    WithoutOnlyOccurrence(p, x, q);
  }

  /** Dropping x from p + [x] + q when x occurs in neither p nor q. */
  lemma WithoutOnlyOccurrence(p: seq<ActorId>, x: ActorId, q: seq<ActorId>)
    requires x !in p && x !in q
    ensures Without(p + [x] + q, {x}) == p + q
  {
    WithoutSelf(x);
    WithoutAppend(p, [x], {x});
    WithoutNotIn(p, x);
    assert Without(p + [x], {x}) == p + [] == p;
    WithoutAppend(p + [x], q, {x});
    WithoutNotIn(q, x);
  }

  lemma WithoutSelf(x: ActorId)
    ensures Without([x], {x}) == []
  {
    assert [x][1..] == [];
  }

  /** Dropping an element that does not occur changes nothing. */
  lemma WithoutNotIn(s: seq<ActorId>, x: ActorId)
    requires x !in s
    ensures Without(s, {x}) == s
  {
    forall i | 0 <= i < |s| ensures s[i] !in {x} {
      assert s[i] in s;
    }
    WithoutAbsent(s, {x});
  }

  /** In a list without duplicates, x occurs neither before nor after its own position. */
  lemma MemberAbsentAround(p: seq<ActorId>, x: ActorId, q: seq<ActorId>)
    requires NoDup(p + [x] + q)
    ensures x !in p && x !in q
  {
    var s := p + [x] + q;
    assert s[|p|] == x;
    forall i | 0 <= i < |p| ensures p[i] != x {
      assert s[i] == p[i];
    }
    forall i | 0 <= i < |q| ensures q[i] != x {
      assert s[|p| + 1 + i] == q[i];
    }
  }

  /** Dropping t and then u is dropping both at once. */
  lemma {:induction false} WithoutTwice(s: seq<ActorId>, t: set<ActorId>, u: set<ActorId>)
    ensures Without(Without(s, t), u) == Without(s, t + u)
  {
    if s != [] {
      WithoutTwice(s[1..], t, u);
      WithoutAppend(if s[0] in t then [] else [s[0]], Without(s[1..], t), u);
    }
  }

  /** Dropping the element at position k of a duplicate-free sequence. */
  lemma WithoutAt(s: seq<ActorId>, k: nat)
    requires NoDup(s) && k < |s|
    ensures Without(s, {s[k]}) == s[..k] + s[k + 1..]
    ensures |Without(s, {s[k]})| == |s| - 1
  {
    assert s == s[..k] + [s[k]] + s[k + 1..];
    WithoutMember(s[..k], s[k], s[k + 1..]);
  }

  function Reverse(s: seq<ActorId>): (r: seq<ActorId>)
    ensures |r| == |s|
    ensures forall i :: 0 <= i < |s| ==> r[i] == s[|s| - 1 - i]
  {
    if s == [] then [] else Reverse(s[1..]) + [s[0]]
  }

  /** The groups after moving a to p, before anything is proved about them. */
  function MoveTo(sc: Scene, a: ActorId, p: Parent): Scene {
    Scene(Without(sc.homeBlur, {a}) + (if p == HomeBlurGroup then [a] else []),
          Without(sc.appTop, {a}) + (if p == AppTopGroup then [a] else []),
          sc.parent[a := p], sc.visible + {a}, sc.homeBlurShown)
  }

  lemma MoveToValid(sc: Scene, a: ActorId, p: Parent)
    requires Valid(sc)
    ensures Valid(MoveTo(sc, a, p))
  {
    PutOnTopFacts(sc.homeBlur, a, p == HomeBlurGroup);
    PutOnTopFacts(sc.appTop, a, p == AppTopGroup);
    MoveToHomeBlur(sc, a, p);
    MoveToAppTop(sc, a, p);
  }

  lemma MoveToHomeBlur(sc: Scene, a: ActorId, p: Parent)
    requires Valid(sc)
    ensures var r := MoveTo(sc, a, p);
            && (forall b :: b in r.homeBlur ==> ParentOf(r, b) == HomeBlurGroup)
            && (forall b :: b in r.parent && r.parent[b] == HomeBlurGroup ==> b in r.homeBlur)
  {
    var r := MoveTo(sc, a, p);
    forall b | b in r.homeBlur ensures ParentOf(r, b) == HomeBlurGroup {
      if b != a {
        assert b in sc.homeBlur;
      }
    }
    forall b | b in r.parent && r.parent[b] == HomeBlurGroup ensures b in r.homeBlur {
      if b != a {
        assert ParentOf(sc, b) == HomeBlurGroup;
      }
    }
  }

  lemma MoveToAppTop(sc: Scene, a: ActorId, p: Parent)
    requires Valid(sc)
    ensures var r := MoveTo(sc, a, p);
            && (forall b :: b in r.appTop ==> ParentOf(r, b) == AppTopGroup)
            && (forall b :: b in r.parent && r.parent[b] == AppTopGroup ==> b in r.appTop)
  {
    var r := MoveTo(sc, a, p);
    forall b | b in r.appTop ensures ParentOf(r, b) == AppTopGroup {
      if b != a {
        assert b in sc.appTop;
      }
    }
    forall b | b in r.parent && r.parent[b] == AppTopGroup ensures b in r.appTop {
      if b != a {
        assert ParentOf(sc, b) == AppTopGroup;
      }
    }
  }

  /**
   * clutter_actor_reparent: a leaves its group and is added on top of the new
   * one; reparenting also shows the actor.
   */
  function Reparent(sc: Scene, a: ActorId, p: Parent): (r: Scene)
    ensures Valid(sc) ==> Valid(r)
    ensures ParentOf(r, a) == p
    ensures forall b :: b != a ==> ParentOf(r, b) == ParentOf(sc, b)
    ensures r.visible == sc.visible + {a} && r.homeBlurShown == sc.homeBlurShown
    ensures Without(r.homeBlur, {a}) == Without(sc.homeBlur, {a})
    ensures Without(r.appTop, {a}) == Without(sc.appTop, {a})
    ensures p == HomeBlurGroup ==> r.homeBlur == Without(sc.homeBlur, {a}) + [a]
    ensures p == AppTopGroup ==> r.appTop == Without(sc.appTop, {a}) + [a]
    ensures p != HomeBlurGroup ==> r.homeBlur == Without(sc.homeBlur, {a})
    ensures p != AppTopGroup ==> r.appTop == Without(sc.appTop, {a})
  {
    PutOnTopFacts(sc.homeBlur, a, p == HomeBlurGroup);
    PutOnTopFacts(sc.appTop, a, p == AppTopGroup);
    if Valid(sc) then MoveToValid(sc, a, p); MoveTo(sc, a, p) else MoveTo(sc, a, p)
  }

  lemma PutOnTopFacts(s: seq<ActorId>, a: ActorId, add: bool)
    ensures NoDup(s) ==> NoDup(Without(s, {a}) + (if add then [a] else []))
    ensures Without(Without(s, {a}) + (if add then [a] else []), {a}) == Without(s, {a})
  {
    var w := Without(s, {a});
    var top: seq<ActorId> := if add then [a] else [];
    if NoDup(s) {
      WithoutNoDup(s, {a});
      if add { NoDupSnoc(w, a); } else { assert w + top == w; }
    }
    WithoutAppend(w, top, {a});
    WithoutTwice(s, {a}, {a});
    assert {a} + {a} == {a};
    assert Without(top, {a}) == [];
  }

  lemma NotInGroupsFacts(sc: Scene, a: ActorId)
    ensures Valid(sc) && ParentOf(sc, a) != HomeBlurGroup ==> Without(sc.homeBlur, {a}) == sc.homeBlur
    ensures Valid(sc) && ParentOf(sc, a) != AppTopGroup ==> Without(sc.appTop, {a}) == sc.appTop
  {
    if Valid(sc) && ParentOf(sc, a) != HomeBlurGroup {
      WithoutAbsent(sc.homeBlur, {a});
    }
    if Valid(sc) && ParentOf(sc, a) != AppTopGroup {
      WithoutAbsent(sc.appTop, {a});
    }
  }

  /** An actor of home_blur is parented to it and so is not in app_top. */
  lemma HomeBlurMember(sc: Scene, a: ActorId)
    requires Valid(sc) && a in sc.homeBlur
    ensures ParentOf(sc, a) == HomeBlurGroup && a !in sc.appTop
  {
  }

  /** The order of a's group after restacking a to the top (or the bottom), a left in place elsewhere. */
  function Restacked(s: seq<ActorId>, a: ActorId, inGroup: bool, top: bool): seq<ActorId> {
    if !inGroup then s else if top then Without(s, {a}) + [a] else [a] + Without(s, {a})
  }

  lemma RestackedFacts(s: seq<ActorId>, a: ActorId, inGroup: bool, top: bool)
    requires NoDup(s) && (inGroup ==> a in s)
    ensures NoDup(Restacked(s, a, inGroup, top))
    ensures forall b :: b in Restacked(s, a, inGroup, top) <==> b in s
    ensures Without(Restacked(s, a, inGroup, top), {a}) == Without(s, {a})
  {
    if inGroup {
      var w := Without(s, {a});
      WithoutNoDup(s, {a});
      WithoutTwice(s, {a}, {a});
      assert {a} + {a} == {a};
      if top {
        NoDupSnoc(w, a);
        WithoutAppend(w, [a], {a});
      } else {
        NoDupCons([a], w);
        WithoutAppend([a], w, {a});
      }
    }
  }

  lemma RestackValid(sc: Scene, a: ActorId, top: bool)
    requires Valid(sc)
    ensures Valid(sc.(homeBlur := Restacked(sc.homeBlur, a, ParentOf(sc, a) == HomeBlurGroup, top),
                      appTop := Restacked(sc.appTop, a, ParentOf(sc, a) == AppTopGroup, top)))
  {
    RestackedFacts(sc.homeBlur, a, ParentOf(sc, a) == HomeBlurGroup, top);
    RestackedFacts(sc.appTop, a, ParentOf(sc, a) == AppTopGroup, top);
    SameMembersValid(sc, sc.(homeBlur := Restacked(sc.homeBlur, a, ParentOf(sc, a) == HomeBlurGroup, top),
                             appTop := Restacked(sc.appTop, a, ParentOf(sc, a) == AppTopGroup, top)));
  }

  /** Reordering the groups without changing their members or any parent keeps them consistent. */
  lemma SameMembersValid(sc: Scene, r: Scene)
    requires Valid(sc) && r.parent == sc.parent && NoDup(r.homeBlur) && NoDup(r.appTop)
    requires forall b :: b in r.homeBlur <==> b in sc.homeBlur
    requires forall b :: b in r.appTop <==> b in sc.appTop
    ensures Valid(r)
  {
  }

  /** clutter_actor_raise_top: only the order inside home_blur and app_top is modelled. */
  function RaiseTop(sc: Scene, a: ActorId): (r: Scene)
    requires Valid(sc)
    ensures Valid(r)
    ensures r.parent == sc.parent && r.visible == sc.visible && r.homeBlurShown == sc.homeBlurShown
    ensures Without(r.homeBlur, {a}) == Without(sc.homeBlur, {a})
    ensures Without(r.appTop, {a}) == Without(sc.appTop, {a})
    ensures ParentOf(sc, a) == HomeBlurGroup ==> r.homeBlur == Without(sc.homeBlur, {a}) + [a]
    ensures ParentOf(sc, a) == AppTopGroup ==> r.appTop == Without(sc.appTop, {a}) + [a]
    ensures ParentOf(sc, a) != HomeBlurGroup ==> r.homeBlur == sc.homeBlur
    ensures ParentOf(sc, a) != AppTopGroup ==> r.appTop == sc.appTop
    ensures ParentOf(sc, a) != HomeBlurGroup && ParentOf(sc, a) != AppTopGroup ==> r == sc
  {
    var p := ParentOf(sc, a);
    RestackValid(sc, a, true);
    RestackedFacts(sc.homeBlur, a, p == HomeBlurGroup, true);
    RestackedFacts(sc.appTop, a, p == AppTopGroup, true);
    sc.(homeBlur := Restacked(sc.homeBlur, a, p == HomeBlurGroup, true),
        appTop := Restacked(sc.appTop, a, p == AppTopGroup, true))
  }

  /** clutter_actor_lower_bottom, with the same scope as RaiseTop. */
  function LowerBottom(sc: Scene, a: ActorId): (r: Scene)
    requires Valid(sc)
    ensures Valid(r)
    ensures r.parent == sc.parent && r.visible == sc.visible && r.homeBlurShown == sc.homeBlurShown
    ensures Without(r.homeBlur, {a}) == Without(sc.homeBlur, {a})
    ensures Without(r.appTop, {a}) == Without(sc.appTop, {a})
    ensures ParentOf(sc, a) == HomeBlurGroup ==> r.homeBlur == [a] + Without(sc.homeBlur, {a})
    ensures ParentOf(sc, a) == AppTopGroup ==> r.appTop == [a] + Without(sc.appTop, {a})
    ensures ParentOf(sc, a) != HomeBlurGroup ==> r.homeBlur == sc.homeBlur
    ensures ParentOf(sc, a) != AppTopGroup ==> r.appTop == sc.appTop
    ensures ParentOf(sc, a) != HomeBlurGroup && ParentOf(sc, a) != AppTopGroup ==> r == sc
  {
    var p := ParentOf(sc, a);
    RestackValid(sc, a, false);
    RestackedFacts(sc.homeBlur, a, p == HomeBlurGroup, false);
    RestackedFacts(sc.appTop, a, p == AppTopGroup, false);
    sc.(homeBlur := Restacked(sc.homeBlur, a, p == HomeBlurGroup, false),
        appTop := Restacked(sc.appTop, a, p == AppTopGroup, false))
  }

  function Show(sc: Scene, a: ActorId): (r: Scene)
    ensures r.visible == sc.visible + {a}
    ensures Valid(sc) ==> Valid(r)
  {
    sc.(visible := sc.visible + {a})
  }

  function Hide(sc: Scene, a: ActorId): (r: Scene)
    ensures r.visible == sc.visible - {a}
    ensures Valid(sc) ==> Valid(r)
  {
    sc.(visible := sc.visible - {a})
  }

  /** hd_render_manager_return_app: back at the bottom of home_blur, hidden. */
  function ReturnApp(sc: Scene, a: ActorId): (r: Scene)
    requires Valid(sc)
    ensures Valid(r)
    ensures ParentOf(r, a) == HomeBlurGroup && a !in r.visible
    ensures r.homeBlur == [a] + Without(sc.homeBlur, {a})
    ensures r.appTop == Without(sc.appTop, {a})
    ensures forall b :: b != a ==> ParentOf(r, b) == ParentOf(sc, b) && (b in r.visible <==> b in sc.visible)
  {
    var s1 := Reparent(sc, a, HomeBlurGroup);
    var s2 := LowerBottom(s1, a);
    assert s2.homeBlur == [a] + Without(sc.homeBlur, {a});
    assert s2.appTop == s1.appTop;
    Hide(s2, a)
  }

  /**
   * hd_render_manager_return_dialog: back on top of app_top, hidden. A
   * dialog already in app_top keeps its place, because
   * clutter_actor_reparent returns at once when the parent does not change.
   */
  function ReturnDialog(sc: Scene, a: ActorId): (r: Scene)
    requires Valid(sc)
    ensures Valid(r)
    ensures ParentOf(r, a) == AppTopGroup && a !in r.visible
    ensures ParentOf(sc, a) != AppTopGroup ==> r.appTop == Without(sc.appTop, {a}) + [a]
    ensures ParentOf(sc, a) == AppTopGroup ==> r.appTop == sc.appTop
    ensures r.homeBlur == Without(sc.homeBlur, {a})
    ensures forall b :: b != a ==> ParentOf(r, b) == ParentOf(sc, b) && (b in r.visible <==> b in sc.visible)
  {
    if ParentOf(sc, a) == AppTopGroup then
      assert a !in sc.homeBlur;
      WithoutNotIn(sc.homeBlur, a);
      Hide(sc, a)
    else Hide(Reparent(sc, a, AppTopGroup), a)
  }
}
