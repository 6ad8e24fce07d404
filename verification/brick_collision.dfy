/** Ball-against-brick resolution: the first brick in list order that is in
    contact is removed and the ball's vertical direction is reversed. */
module BrickCollision {
  import opened Wrappers
  import opened Geometry

  /** The index of the first brick for which `contact` holds, if any. */
  function FirstContact(bricks: seq<Box>, contact: Box -> bool): (r: Option<nat>)
    ensures r.Some? ==> r.value < |bricks| && contact(bricks[r.value])
    ensures r.Some? ==> forall k :: 0 <= k < r.value ==> !contact(bricks[k])
    ensures r.None? <==> forall k :: 0 <= k < |bricks| ==> !contact(bricks[k])
  {
    if |bricks| == 0 then None
    else if contact(bricks[0]) then Some(0)
    else
      match FirstContact(bricks[1..], contact)
      case None => None
      case Some(i) => Some(i + 1)
  }

  /** Removal of the first element equal to `x`, as a list removal by value does. */
  function RemoveFirst(s: seq<Box>, x: Box): (r: seq<Box>)
    requires x in s
    ensures |r| == |s| - 1
  {
    if s[0] == x then s[1..] else [s[0]] + RemoveFirst(s[1..], x)
  }

  /** Removal by value takes out exactly one copy of `x`. */
  lemma {:induction false} RemoveFirstMultiset(s: seq<Box>, x: Box)
    requires x in s
    ensures multiset(RemoveFirst(s, x)) == multiset(s) - multiset{x}
  {
    assert s == [s[0]] + s[1..];
    if s[0] != x {
      RemoveFirstMultiset(s[1..], x);
    }
  }

  /** A first element different from `x` stays in front. */
  lemma RemoveFirstSkips(s: seq<Box>, x: Box)
    requires |s| > 0 && s[0] != x && x in s[1..]
    ensures RemoveFirst(s, x) == [s[0]] + RemoveFirst(s[1..], x)
  {
  }

  /** Removing by value an element that has no equal before it deletes that very position. */
  lemma {:induction false} RemoveFirstAt(s: seq<Box>, i: nat)
    requires i < |s|
    requires s[i] !in s[..i]
    ensures RemoveFirst(s, s[i]) == s[..i] + s[i + 1..]
  {
    if i == 0 {
      assert s[..0] + s[1..] == s[1..];
    } else {
      var t := s[1..];
      assert s[..i] == [s[0]] + t[..i - 1];
      assert t[i - 1] == s[i] && t[i - 1] !in t[..i - 1];
      RemoveFirstAt(t, i - 1);
      RemoveFirstSkips(s, s[i]);
      assert t[i..] == s[i + 1..];
    }
  }

  /** The bricks that remain and the ball's velocity after the brick check. */
  datatype BrickOutcome = BrickOutcome(bricks: seq<Box>, velocity: Velocity)

  /** Functional reference of the brick check: delete the first brick in contact and
      reverse `dy`; leave everything alone when no brick is in contact. */
  function ResolveBricks(bricks: seq<Box>, contact: Box -> bool, v: Velocity): (r: BrickOutcome)
    ensures r.velocity.dx == v.dx
    ensures r.velocity.dy == v.dy || r.velocity.dy == -v.dy
    ensures |r.bricks| == |bricks| || |r.bricks| == |bricks| - 1
    ensures multiset(r.bricks) <= multiset(bricks)
  {
    match FirstContact(bricks, contact)
    case None => BrickOutcome(bricks, v)
    case Some(i) =>
      assert bricks == bricks[..i] + [bricks[i]] + bricks[i + 1..];
      BrickOutcome(bricks[..i] + bricks[i + 1..], Velocity(v.dx, -v.dy))
  }

  /** When brick `i` is the first in contact, exactly that brick goes, the others
      keep their order, `dy` is reversed and `dx` is kept. */
  lemma ResolveRemovesFirstHit(bricks: seq<Box>, contact: Box -> bool, v: Velocity, i: nat)
    requires i < |bricks| && contact(bricks[i])
    requires forall k :: 0 <= k < i ==> !contact(bricks[k])
    ensures ResolveBricks(bricks, contact, v) == BrickOutcome(bricks[..i] + bricks[i + 1..], Velocity(v.dx, -v.dy))
  {
    var f := FirstContact(bricks, contact);
    assert f.Some?;
    assert f.value == i;
  }

  /** With no brick in contact the field and the velocity are unchanged. */
  lemma ResolveMissKeepsAll(bricks: seq<Box>, contact: Box -> bool, v: Velocity)
    requires forall k :: 0 <= k < |bricks| ==> !contact(bricks[k])
    ensures ResolveBricks(bricks, contact, v) == BrickOutcome(bricks, v)
  {
  }

  /** The field shrinks exactly when some brick is in contact, and then `dy` flips. */
  lemma ResolveShrinksIffContact(bricks: seq<Box>, contact: Box -> bool, v: Velocity)
    ensures var r := ResolveBricks(bricks, contact, v);
      |r.bricks| < |bricks| <==> exists k :: 0 <= k < |bricks| && contact(bricks[k])
    ensures var r := ResolveBricks(bricks, contact, v);
      |r.bricks| < |bricks| ==> r.velocity == Velocity(v.dx, -v.dy)
  {
  }

  /** A field without repeated boxes keeps that property, and the removed brick is
      no longer there to be hit a second time. */
  lemma ResolveRemovesOnce(bricks: seq<Box>, contact: Box -> bool, v: Velocity, i: nat)
    requires i < |bricks| && FirstContact(bricks, contact) == Some(i)
    requires forall a, b :: 0 <= a < b < |bricks| ==> bricks[a] != bricks[b]
    ensures var r := ResolveBricks(bricks, contact, v);
      bricks[i] !in r.bricks &&
      forall a, b :: 0 <= a < b < |r.bricks| ==> r.bricks[a] != r.bricks[b]
  {
    var r := ResolveBricks(bricks, contact, v);
    assert r.bricks == bricks[..i] + bricks[i + 1..];
    forall a | 0 <= a < |r.bricks|
      ensures r.bricks[a] == bricks[if a < i then a else a + 1]
    {
    }
  }

  /** The loop of the source: scan the bricks in order and, at the first one in
      contact, reverse `dy`, remove that brick by value and stop. */
  method BrickCollisionCheck(bricks: seq<Box>, contact: Box -> bool, dx: real, dy: real)
    returns (remaining: seq<Box>, dx': real, dy': real)
    ensures BrickOutcome(remaining, Velocity(dx', dy')) == ResolveBricks(bricks, contact, Velocity(dx, dy))
  {
    remaining, dx', dy' := bricks, dx, dy;
    var i := 0;
    while i < |bricks|
      invariant 0 <= i <= |bricks|
      invariant forall k :: 0 <= k < i ==> !contact(bricks[k])
    {
      if contact(bricks[i]) {
        dy' := dy' * -1.0;
        assert bricks[i] !in bricks[..i];
        RemoveFirstAt(bricks, i);
        remaining := RemoveFirst(bricks, bricks[i]);
        ResolveRemovesFirstHit(bricks, contact, Velocity(dx, dy), i);
        return;
      }
      i := i + 1;
    }
    ResolveMissKeepsAll(bricks, contact, Velocity(dx, dy));
  }
}
