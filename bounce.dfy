/** The firing loop of `draw`: a laser leaves the cannon, is checked against the
    mirrors not yet consumed, and each mirror it strikes inside its span reflects
    it into a new leg. The trigonometry is supplied by the caller; everything
    else is the loop's own arithmetic and control flow. */
module Bounce {
  import opened Entities

  /** The locals of the firing loop: origin (x1, y1), angle m1 and intercept c1 of
      the current leg, the consumed-mirror mask `check`, the number of bounces
      `count`, the exit `flag`, and the legs written so far (leg k goes to laser
      slot k). `used` lists the consumed mirrors in the order they were struck;
      it is bookkeeping for the proofs and holds the same set as `check`. */
  datatype Beam = Beam(x1: real, y1: real, m1: real, c1: real, check: seq<bool>, count: nat,
                       flag: bool, legs: seq<Segment>, used: seq<nat>)

  /** The state on entry to the loop: the laser starts at the muzzle, 8 units from
      the pivot along the aim of the second cannon body. The source leaves `c1`
      unset until the first mirror test assigns it this same value. */
  function Start(g0: Cannon, g1: Cannon, trig: Trig): (s: Beam)
    ensures s.m1 == g1.rotate && s.count == 0 && !s.flag && s.legs == [] && s.used == []
    ensures s.check == [false, false, false]
  {
    var m1 := g1.rotate;
    var x1 := g0.x + (g1.x - g0.x) * trig.cos(m1);
    var y1 := g1.y + (g1.x - g0.x) * trig.sin(m1);
    Beam(x1, y1, m1, y1 - trig.tan(m1) * x1, [false, false, false], 0, false, [], [])
  }

  /** The x at which the lines a x + c1 and b x + c2 meet, for a != b. */
  function Meet(a: real, c1: real, b: real, c2: real): (x: real)
    requires a != b
    ensures a * x + c1 == b * x + c2
  {
    var x := (c2 - c1) / (a - b);
    assert x * (a - b) == c2 - c1;
    x
  }

  /** Two non-parallel lines meet at one x only. */
  lemma MeetUnique(a: real, c1: real, b: real, c2: real, x: real)
    requires a != b && a * x + c1 == b * x + c2
    ensures Meet(a, c1, b, c2) == x
  {
    var z := Meet(a, c1, b, c2);
    assert (z - x) * (a - b) == 0.0;
  }

  /** Where the line through (x1, y1) at angle m1 crosses the line of mirror `k`,
      when that point lies strictly inside the mirror's x span. Parallel lines
      never cross: in the source the division by zero yields an infinity or NaN,
      which fails the strict span test. */
  function Crossing(x1: real, y1: real, m1: real, k: Mirror, trig: Trig): (r: Option<(real, real)>)
    ensures r.Some? ==> k.x1 < r.value.0 < k.x2
    ensures r.Some? ==> r.value.1 == trig.tan(m1) * r.value.0 + (y1 - trig.tan(m1) * x1)
  {
    var c1 := y1 - trig.tan(m1) * x1;
    var d := trig.tan(m1) - trig.tan(k.m);
    if d == 0.0 then None
    else
      var x2 := Meet(trig.tan(m1), c1, trig.tan(k.m), k.c);
      var y2 := trig.tan(m1) * x2 + c1;
      if x2 > k.x1 && x2 < k.x2 then Some((x2, y2)) else None
  }

  /** The caller's tangent, as a function of the model: the lemmas about
      `Crossing` state their facts through it. */
  function Tan(trig: Trig, a: real): real
  {
    trig.tan(a)
  }

  /** A reported crossing lies on the mirror's line as well as on the leg's. */
  lemma CrossingOnMirror(x1: real, y1: real, m1: real, k: Mirror, trig: Trig)
    ensures var r := Crossing(x1, y1, m1, k, trig);
      r.Some? ==> r.value.1 == Tan(trig, k.m) * r.value.0 + k.c
  {
  }

  /** The converse of `Crossing`: when the leg and the mirror are not parallel and
      their lines meet at some x strictly inside the mirror's span, that meeting
      point is reported. */
  lemma CrossingComplete(x1: real, y1: real, m1: real, k: Mirror, trig: Trig, x: real)
    requires Tan(trig, m1) != Tan(trig, k.m) && k.x1 < x < k.x2
    requires Tan(trig, m1) * x + (y1 - Tan(trig, m1) * x1) == Tan(trig, k.m) * x + k.c
    ensures var r := Crossing(x1, y1, m1, k, trig);
      r.Some? && r.value.0 == x && r.value.1 == Tan(trig, m1) * x + (y1 - Tan(trig, m1) * x1)
  {
    MeetUnique(Tan(trig, m1), y1 - Tan(trig, m1) * x1, Tan(trig, k.m), k.c, x);
  }

  /** One turn of the inner `for` loop: mirror i, if not yet consumed, is checked.
      A strike writes a bounded leg, consumes the mirror and reflects the angle
      about the mirror's angle; a miss after at least one bounce writes the final
      unbounded leg and raises the exit flag; a miss before any bounce does nothing. */
  function Step(s: Beam, i: nat, mirrors: seq<Mirror>, trig: Trig): (r: Beam)
    requires |s.check| == 3 && i < 3 && |mirrors| == 3
    ensures |r.check| == 3
  {
    if s.check[i] then s
    else
      var c1 := s.y1 - trig.tan(s.m1) * s.x1;
      match Crossing(s.x1, s.y1, s.m1, mirrors[i], trig)
      case Some(p) =>
        var m1 := 2.0 * mirrors[i].m - s.m1;
        Beam(p.0, p.1, m1, p.1 - trig.tan(m1) * p.0, s.check[i := true], s.count + 1, s.flag,
             s.legs + [Leg(s.x1, s.y1, Some(p), s.m1, c1, trig)], s.used + [i])
      case None =>
        if s.count > 0 then
          s.(c1 := c1, flag := true, legs := s.legs + [Leg(s.x1, s.y1, None, s.m1, c1, trig)])
        else s.(c1 := c1)
  }

  /** The number of consumed mirrors. */
  function Ones(check: seq<bool>): (n: nat)
    decreases |check|
  {
    if |check| == 0 then 0 else (if check[0] then 1 else 0) + Ones(check[1..])
  }

  lemma {:induction false} OnesBound(check: seq<bool>)
    ensures Ones(check) <= |check|
    decreases |check|
  {
    if |check| > 0 {
      OnesBound(check[1..]);
    }
  }

  lemma {:induction false} OnesSet(check: seq<bool>, i: nat)
    requires i < |check| && !check[i]
    ensures Ones(check[i := true]) == Ones(check) + 1
    decreases |check|
  {
    if i > 0 {
      OnesSet(check[1..], i - 1);
      assert check[i := true][1..] == check[1..][i - 1 := true];
    }
  }

  /** A leg with no end point of its own: it runs 100 units along its angle. */
  predicate Unbounded(leg: Segment, trig: Trig)
  {
    leg.x2 == leg.x1 + 100.0 * trig.cos(leg.m) && leg.y2 == leg.y1 + 100.0 * trig.sin(leg.m)
  }

  /** Every leg's intercept is the one of the line through its start point at its angle. */
  predicate OnItsLine(leg: Segment, trig: Trig)
  {
    leg.c == leg.y1 - trig.tan(leg.m) * leg.x1
  }

  /** Leg `next` starts where `leg` ends, on mirror `k`, reflected about the mirror's angle. */
  predicate Reflects(leg: Segment, next: Segment, k: Mirror)
  {
    next.x1 == leg.x2 && next.y1 == leg.y2 && next.m == 2.0 * k.m - leg.m
  }

  /** Leg k of `legs` continues leg k - 1 off the mirror that leg k - 1 struck. */
  predicate Linked(legs: seq<Segment>, used: seq<nat>, mirrors: seq<Mirror>, k: int)
  {
    0 < k < |legs| && k - 1 < |used| && used[k - 1] < |mirrors| &&
    Reflects(legs[k - 1], legs[k], mirrors[used[k - 1]])
  }

  /** Leg k ends where its line crosses the mirror it struck, strictly inside
      that mirror's span. */
  predicate EndsOn(legs: seq<Segment>, used: seq<nat>, mirrors: seq<Mirror>, k: int, trig: Trig)
  {
    0 <= k < |legs| && k < |used| && used[k] < |mirrors| &&
    Crossing(legs[k].x1, legs[k].y1, legs[k].m, mirrors[used[k]], trig) == Some((legs[k].x2, legs[k].y2))
  }

  /** The consumed-mirror mask, the bounce count and the strike order agree. */
  predicate MaskOk(s: Beam)
  {
    && |s.check| == 3
    && s.count == Ones(s.check) && s.count <= 3
    && |s.used| == s.count
    && (forall a :: 0 <= a < |s.used| ==> s.used[a] < 3 && s.check[s.used[a]])
    && (forall k :: 0 <= k < 3 && s.check[k] ==> k in s.used)
    && (forall a, b :: 0 <= a < b < |s.used| ==> s.used[a] != s.used[b])
  }

  /** The legs written so far form a chain from the firing point (x0, y0) at angle m0,
      and the current origin is where the last bounded leg ended. */
  predicate TrailOk(s: Beam, x0: real, y0: real, m0: real, mirrors: seq<Mirror>, trig: Trig)
  {
    && |s.legs| == s.count + (if s.flag then 1 else 0)
    && s.c1 == s.y1 - trig.tan(s.m1) * s.x1
    && (s.count == 0 ==> s.x1 == x0 && s.y1 == y0 && s.m1 == m0)
    && (s.count > 0 ==> Linked(s.legs + [Segment(s.x1, 0.0, s.y1, 0.0, s.m1, 0.0)], s.used, mirrors, s.count))
    && (|s.legs| > 0 ==> s.legs[0].x1 == x0 && s.legs[0].y1 == y0 && s.legs[0].m == m0)
    && (forall k :: 0 <= k < s.count ==> EndsOn(s.legs, s.used, mirrors, k, trig))
    && (forall k :: 0 < k < |s.legs| ==> Linked(s.legs, s.used, mirrors, k))
    && (forall k :: 0 <= k < |s.legs| ==> OnItsLine(s.legs[k], trig))
    && (s.flag ==> Unbounded(s.legs[s.count], trig))
  }

  /** The invariant of the firing loop, for the firing point (x0, y0) and angle m0. */
  predicate Chained(s: Beam, x0: real, y0: real, m0: real, mirrors: seq<Mirror>, trig: Trig)
  {
    MaskOk(s) && TrailOk(s, x0, y0, m0, mirrors, trig)
  }

  lemma StartChained(g0: Cannon, g1: Cannon, mirrors: seq<Mirror>, trig: Trig)
    ensures var s := Start(g0, g1, trig); Chained(s, s.x1, s.y1, s.m1, mirrors, trig)
  {
    var s := Start(g0, g1, trig);
    assert Ones(s.check) == 0 by {
      assert s.check[1..] == [false, false];
      assert s.check[1..][1..] == [false];
      assert s.check[1..][1..][1..] == [];
    }
  }

  lemma StrikeMask(s: Beam, i: nat, r: Beam)
    requires MaskOk(s) && i < 3 && !s.check[i]
    requires r.check == s.check[i := true] && r.count == s.count + 1 && r.used == s.used + [i]
    ensures MaskOk(r)
  {
    OnesSet(s.check, i);
    OnesBound(r.check);
    assert i !in s.used;
    forall k | 0 <= k < 3 && r.check[k]
      ensures k in r.used
    {
      if k != i {
        assert k in s.used;
      } else {
        assert r.used[|s.used|] == i;
      }
    }
  }

  /** Appending a leg to the legs written so far keeps what is known about them,
      and links the new leg to the last one when it starts where the loop's
      current origin is. */
  lemma Extend(legs: seq<Segment>, leg: Segment, used: seq<nat>, used': seq<nat>, mirrors: seq<Mirror>, n: nat, trig: Trig)
    requires n <= |legs| && |used| <= |used'| && used'[..|used|] == used
    requires forall k :: 0 <= k < n ==> EndsOn(legs, used, mirrors, k, trig)
    requires forall k :: 0 < k < |legs| ==> Linked(legs, used, mirrors, k)
    requires forall k :: 0 <= k < |legs| ==> OnItsLine(legs[k], trig)
    requires OnItsLine(leg, trig)
    requires |legs| > 0 ==> Linked(legs + [Segment(leg.x1, 0.0, leg.y1, 0.0, leg.m, 0.0)], used, mirrors, |legs|)
    ensures forall k :: 0 <= k < n ==> EndsOn(legs + [leg], used', mirrors, k, trig)
    ensures forall k :: 0 < k < |legs| + 1 ==> Linked(legs + [leg], used', mirrors, k)
    ensures forall k :: 0 <= k < |legs| + 1 ==> OnItsLine((legs + [leg])[k], trig)
  {
    var r := legs + [leg];
    forall k | 0 <= k < n
      ensures EndsOn(r, used', mirrors, k, trig)
    {
      assert EndsOn(legs, used, mirrors, k, trig);
      assert r[k] == legs[k] && used'[k] == used[k];
    }
    forall k | 0 < k < |r|
      ensures Linked(r, used', mirrors, k)
    {
      if k < |legs| {
        assert Linked(legs, used, mirrors, k);
        assert r[k] == legs[k] && r[k - 1] == legs[k - 1] && used'[k - 1] == used[k - 1];
      } else {
        var t := legs + [Segment(leg.x1, 0.0, leg.y1, 0.0, leg.m, 0.0)];
        assert Linked(t, used, mirrors, k);
        assert t[k - 1] == legs[k - 1] && r[k - 1] == legs[k - 1] && used'[k - 1] == used[k - 1];
      }
    }
    forall k | 0 <= k < |r|
      ensures OnItsLine(r[k], trig)
    {
      if k < |legs| {
        assert r[k] == legs[k];
      }
    }
  }

  lemma StrikeTrail(s: Beam, i: nat, x0: real, y0: real, m0: real, mirrors: seq<Mirror>, trig: Trig, p: (real, real))
    requires |mirrors| == 3 && i < 3 && MaskOk(s) && !s.flag && !s.check[i]
    requires TrailOk(s, x0, y0, m0, mirrors, trig)
    requires Crossing(s.x1, s.y1, s.m1, mirrors[i], trig) == Some(p)
    ensures TrailOk(Step(s, i, mirrors, trig), x0, y0, m0, mirrors, trig)
  {
    var r := Step(s, i, mirrors, trig);
    var leg := Leg(s.x1, s.y1, Some(p), s.m1, s.c1, trig);
    assert r.legs == s.legs + [leg];
    assert r.used == s.used + [i];
    assert r.used[..|s.used|] == s.used;
    Extend(s.legs, leg, s.used, r.used, mirrors, s.count, trig);
    assert EndsOn(r.legs, r.used, mirrors, s.count, trig);
    var t' := r.legs + [Segment(r.x1, 0.0, r.y1, 0.0, r.m1, 0.0)];
    assert t'[r.count - 1] == leg && t'[r.count].x1 == p.0 && t'[r.count].y1 == p.1;
    assert r.used[r.count - 1] == i;
    assert Linked(t', r.used, mirrors, r.count);
  }

  lemma MissTrail(s: Beam, i: nat, x0: real, y0: real, m0: real, mirrors: seq<Mirror>, trig: Trig)
    requires |mirrors| == 3 && i < 3 && MaskOk(s) && !s.flag && !s.check[i]
    requires TrailOk(s, x0, y0, m0, mirrors, trig)
    requires Crossing(s.x1, s.y1, s.m1, mirrors[i], trig).None?
    ensures TrailOk(Step(s, i, mirrors, trig), x0, y0, m0, mirrors, trig)
  {
    if s.count > 0 {
      assert Step(s, i, mirrors, trig) == Finish(s, trig);
      FinishTrail(s, x0, y0, m0, mirrors, trig);
    }
  }

  /** One mirror test keeps the loop invariant; it adds one bounce on a strike and
      otherwise only may raise the flag, which it does exactly on a miss after a
      bounce. */
  lemma StepChained(s: Beam, i: nat, x0: real, y0: real, m0: real, mirrors: seq<Mirror>, trig: Trig)
    requires |mirrors| == 3 && i < 3
    requires Chained(s, x0, y0, m0, mirrors, trig) && !s.flag
    ensures var r := Step(s, i, mirrors, trig);
      && Chained(r, x0, y0, m0, mirrors, trig)
      && s.count <= r.count <= s.count + 1
      && (r.count == s.count ==> r.check == s.check && r.x1 == s.x1 && r.y1 == s.y1 && r.m1 == s.m1)
      && (r.count == s.count && !r.flag ==> s.check[i] || s.count == 0)
      && (s.count == 0 ==> !r.flag)
      && (s.count == 0 && r.count == 0 ==> s.check[i] || Crossing(s.x1, s.y1, s.m1, mirrors[i], trig).None?)
      && (s.count == 0 && r.count == 1 ==> Crossing(s.x1, s.y1, s.m1, mirrors[i], trig).Some?)
      && (r.flag ==> r.count == s.count)
  {
    var r := Step(s, i, mirrors, trig);
    if !s.check[i] {
      match Crossing(s.x1, s.y1, s.m1, mirrors[i], trig)
      case Some(p) =>
        StrikeMask(s, i, r);
        StrikeTrail(s, i, x0, y0, m0, mirrors, trig, p);
      case None =>
        MissTrail(s, i, x0, y0, m0, mirrors, trig);
    }
  }

  /** The final leg the loop writes when it leaves: an unbounded leg from the
      current origin at the current angle, in the next slot, with the flag raised
      and the mirrors and the count untouched. */
  function Finish(s: Beam, trig: Trig): (r: Beam)
    ensures r.flag && |r.legs| == |s.legs| + 1 && r.legs[..|s.legs|] == s.legs
    ensures Unbounded(r.legs[|s.legs|], trig)
    ensures r.legs[|s.legs|].x1 == s.x1 && r.legs[|s.legs|].y1 == s.y1 && r.legs[|s.legs|].m == s.m1
    ensures r.check == s.check && r.count == s.count && r.used == s.used
  {
    s.(flag := true, legs := s.legs + [Leg(s.x1, s.y1, None, s.m1, s.c1, trig)])
  }

  lemma FinishTrail(s: Beam, x0: real, y0: real, m0: real, mirrors: seq<Mirror>, trig: Trig)
    requires TrailOk(s, x0, y0, m0, mirrors, trig) && !s.flag
    ensures TrailOk(Finish(s, trig), x0, y0, m0, mirrors, trig)
  {
    var leg := Leg(s.x1, s.y1, None, s.m1, s.c1, trig);
    assert s.used[..|s.used|] == s.used;
    Extend(s.legs, leg, s.used, s.used, mirrors, s.count, trig);
  }

  lemma FinishChained(s: Beam, x0: real, y0: real, m0: real, mirrors: seq<Mirror>, trig: Trig)
    requires Chained(s, x0, y0, m0, mirrors, trig) && !s.flag
    ensures Chained(Finish(s, trig), x0, y0, m0, mirrors, trig)
  {
    FinishTrail(s, x0, y0, m0, mirrors, trig);
  }

  /** Mirror j is tested after mirror u and before mirror i: in the order u + 1, ..., 2
      of the current pass, then 0, 1, ... of the next. */
  predicate Between(u: int, j: int, i: int)
  {
    if u < i then u < j < i else u < j || j < i
  }

  /** The mirror the loop tests next, once the mirrors of `used` have been struck in
      that order: the first one after the last mirror struck that is not yet
      consumed, wrapping round to mirror 0 at the start of the next pass; 3 when
      every mirror is consumed. */
  function NextFree(used: seq<nat>): (n: nat)
    requires |used| > 0 && used[|used| - 1] < 3
    ensures n < 3 ==> n !in used
    ensures n < 3 ==> forall j :: 0 <= j < 3 && Between(used[|used| - 1], j, n) ==> j in used
    ensures n == 3 ==> forall j :: 0 <= j < 3 ==> j in used
  {
    var u := used[|used| - 1];
    if (u + 1) % 3 !in used then (u + 1) % 3
    else if (u + 2) % 3 !in used then (u + 2) % 3
    else 3
  }

  /** The only unconsumed mirror reached from the last one struck past consumed
      mirrors alone is `NextFree`. */
  lemma NextFreeIs(used: seq<nat>, i: nat)
    requires |used| > 0 && used[|used| - 1] < 3 && i < 3 && i !in used
    requires forall j :: 0 <= j < 3 && Between(used[|used| - 1], j, i) ==> j in used
    ensures NextFree(used) == i
  {
    var u := used[|used| - 1];
    assert u in used;
    assert Between(u, (u + 1) % 3, i) || (u + 1) % 3 == i;
    assert (u + 1) % 3 != i ==> Between(u, (u + 2) % 3, i) || (u + 2) % 3 == i;
  }

  /** What a firing produces: one to four legs for slots 0.., each mirror consumed
      at most once, the first leg leaving the firing point at the firing angle,
      every leg but the last ending where its line crosses the mirror it struck,
      strictly inside that mirror's span, and continuing, reflected, as the next
      leg, and the last leg unbounded. The mirrors are struck in the loop's order:
      the first is the lowest-numbered mirror the firing line crosses, each later
      one is the next unconsumed mirror after the one before, and the last leg
      misses the next unconsumed mirror, if any is left. Exactly one leg is
      written when no mirror is struck from the firing point. */
  predicate Fired(legs: seq<Segment>, used: seq<nat>, s0: Beam, mirrors: seq<Mirror>, trig: Trig)
    requires |mirrors| == 3
  {
    && 1 <= |legs| <= 4
    && |used| == |legs| - 1
    && (forall a :: 0 <= a < |used| ==> used[a] < 3)
    && (forall a, b :: 0 <= a < b < |used| ==> used[a] != used[b])
    && legs[0].x1 == s0.x1 && legs[0].y1 == s0.y1 && legs[0].m == s0.m1
    && (forall k :: 0 <= k < |used| ==>
          Crossing(legs[k].x1, legs[k].y1, legs[k].m, mirrors[used[k]], trig) == Some((legs[k].x2, legs[k].y2)))
    && (forall k :: 0 < k < |legs| ==> Linked(legs, used, mirrors, k))
    && (forall k :: 0 <= k < |legs| ==> OnItsLine(legs[k], trig))
    && Unbounded(legs[|legs| - 1], trig)
    && (|legs| == 1 <==> forall k :: 0 <= k < 3 ==> Crossing(s0.x1, s0.y1, s0.m1, mirrors[k], trig).None?)
    && (|used| > 0 ==> forall j :: 0 <= j < used[0] ==> Crossing(s0.x1, s0.y1, s0.m1, mirrors[j], trig).None?)
    && (forall k :: 0 < k < |used| ==> used[k] == NextFree(used[..k]))
    && (|used| > 0 && NextFree(used) < 3 ==>
          Crossing(legs[|used|].x1, legs[|used|].y1, legs[|used|].m, mirrors[NextFree(used)], trig).None?)
  }

  /** Each mirror struck after the first is the next unconsumed one after the
      mirror struck before it. */
  predicate StrikeOrder(used: seq<nat>)
  {
    && (forall a :: 0 <= a < |used| ==> used[a] < 3)
    && (forall k :: 0 < k < |used| ==> used[k] == NextFree(used[..k]))
  }

  /** Striking the next unconsumed mirror keeps the strike order. */
  lemma StrikeOrderNext(used: seq<nat>, i: nat)
    requires StrikeOrder(used) && i < 3 && i !in used
    requires |used| > 0 ==> forall j :: 0 <= j < 3 && Between(used[|used| - 1], j, i) ==> j in used
    ensures StrikeOrder(used + [i])
  {
    var u' := used + [i];
    if |used| > 0 {
      NextFreeIs(used, i);
    }
    forall k | 0 < k < |u'|
      ensures u'[k] == NextFree(u'[..k])
    {
      if k < |used| {
        assert u'[..k] == used[..k];
      } else {
        assert u'[..k] == used;
      }
    }
  }

  /** The first mirror struck is the lowest-numbered one the firing line crosses. */
  predicate FirstStrike(used: seq<nat>, s0: Beam, mirrors: seq<Mirror>, trig: Trig)
    requires |mirrors| == 3
  {
    |used| > 0 ==>
      && used[0] < 3
      && Crossing(s0.x1, s0.y1, s0.m1, mirrors[used[0]], trig).Some?
      && forall j :: 0 <= j < used[0] ==> Crossing(s0.x1, s0.y1, s0.m1, mirrors[j], trig).None?
  }

  /** The first strike stays the first as later strikes are appended. */
  lemma FirstStrikeKept(used: seq<nat>, used': seq<nat>, s0: Beam, mirrors: seq<Mirror>, trig: Trig)
    requires |mirrors| == 3 && FirstStrike(used, s0, mirrors, trig)
    requires 0 < |used| <= |used'| && used'[0] == used[0]
    ensures FirstStrike(used', s0, mirrors, trig)
  {
  }

  /** The beam still at the firing point strikes mirror i, all lower-numbered ones
      having been missed: i is the first strike. */
  lemma FirstStrikeNew(i: nat, s0: Beam, mirrors: seq<Mirror>, trig: Trig)
    requires |mirrors| == 3 && i < 3
    requires forall k :: 0 <= k < i ==> Crossing(s0.x1, s0.y1, s0.m1, mirrors[k], trig).None?
    requires Crossing(s0.x1, s0.y1, s0.m1, mirrors[i], trig).Some?
    ensures FirstStrike([i], s0, mirrors, trig)
  {
  }

  /** A final leg written after a bounce misses the next unconsumed mirror. */
  predicate FinalMiss(legs: seq<Segment>, used: seq<nat>, mirrors: seq<Mirror>, trig: Trig)
    requires |mirrors| == 3
  {
    0 < |used| < |legs| && used[|used| - 1] < 3 && NextFree(used) < 3 ==>
      Crossing(legs[|used|].x1, legs[|used|].y1, legs[|used|].m, mirrors[NextFree(used)], trig).None?
  }

  /** What a firing says about its bounded leg j: the mirror it struck, where it
      ends, where the next leg starts, and why that mirror was the one struck. */
  lemma FiredAt(l: seq<Segment>, u: seq<nat>, s0: Beam, mirrors: seq<Mirror>, trig: Trig, j: nat)
    requires |mirrors| == 3 && Fired(l, u, s0, mirrors, trig) && j < |u|
    ensures u[j] < 3 && j + 1 < |l|
    ensures Crossing(l[j].x1, l[j].y1, l[j].m, mirrors[u[j]], trig) == Some((l[j].x2, l[j].y2))
    ensures l[j + 1].x1 == l[j].x2 && l[j + 1].y1 == l[j].y2 && l[j + 1].m == 2.0 * mirrors[u[j]].m - l[j].m
    ensures j == 0 ==> Crossing(s0.x1, s0.y1, s0.m1, mirrors[u[0]], trig).Some?
    ensures j == 0 ==> forall i :: 0 <= i < u[0] ==> Crossing(s0.x1, s0.y1, s0.m1, mirrors[i], trig).None?
    ensures j > 0 ==> u[j] == NextFree(u[..j])
  {
    assert Linked(l, u, mirrors, j + 1);
  }

  /** What is known, during the firing loop, about the order of the strikes: while
      no mirror has been struck the beam is still at the firing point, the strikes
      follow the loop's order, and a final leg misses the next unconsumed mirror. */
  predicate Ordered(s: Beam, s0: Beam, mirrors: seq<Mirror>, trig: Trig)
    requires |mirrors| == 3
  {
    && (s.count == 0 ==> s.x1 == s0.x1 && s.y1 == s0.y1 && s.m1 == s0.m1 && s.check == s0.check)
    && StrikeOrder(s.used)
    && FirstStrike(s.used, s0, mirrors, trig)
    && (s.flag ==> FinalMiss(s.legs, s.used, mirrors, trig))
  }

  /** Every mirror tested since the last strike, up to mirror i, was consumed. */
  predicate Skipped(s: Beam, i: int)
  {
    |s.used| > 0 ==> forall j :: 0 <= j < 3 && Between(s.used[|s.used| - 1], j, i) ==> j < |s.check| && s.check[j]
  }

  /** Right after mirror i is struck, no mirror is skipped before i + 1. */
  lemma SkippedNone(s: Beam, i: nat)
    requires |s.used| > 0 && s.used[|s.used| - 1] == i
    ensures Skipped(s, i + 1)
  {
    var u := s.used[|s.used| - 1];
    assert !Between(u, 0, i + 1) && !Between(u, 1, i + 1) && !Between(u, 2, i + 1);
  }

  /** Passing a consumed mirror keeps `Skipped`. */
  lemma SkippedNext(s: Beam, i: nat)
    requires i < 3 && |s.check| == 3 && s.check[i] && Skipped(s, i)
    ensures Skipped(s, i + 1)
  {
    if |s.used| > 0 {
      var u := s.used[|s.used| - 1];
      forall j | 0 <= j < 3 && Between(u, j, i + 1)
        ensures s.check[j]
      {
        if j != i {
          assert Between(u, j, i);
        }
      }
    }
  }

  /** The invariant of the inner `for` loop, before mirror i, for a pass that began
      in state s. */
  predicate SweepInv(r: Beam, s: Beam, s0: Beam, i: nat, mirrors: seq<Mirror>, trig: Trig)
    requires |mirrors| == 3
  {
    && Chained(r, s0.x1, s0.y1, s0.m1, mirrors, trig) && Ordered(r, s0, mirrors, trig)
    && i <= 3
    && r.count >= s.count
    && (r.flag ==> r.count > 0)
    && (!r.flag ==> Skipped(r, i))
    && (!r.flag && r.count == s.count ==> s.count == 0 || forall k :: 0 <= k < i ==> r.check[k])
    && (r.count == 0 ==> forall k :: 0 <= k < i ==> Crossing(s0.x1, s0.y1, s0.m1, mirrors[k], trig).None?)
  }

  /** A strike keeps the order of the strikes: the mirror struck is the lowest-numbered
      one crossed when it is the first, and otherwise the next unconsumed one. */
  lemma OrderStrike(r: Beam, r': Beam, s0: Beam, i: nat, mirrors: seq<Mirror>, trig: Trig)
    requires |mirrors| == 3 && i < 3
    requires MaskOk(r) && Ordered(r, s0, mirrors, trig) && Skipped(r, i) && !r.check[i]
    requires r.count == 0 ==> forall k :: 0 <= k < i ==> Crossing(s0.x1, s0.y1, s0.m1, mirrors[k], trig).None?
    requires r.count == 0 ==> Crossing(s0.x1, s0.y1, s0.m1, mirrors[i], trig).Some?
    requires r'.used == r.used + [i] && r'.count == r.count + 1 && !r'.flag
    ensures Ordered(r', s0, mirrors, trig) && Skipped(r', i + 1)
  {
    assert i !in r.used;
    StrikeOrderNext(r.used, i);
    if |r.used| > 0 {
      FirstStrikeKept(r.used, r'.used, s0, mirrors, trig);
    } else {
      assert r'.used == [i];
      FirstStrikeNew(i, s0, mirrors, trig);
    }
    SkippedNone(r', i);
  }

  /** A miss after a bounce writes a final leg that misses the next unconsumed mirror. */
  lemma OrderMiss(r: Beam, r': Beam, s0: Beam, i: nat, mirrors: seq<Mirror>, trig: Trig)
    requires |mirrors| == 3 && i < 3
    requires MaskOk(r) && Ordered(r, s0, mirrors, trig)
    requires Skipped(r, i) && !r.check[i] && r.count > 0
    requires Crossing(r.x1, r.y1, r.m1, mirrors[i], trig).None?
    requires r'.used == r.used && r'.count == r.count && r'.flag && |r'.legs| == r.count + 1
    requires r'.legs[r.count].x1 == r.x1 && r'.legs[r.count].y1 == r.y1 && r'.legs[r.count].m == r.m1
    ensures Ordered(r', s0, mirrors, trig)
  {
    assert i !in r.used;
    NextFreeIs(r.used, i);
  }

  /** One mirror test keeps the order of the strikes. */
  lemma OrderStep(r: Beam, s0: Beam, i: nat, mirrors: seq<Mirror>, trig: Trig)
    requires |mirrors| == 3 && i < 3
    requires MaskOk(r) && |r.legs| == r.count && Ordered(r, s0, mirrors, trig)
    requires !r.flag && Skipped(r, i)
    requires r.count == 0 ==> forall k :: 0 <= k < i ==> Crossing(s0.x1, s0.y1, s0.m1, mirrors[k], trig).None?
    ensures var r' := Step(r, i, mirrors, trig);
      Ordered(r', s0, mirrors, trig) && (!r'.flag ==> Skipped(r', i + 1))
  {
    var r' := Step(r, i, mirrors, trig);
    if r.check[i] {
      assert r' == r;
      SkippedNext(r, i);
    } else {
      match Crossing(r.x1, r.y1, r.m1, mirrors[i], trig)
      case Some(p) =>
        OrderStrike(r, r', s0, i, mirrors, trig);
      case None =>
        if r.count > 0 {
          OrderMiss(r, r', s0, i, mirrors, trig);
        } else {
          assert r'.used == r.used == [] && !r'.flag;
        }
    }
  }

  lemma SweepStep(r: Beam, s: Beam, s0: Beam, i: nat, mirrors: seq<Mirror>, trig: Trig)
    requires |mirrors| == 3 && i < 3
    requires SweepInv(r, s, s0, i, mirrors, trig) && !r.flag
    ensures SweepInv(Step(r, i, mirrors, trig), s, s0, i + 1, mirrors, trig)
  {
    StepChained(r, i, s0.x1, s0.y1, s0.m1, mirrors, trig);
    OrderStep(r, s0, i, mirrors, trig);
  }

  /** The inner `for` loop of the firing loop: mirrors 0, 1 and 2 in turn, leaving
      at the first miss after a bounce. The pass either bounces at least once, or
      raises the flag, or finds every mirror consumed, or (before any bounce) finds
      that the firing line crosses no mirror. */
  method Sweep(ghost s0: Beam, s: Beam, mirrors: seq<Mirror>, trig: Trig) returns (r: Beam)
    requires |mirrors| == 3
    requires Chained(s, s0.x1, s0.y1, s0.m1, mirrors, trig) && !s.flag && Ordered(s, s0, mirrors, trig)
    requires Skipped(s, 0)
    ensures SweepInv(r, s, s0, 3, mirrors, trig) || (r.flag && SweepInv(r, s, s0, 0, mirrors, trig))
  {
    r := s;
    for i := 0 to 3
      invariant SweepInv(r, s, s0, i, mirrors, trig) && !r.flag
    {
      SweepStep(r, s, s0, i, mirrors, trig);
      r := Step(r, i, mirrors, trig);
      if r.flag {
        return;
      }
    }
  }

  /** A finished loop state is a firing. */
  lemma ChainedFired(s: Beam, s0: Beam, mirrors: seq<Mirror>, trig: Trig)
    requires |mirrors| == 3
    requires Chained(s, s0.x1, s0.y1, s0.m1, mirrors, trig) && s.flag && Ordered(s, s0, mirrors, trig)
    requires s.count == 0 ==> forall k :: 0 <= k < 3 ==> Crossing(s0.x1, s0.y1, s0.m1, mirrors[k], trig).None?
    ensures Fired(s.legs, s.used, s0, mirrors, trig)
  {
    forall k | 0 <= k < |s.used|
      ensures Crossing(s.legs[k].x1, s.legs[k].y1, s.legs[k].m, mirrors[s.used[k]], trig) == Some((s.legs[k].x2, s.legs[k].y2))
    {
      assert EndsOn(s.legs, s.used, mirrors, k, trig);
    }
  }

  /** The exit the source lacks keeps the order of the strikes: the final leg is
      written with no bounce at all, or with every mirror consumed. */
  lemma FinishOrdered(s: Beam, s0: Beam, mirrors: seq<Mirror>, trig: Trig)
    requires |mirrors| == 3
    requires Chained(s, s0.x1, s0.y1, s0.m1, mirrors, trig) && Ordered(s, s0, mirrors, trig)
    requires !s.flag && (s.count == 0 || false !in s.check)
    ensures Ordered(Finish(s, trig), s0, mirrors, trig)
  {
    if s.count > 0 {
      assert s.check[0] && s.check[1] && s.check[2];
      assert 0 in s.used && 1 in s.used && 2 in s.used;
    }
  }

  /** The invariant of the firing loop's `while`, for the state s0 it began in. */
  predicate Firing(s: Beam, s0: Beam, mirrors: seq<Mirror>, trig: Trig)
    requires |mirrors| == 3
  {
    && Chained(s, s0.x1, s0.y1, s0.m1, mirrors, trig) && Ordered(s, s0, mirrors, trig)
    && (!s.flag ==> Skipped(s, 0))
    && (s.count == 0 && s.flag ==> forall k :: 0 <= k < 3 ==> Crossing(s0.x1, s0.y1, s0.m1, mirrors[k], trig).None?)
  }

  lemma StartFiring(g0: Cannon, g1: Cannon, mirrors: seq<Mirror>, trig: Trig)
    requires |mirrors| == 3
    ensures var s := Start(g0, g1, trig); Firing(s, s, mirrors, trig)
  {
    StartChained(g0, g1, mirrors, trig);
  }

  /** A pass keeps the invariant; unless it raised the flag, it bounced at least once,
      or found every mirror consumed, or bounced not at all. */
  lemma SweptFiring(r: Beam, s: Beam, s0: Beam, mirrors: seq<Mirror>, trig: Trig)
    requires |mirrors| == 3 && Firing(s, s0, mirrors, trig) && !s.flag
    requires SweepInv(r, s, s0, 3, mirrors, trig) || (r.flag && SweepInv(r, s, s0, 0, mirrors, trig))
    ensures Firing(r, s0, mirrors, trig) && s.count <= r.count <= 3
    ensures !r.flag && r.count != 0 && false in r.check ==> r.count > s.count
  {
    if !r.flag && |r.used| > 0 {
      var u := r.used[|r.used| - 1];
      assert u < 3;
      forall j | 0 <= j < 3 && Between(u, j, 0)
        ensures r.check[j]
      {
        assert Between(u, j, 3);
      }
    }
  }

  /** Writing the final leg ends the loop with the invariant kept. */
  lemma FinishFiring(s: Beam, s0: Beam, mirrors: seq<Mirror>, trig: Trig)
    requires |mirrors| == 3 && Firing(s, s0, mirrors, trig)
    requires !s.flag && (s.count == 0 || false !in s.check)
    requires s.count == 0 ==> forall k :: 0 <= k < 3 ==> Crossing(s0.x1, s0.y1, s0.m1, mirrors[k], trig).None?
    ensures Firing(Finish(s, trig), s0, mirrors, trig)
  {
    FinishChained(s, s0.x1, s0.y1, s0.m1, mirrors, trig);
    FinishOrdered(s, s0, mirrors, trig);
  }

  /** The firing loop of `draw`, with the exit the source lacks: when a pass ends
      with every mirror consumed, the final unbounded leg is written and the loop
      ends. (`PassAsWritten` below shows that the source loops forever there.) */
  method Trace(g0: Cannon, g1: Cannon, mirrors: seq<Mirror>, trig: Trig) returns (legs: seq<Segment>, used: seq<nat>)
    requires |mirrors| == 3
    ensures Fired(legs, used, Start(g0, g1, trig), mirrors, trig)
  {
    var s := Start(g0, g1, trig);
    ghost var s0 := s;
    StartFiring(g0, g1, mirrors, trig);
    while !s.flag
      invariant Firing(s, s0, mirrors, trig)
      decreases 4 - s.count - (if s.flag then 1 else 0)
    {
      ghost var before := s;
      s := Sweep(s0, s, mirrors, trig);
      SweptFiring(s, before, s0, mirrors, trig);
      if !s.flag && (s.count == 0 || false !in s.check) {
        FinishFiring(s, s0, mirrors, trig);
        s := Finish(s, trig);
      }
    }
    ChainedFired(s, s0, mirrors, trig);
    legs, used := s.legs, s.used;
  }

  /** The inner `for` loop as the source writes it, from mirror i on; it stops
      at the `break` after the final leg. */
  function StepsFrom(s: Beam, i: nat, mirrors: seq<Mirror>, trig: Trig): (r: Beam)
    requires |s.check| == 3 && i <= 3 && |mirrors| == 3
    ensures |r.check| == 3
    decreases 3 - i
  {
    if i == 3 || s.flag then s else StepsFrom(Step(s, i, mirrors, trig), i + 1, mirrors, trig)
  }

  /** One turn of the source's `while` loop: the mirror pass, then the single
      unbounded leg when the pass ended with no bounce at all. There is no exit
      for a pass that finds every mirror consumed. */
  function PassAsWritten(s: Beam, mirrors: seq<Mirror>, trig: Trig): (r: Beam)
    requires |s.check| == 3 && |mirrors| == 3
    ensures |r.check| == 3
    ensures !s.flag && s.count > 0 && false !in s.check ==> r == s
  {
    var s1 := StepsFrom(s, 0, mirrors, trig);
    if s1.count == 0 && !s1.flag then Finish(s1, trig) else s1
  }

  /** n further turns of the source's `while` loop (it stops once the flag is raised). */
  function PassesAsWritten(s: Beam, n: nat, mirrors: seq<Mirror>, trig: Trig): (r: Beam)
    requires |s.check| == 3 && |mirrors| == 3
    decreases n
  {
    if n == 0 || s.flag then s else PassesAsWritten(PassAsWritten(s, mirrors, trig), n - 1, mirrors, trig)
  }

  /** Once every mirror is consumed and the flag is still down, no number of further
      turns of the source's loop changes anything: the loop never ends. */
  lemma {:induction false} AllMirrorsHitNeverExits(s: Beam, n: nat, mirrors: seq<Mirror>, trig: Trig)
    requires |s.check| == 3 && |mirrors| == 3
    requires !s.flag && s.count > 0 && false !in s.check
    ensures PassesAsWritten(s, n, mirrors, trig) == s
    ensures !PassesAsWritten(s, n, mirrors, trig).flag
    decreases n
  {
    if n > 0 {
      assert s.check[0] && s.check[1] && s.check[2];
      assert PassAsWritten(s, mirrors, trig) == s;
      AllMirrorsHitNeverExits(s, n - 1, mirrors, trig);
    }
  }
}
