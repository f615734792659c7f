/** The global game state of brickbreaker.cpp and the per-frame operations of
    `main` and `draw` that change it. */
module Game {
  import opened Entities
  import opened Scoring
  import opened Bounce
  import opened Controls
  import opened Camera

  /** The three mirrors `createMirrors` places, given pi and the square root
      of 3, which the source takes from the C library. Each mirror's intercept
      puts its first end point on its line. */
  function MirrorLayout(trig: Trig, pi: real, root3: real): (ms: seq<Mirror>)
    requires root3 > 0.0
    ensures |ms| == MirrorCount
    ensures forall k :: 0 <= k < |ms| ==> ms[k].x1 < ms[k].x2
    ensures forall k :: 0 <= k < |ms| ==> ms[k].y1 == trig.tan(ms[k].m) * ms[k].x1 + ms[k].c
  {
    var m0, m1, m2 := pi / 3.0, pi / 6.0, 3.0 * pi / 4.0;
    [ Mirror(-1.0, 4.0, -2.0, -2.0 + 5.0 * root3, m0, -2.0 + trig.tan(m0)),
      Mirror(28.0, 36.0, -25.0, -25.0 + 8.0 / root3, m1, -25.0 - 28.0 * trig.tan(m1)),
      Mirror(25.0, 32.0, 32.0, 25.0, m2, 32.0 - 25.0 * trig.tan(m2)) ]
  }

  /** The height `y` on a laser line lies on brick `b`'s edge, and `b` is between
      the catch line and the top of the field. */
  predicate Strikes(b: Brick, y: real)
  {
    b.y1 <= y && b.y2 >= y && b.y1 < FieldTop && b.y2 > CatchLine
  }

  /** The laser line of slope `slope` and intercept `c`, as a function of x. */
  function Line(slope: real, c: real): real -> real
  {
    x => slope * x + c
  }

  /** The edge of `b` at x, on the laser line `line`, is struck. */
  predicate Qualifies(b: Brick, x: real, line: real -> real)
  {
    Strikes(b, line(x))
  }

  /** Some struck edge of `b` lies strictly left of `bound`. */
  predicate Under(b: Brick, line: real -> real, bound: real)
  {
    (Qualifies(b, b.x1, line) && b.x1 < bound) || (Qualifies(b, b.x2, line) && b.x2 < bound)
  }

  /** Some struck edge of `b` lies at or left of `bound`. */
  predicate AtOrUnder(b: Brick, line: real -> real, bound: real)
  {
    (Qualifies(b, b.x1, line) && b.x1 <= bound) || (Qualifies(b, b.x2, line) && b.x2 <= bound)
  }

  /** Some struck edge of `b` lies exactly at x. */
  predicate Attains(b: Brick, line: real -> real, x: real)
  {
    (Qualifies(b, b.x1, line) && b.x1 == x) || (Qualifies(b, b.x2, line) && b.x2 == x)
  }

  /** The selection state of `shoot`: index `min` of the chosen brick (-1 for
      none) and the end point (x, y) of the laser. */
  datatype Target = Target(min: int, x: real, y: real)

  /** One edge test of `shoot`: edge x of brick j replaces the selection when it is
      struck strictly left of the current end point. */
  function Edge(t: Target, j: int, b: Brick, x: real, line: real -> real): Target
  {
    var y := line(x);
    if Strikes(b, y) && x < t.x then Target(j, x, y) else t
  }

  /** The selection loop of `shoot` over bricks `bs`, left edge then right edge of
      each in index order, starting from the laser's far end `far`. */
  function Nearest(bs: seq<Brick>, line: real -> real, far: Target): (r: Target)
    ensures r.x <= far.x
    decreases |bs|
  {
    if |bs| == 0 then far
    else
      var j := |bs| - 1;
      var t := Nearest(bs[..j], line, far);
      Edge(Edge(t, j, bs[j], bs[j].x1, line), j, bs[j], bs[j].x2, line)
  }

  /** An edge test either keeps the selection or moves it, strictly left, to a
      struck edge; afterwards the end point is at or left of that edge if struck. */
  lemma EdgeFacts(t: Target, j: int, b: Brick, x: real, line: real -> real)
    ensures var r := Edge(t, j, b, x, line);
      && r.x <= t.x
      && (Qualifies(b, x, line) ==> r.x <= x)
      && (r == t || (r == Target(j, x, line(x)) && Qualifies(b, x, line) && x < t.x))
  {
    var y := line(x);
    if Strikes(b, y) && x < t.x {
      assert Edge(t, j, b, x, line) == Target(j, x, y);
    } else {
      assert Edge(t, j, b, x, line) == t;
    }
  }

  /** No struck edge below `hi` means none at or below anything smaller. */
  lemma UnderMono(b: Brick, line: real -> real, lo: real, hi: real)
    requires lo <= hi && !Under(b, line, hi)
    ensures !Under(b, line, lo)
    ensures lo < hi ==> !AtOrUnder(b, line, lo)
  {
  }

  /** One brick's two edge tests leave the end point at or left of each of its
      struck edges. */
  lemma BrickFacts(t: Target, j: int, b: Brick, line: real -> real)
    ensures var r := Edge(Edge(t, j, b, b.x1, line), j, b, b.x2, line);
      && r.x <= t.x
      && !Under(b, line, r.x)
      && (r == t || (r.min == j && Attains(b, line, r.x) && r.y == line(r.x) && r.x < t.x))
  {
    var t1 := Edge(t, j, b, b.x1, line);
    EdgeFacts(t, j, b, b.x1, line);
    EdgeFacts(t1, j, b, b.x2, line);
  }

  /** The selected end point is the leftmost struck edge: no struck edge of any
      brick lies strictly left of it. */
  lemma {:induction false} NearestMinimal(bs: seq<Brick>, line: real -> real, far: Target)
    ensures forall j :: 0 <= j < |bs| ==> !Under(bs[j], line, Nearest(bs, line, far).x)
    decreases |bs|
  {
    if |bs| > 0 {
      var n := |bs| - 1;
      var t := Nearest(bs[..n], line, far);
      var r := Nearest(bs, line, far);
      NearestMinimal(bs[..n], line, far);
      BrickFacts(t, n, bs[n], line);
      forall j | 0 <= j < |bs|
        ensures !Under(bs[j], line, r.x)
      {
        if j < n {
          assert bs[..n][j] == bs[j];
          UnderMono(bs[j], line, r.x, t.x);
        }
      }
    }
  }

  /** Starting from "no brick", the selection stays at the far end and picks no
      brick, or moves strictly left of it to a brick of `bs`. */
  lemma {:induction false} NearestStrict(bs: seq<Brick>, line: real -> real, far: Target)
    requires far.min < 0
    ensures var r := Nearest(bs, line, far);
      (r.min < 0 ==> r == far) && (r.min >= 0 ==> r.x < far.x && r.min < |bs|)
    decreases |bs|
  {
    if |bs| > 0 {
      var n := |bs| - 1;
      NearestStrict(bs[..n], line, far);
      BrickFacts(Nearest(bs[..n], line, far), n, bs[n], line);
    }
  }

  /** When the selection starts from "no brick", it ends with a brick exactly when
      some struck edge lies strictly left of the far end, and then the end point is
      an edge of the chosen brick, on the laser's line. */
  lemma {:induction false} NearestChosen(bs: seq<Brick>, line: real -> real, far: Target)
    requires far.min < 0
    ensures var r := Nearest(bs, line, far);
      && (r.min < 0 <==> forall j :: 0 <= j < |bs| ==> !Under(bs[j], line, far.x))
      && (r.min >= 0 ==> r.min < |bs| && Attains(bs[r.min], line, r.x) && r.y == line(r.x))
    decreases |bs|
  {
    if |bs| > 0 {
      var n := |bs| - 1;
      var t := Nearest(bs[..n], line, far);
      var r := Nearest(bs, line, far);
      NearestChosen(bs[..n], line, far);
      NearestStrict(bs[..n], line, far);
      NearestMinimal(bs, line, far);
      BrickFacts(t, n, bs[n], line);
      if t.min >= 0 {
        assert t.min < n && bs[..n][t.min] == bs[t.min];
        assert r.min >= 0;
        assert Under(bs[t.min], line, far.x);
      } else {
        assert t == far;
        forall j | 0 <= j < n
          ensures !Under(bs[j], line, far.x)
        {
          assert bs[..n][j] == bs[j];
        }
        if r.min < 0 {
          assert r == t;
        } else {
          assert Under(bs[n], line, far.x);
        }
      }
    }
  }

  /** Ties go to the earliest brick: no brick before the chosen one has a struck
      edge at or left of the end point. */
  lemma {:induction false} NearestEarliest(bs: seq<Brick>, line: real -> real, far: Target)
    requires far.min < 0
    ensures var r := Nearest(bs, line, far);
      forall j :: 0 <= j < r.min && j < |bs| ==> !AtOrUnder(bs[j], line, r.x)
    decreases |bs|
  {
    if |bs| > 0 {
      var n := |bs| - 1;
      var t := Nearest(bs[..n], line, far);
      var r := Nearest(bs, line, far);
      NearestEarliest(bs[..n], line, far);
      NearestMinimal(bs[..n], line, far);
      NearestStrict(bs[..n], line, far);
      BrickFacts(t, n, bs[n], line);
      forall j | 0 <= j < r.min && j < |bs|
        ensures !AtOrUnder(bs[j], line, r.x)
      {
        assert j < n;
        assert bs[..n][j] == bs[j];
        if r != t {
          UnderMono(bs[j], line, r.x, t.x);
        }
      }
    }
  }

  /** The selection never looks at where the laser starts: a brick behind the
      start of a leg, here one at x = 0 hit by a leg starting at x = 31 that runs
      right to x = 131 along y = 0, is chosen. */
  lemma BehindStartIsChosen()
    ensures var b := Brick(0.0, 1.5, -1.0, 1.5, 0.0, Red, true);
      var r := Nearest([b], Line(0.0, 0.0), Target(-1, 131.0, 0.0));
      r.min == 0 && r.x == 0.0 && r.x < 31.0
  {
  }

  /** The brick `shoot` selects for leg `b` among `bs`, -1 for none: the
      selection of `Nearest` along the leg's line from its far end. */
  function Struck(bs: seq<Brick>, b: Segment, trig: Trig): (r: int)
    ensures -1 <= r < |bs|
  {
    var line, far := Line(trig.tan(b.m), b.c), Target(-1, b.x2, b.y2);
    NearestStrict(bs, line, far);
    var t := Nearest(bs, line, far);
    if t.min >= 0 then t.min else -1
  }

  /** Leg `b` after `shoot` has cut it at the end point its selection reached. */
  function CutLeg(bs: seq<Brick>, b: Segment, trig: Trig): (r: Segment)
    ensures r.x1 == b.x1 && r.y1 == b.y1 && r.m == b.m && r.c == b.c
  {
    var t := Nearest(bs, Line(trig.tan(b.m), b.c), Target(-1, b.x2, b.y2));
    Leg(b.x1, b.y1, Some((t.x, t.y)), b.m, b.c, trig)
  }

  /** The first hit the slot loop of the laser window meets, from slot `from` on:
      slot s and brick h when slot s is the first occupied slot, before the first
      empty one, whose leg strikes a brick. */
  function FirstHit(bs: seq<Brick>, legs: seq<Segment>, filled: seq<bool>, trig: Trig, from: nat): (r: Option<(nat, nat)>)
    ensures r.Some? ==>
      && from <= r.value.0 < |filled| && r.value.0 < |legs| && filled[r.value.0]
      && r.value.1 < |bs| && r.value.1 as int == Struck(bs, legs[r.value.0], trig)
    ensures r.Some? ==> forall k :: from <= k < r.value.0 ==> filled[k] && Struck(bs, legs[k], trig) == -1
    ensures r.None? ==> forall k :: from <= k < |filled| && k < |legs| && filled[k] && (forall j :: from <= j < k ==> filled[j]) ==>
      Struck(bs, legs[k], trig) == -1
    decreases |filled| - from
  {
    if from >= |filled| || from >= |legs| || !filled[from] then None
    else
      var h := Struck(bs, legs[from], trig);
      if h >= 0 then Some((from, h as nat)) else FirstHit(bs, legs, filled, trig, from + 1)
  }

  /** The slot loop of the laser window on values, from bricks `bs`, legs `legs`,
      slot flags `filled`, tally `t` and offset `y` to their primed values. With
      no hit nothing changes. With the first hit at slot s on brick h, the hit is
      scored, brick h is replaced from the draws of slot s at the grown offset,
      leg s is cut, and the slots after s are emptied; no other leg changes. */
  predicate SlotsShot(bs: seq<Brick>, legs: seq<Segment>, filled: seq<bool>, t: Tally, y: int, trig: Trig, rolls: seq<Roll>,
                      bs': seq<Brick>, legs': seq<Segment>, filled': seq<bool>, t': Tally, y': int)
  {
    && |legs'| == |legs| && |filled'| == |filled|
    && match FirstHit(bs, legs, filled, trig, 0)
       case None => bs' == bs && legs' == legs && filled' == filled && t' == t && y' == y
       case Some(hit) =>
         && hit.0 < |rolls|
         && 0 <= bs[hit.1].c <= 2
         && t' == ApplyHit(t, bs[hit.1].c)
         && y' == y + rolls[hit.0].dy % 20
         && bs' == bs[hit.1 := NewBrick(rolls[hit.0], y')]
         && legs' == legs[hit.0 := CutLeg(bs, legs[hit.0], trig)]
         && (forall k :: 0 <= k < |filled| ==> filled'[k] == (k <= hit.0 && filled[k]))
  }

  /** A cut leg stays in its slot for the whole laser window, which spans many
      frames, and is shot again each frame after the bricks have fallen. Here a
      leg along y = 0 first strikes brick a at x = 10 and is cut there; one frame
      later brick b has fallen onto the line and the same leg strikes it at x = 5,
      so a single firing scores twice. */
  lemma WindowRescores(trig: Trig, roll: Roll, y: int)
    requires trig.tan(0.0) == 0.0 && y >= 0
    ensures var b := Brick(5.0, 6.5, 0.05, 2.55, -41.95, Red, true);
      var a := Brick(10.0, 11.5, -1.0, 1.5, -43.0, Green, true);
      var leg := Segment(-31.0, 100.0, 0.0, 0.0, 0.0, 0.0);
      var cut := CutLeg([b, a], leg, trig);
      && WellFormed(b) && WellFormed(a)
      && Struck([b, a], leg, trig) == 1 && cut.x2 == 10.0 && cut.y2 == 0.0
      && Struck([Fallen(b, 0.1), Fallen(NewBrick(roll, y), 0.1)], cut, trig) == 0
  {
    var b := Brick(5.0, 6.5, 0.05, 2.55, -41.95, Red, true);
    var a := Brick(10.0, 11.5, -1.0, 1.5, -43.0, Green, true);
    var line := Line(0.0, 0.0);
    assert line(5.0) == 0.0 && line(6.5) == 0.0 && line(10.0) == 0.0 && line(11.5) == 0.0;
    var far := Target(-1, 100.0, 0.0);
    assert [b, a][..1] == [b] && [b][..0] == [];
    assert Nearest([b], line, far) == far by {
      assert Nearest([], line, far) == far;
      assert !Strikes(b, 0.0);
    }
    assert Strikes(a, 0.0);
    assert Nearest([b, a], line, far) == Edge(Edge(far, 1, a, 10.0, line), 1, a, 11.5, line);
    assert Edge(far, 1, a, 10.0, line) == Target(1, 10.0, 0.0);
    var fb, fn := Fallen(b, 0.1), Fallen(NewBrick(roll, y), 0.1);
    var far' := Target(-1, 10.0, 0.0);
    assert [fb, fn][..1] == [fb] && [fb][..0] == [];
    assert Strikes(fb, 0.0) && !Strikes(fn, 0.0);
    assert Nearest([fb], line, far') == Target(0, 5.0, 0.0) by {
      assert Nearest([], line, far') == far';
      assert Edge(far', 0, fb, 5.0, line) == Target(0, 5.0, 0.0);
    }
  }

  /** A brick stops counting as in play once it is alive and below the catch line. */
  predicate Missed(b: Brick)
  {
    b.y2 < CatchLine && b.alive
  }

  /** The number of missed bricks in `bs`. */
  function Misses(bs: seq<Brick>): (n: nat)
    ensures n <= |bs|
    decreases |bs|
  {
    if |bs| == 0 then 0 else Misses(bs[..|bs| - 1]) + (if Missed(bs[|bs| - 1]) then 1 else 0)
  }

  /** A basket under the cursor at (x, y): within its span and in the strip under
      the catch line. */
  predicate OnBasket(k: Basket, x: real, y: real)
  {
    x >= k.x1 && x <= k.x2 && y >= -40.0 && y <= CatchLine
  }

  /** The cannon under the cursor at (x, y): from the left edge to the muzzle of
      the rotated barrel, within 5 units of its height. */
  predicate OnCannon(g: Cannon, x: real, y: real, trig: Trig)
  {
    x >= -40.0 && x <= -39.0 + 8.0 * trig.cos(g.rotate) && y >= g.y - 5.0 && y <= g.y + 5.0
  }

  /** The basket and the move the else-if chain of `translateBaskets` picks: basket
      index and offset. Control before Alt, right before left. */
  function BasketNudge(ctrl: bool, alt: bool, right: bool, left: bool): (r: Option<(int, real)>)
    ensures r.Some? <==> (ctrl || alt) && (right || left)
    ensures r.Some? ==> (r.value.0 == 1 <==> ctrl) && (r.value.0 == 0 <==> !ctrl)
    ensures r.Some? ==> (r.value.1 == 0.5 <==> right) && (r.value.1 == -0.5 <==> !right)
  {
    if ctrl && right then Some((1, 0.5))
    else if ctrl && left then Some((1, -0.5))
    else if alt && right then Some((0, 0.5))
    else if alt && left then Some((0, -0.5))
    else None
  }

  /** The total growth of the spawn offset over the draws `rolls`: each
      `createRectangle` adds its second draw modulo 20. */
  function Drift(rolls: seq<Roll>): (n: nat)
    ensures n <= 19 * |rolls|
    decreases |rolls|
  {
    if |rolls| == 0 then 0 else Drift(rolls[..|rolls| - 1]) + rolls[|rolls| - 1].dy % 20
  }

  /** The offset only grows: a later brick of the start-up loop is spawned at least
      as high as an earlier one. */
  lemma {:induction false} DriftMonotone(rolls: seq<Roll>, j: nat, k: nat)
    requires j <= k <= |rolls|
    ensures Drift(rolls[..j]) <= Drift(rolls[..k])
    decreases k - j
  {
    if j < k {
      DriftMonotone(rolls, j, k - 1);
      assert rolls[..k][..k - 1] == rolls[..k - 1];
    }
  }

  /** The start-up loop after bricks 0..i-1, on values: brick k sits at the
      starting offset `y0` plus the draws of bricks 0..k. */
  predicate SpawnedUpTo(bs: seq<Brick>, rolls: seq<Roll>, i: nat, y0: int)
  {
    && |bs| == BrickCount && |rolls| == BrickCount && i <= BrickCount
    && forall k :: 0 <= k < i ==> bs[k] == NewBrick(rolls[k], y0 + Drift(rolls[..k + 1]))
  }

  /** One `createRectangle` call of the start-up loop advances `SpawnedUpTo`. */
  lemma SpawnedStep(cur: seq<Brick>, nxt: seq<Brick>, rolls: seq<Roll>, i: nat, y0: int, y: int)
    requires i < BrickCount && SpawnedUpTo(cur, rolls, i, y0)
    requires y == y0 + Drift(rolls[..i]) + rolls[i].dy % 20 && nxt == cur[i := NewBrick(rolls[i], y)]
    ensures SpawnedUpTo(nxt, rolls, i + 1, y0)
    ensures y == y0 + Drift(rolls[..i + 1])
  {
    assert rolls[..i + 1][..i] == rolls[..i];
    var d := Drift(rolls[..i + 1]);
    assert d == Drift(rolls[..i]) + rolls[i].dy % 20;
    forall k | 0 <= k < i + 1
      ensures nxt[k] == NewBrick(rolls[k], y0 + Drift(rolls[..k + 1]))
    {
      if k < i {
        assert nxt[k] == cur[k];
      }
    }
  }

  /** The miss counter and the spawn offset of the respawn loop once it has passed
      bricks 0..i-1 of `bs`, starting from `m0` and `y0`: a missed brick adds one
      to the counter and grows the offset by its draw; when the counter reaches 15
      both go back to 0. */
  function Counters(bs: seq<Brick>, rolls: seq<Roll>, i: nat, m0: int, y0: int): (r: (int, int))
    requires i <= |bs| && i <= |rolls|
    ensures 0 <= m0 < BrickCount && y0 >= 0 ==> 0 <= r.0 < BrickCount && r.1 >= 0
    decreases i
  {
    if i == 0 then (m0, y0)
    else
      var r := Counters(bs, rolls, i - 1, m0, y0);
      if !Missed(bs[i - 1]) then r
      else if r.0 + 1 == BrickCount then (0, 0)
      else (r.0 + 1, r.1 + rolls[i - 1].dy % 20)
  }

  /** The sum of the offset draws of the missed bricks among bricks 0..i-1. */
  function MissDrift(bs: seq<Brick>, rolls: seq<Roll>, i: nat): (n: nat)
    requires i <= |bs| && i <= |rolls|
    decreases i
  {
    if i == 0 then 0
    else MissDrift(bs, rolls, i - 1) + (if Missed(bs[i - 1]) then rolls[i - 1].dy % 20 else 0)
  }

  /** One miss on the counter, in integers: adding one and wrapping at 15 keeps
      it equal to the count modulo 15. */
  lemma CountStep(n: int, m: int)
    requires n >= 0 && m == n % BrickCount
    ensures (if m + 1 == BrickCount then 0 else m + 1) == (n + 1) % BrickCount
  {
    assert n == (n / BrickCount) * BrickCount + m;
    if m + 1 == BrickCount {
      assert n + 1 == (n / BrickCount + 1) * BrickCount;
    } else {
      assert n + 1 == (n / BrickCount) * BrickCount + (m + 1);
    }
  }

  /** The counter always holds the number of misses seen so far, modulo 15. */
  lemma {:induction false} CountersCount(bs: seq<Brick>, rolls: seq<Roll>, i: nat, m0: int, y0: int)
    requires i <= |bs| && i <= |rolls| && 0 <= m0 < BrickCount
    ensures Counters(bs, rolls, i, m0, y0).0 == (m0 + Misses(bs[..i])) % BrickCount
    decreases i
  {
    if i == 0 {
      assert Misses(bs[..0]) == 0;
    } else {
      CountersCount(bs, rolls, i - 1, m0, y0);
      assert bs[..i][..i - 1] == bs[..i - 1];
      var n := m0 + Misses(bs[..i - 1]);
      var m := Counters(bs, rolls, i - 1, m0, y0).0;
      if Missed(bs[i - 1]) {
        assert m0 + Misses(bs[..i]) == n + 1;
        assert Counters(bs, rolls, i, m0, y0).0 == if m + 1 == BrickCount then 0 else m + 1;
        CountStep(n, m);
      } else {
        assert m0 + Misses(bs[..i]) == n;
        assert Counters(bs, rolls, i, m0, y0).0 == m;
      }
    }
  }

  /** Each time a miss brings the counter to 15 (a multiple of 15 misses counted
      from `m0`), the counter and the spawn offset are both 0. */
  lemma CountersReset(bs: seq<Brick>, rolls: seq<Roll>, w: nat, m0: int, y0: int)
    requires 0 < w <= |bs| && w <= |rolls| && 0 <= m0 < BrickCount
    requires Missed(bs[w - 1]) && (m0 + Misses(bs[..w])) % BrickCount == 0
    ensures Counters(bs, rolls, w, m0, y0).0 == 0 && Counters(bs, rolls, w, m0, y0).1 == 0
  {
    CountersCount(bs, rolls, w - 1, m0, y0);
    assert bs[..w][..w - 1] == bs[..w - 1];
    var n := m0 + Misses(bs[..w - 1]);
    assert Misses(bs[..w]) == Misses(bs[..w - 1]) + 1;
    CountStep(n, Counters(bs, rolls, w - 1, m0, y0).0);
  }

  /** Before the counter first wraps, the offset is the starting offset plus the
      draws of the misses so far. */
  lemma {:induction false} CountersNoWrap(bs: seq<Brick>, rolls: seq<Roll>, i: nat, m0: int, y0: int)
    requires i <= |bs| && i <= |rolls| && 0 <= m0 && m0 + Misses(bs[..i]) < BrickCount
    ensures Counters(bs, rolls, i, m0, y0).0 == m0 + Misses(bs[..i])
    ensures Counters(bs, rolls, i, m0, y0).1 == y0 + MissDrift(bs, rolls, i)
    decreases i
  {
    if i > 0 {
      assert bs[..i][..i - 1] == bs[..i - 1];
      CountersNoWrap(bs, rolls, i - 1, m0, y0);
    }
  }

  /** A pass over at most 15 bricks wraps the counter at most once: after the miss
      at brick w - 1 that brings it to 15, the offset is the sum of the draws of
      the misses after that one. */
  lemma {:induction false} CountersAfterWrap(bs: seq<Brick>, rolls: seq<Roll>, w: nat, i: nat, m0: int, y0: int)
    requires 0 < w <= i <= |bs| && i <= |rolls| && i <= BrickCount && 0 <= m0 < BrickCount
    requires Missed(bs[w - 1]) && m0 + Misses(bs[..w]) == BrickCount
    ensures MissDrift(bs, rolls, w) <= MissDrift(bs, rolls, i)
    ensures Counters(bs, rolls, i, m0, y0).0 == m0 + Misses(bs[..i]) - BrickCount
    ensures Counters(bs, rolls, i, m0, y0).1 == MissDrift(bs, rolls, i) - MissDrift(bs, rolls, w)
    decreases i
  {
    if i == w {
      CountersReset(bs, rolls, w, m0, y0);
    } else {
      CountersAfterWrap(bs, rolls, w, i - 1, m0, y0);
      assert bs[..i][..i - 1] == bs[..i - 1];
      var r := Counters(bs, rolls, i - 1, m0, y0);
      assert r.0 == m0 + Misses(bs[..i - 1]) - BrickCount;
      assert Misses(bs[..i - 1]) <= i - 1;
      assert r.0 + 1 < BrickCount;
      if Missed(bs[i - 1]) {
        assert Misses(bs[..i]) == Misses(bs[..i - 1]) + 1;
        assert MissDrift(bs, rolls, i) == MissDrift(bs, rolls, i - 1) + rolls[i - 1].dy % 20;
        assert Counters(bs, rolls, i, m0, y0).0 == r.0 + 1;
        assert Counters(bs, rolls, i, m0, y0).1 == r.1 + rolls[i - 1].dy % 20;
      } else {
        assert Misses(bs[..i]) == Misses(bs[..i - 1]);
        assert MissDrift(bs, rolls, i) == MissDrift(bs, rolls, i - 1);
        assert Counters(bs, rolls, i, m0, y0).0 == r.0;
        assert Counters(bs, rolls, i, m0, y0).1 == r.1;
      }
    }
  }

  /** When the misses bring the counter to 15 or beyond, there is a brick w - 1
      whose miss brings it to exactly 15. */
  lemma {:induction false} WrapPoint(bs: seq<Brick>, i: nat, m0: int)
    requires i <= |bs| && 0 <= m0 < BrickCount && m0 + Misses(bs[..i]) >= BrickCount
    ensures exists w :: 0 < w <= i && Missed(bs[w - 1]) && m0 + Misses(bs[..w]) == BrickCount
    decreases i
  {
    assert i > 0;
    assert bs[..i][..i - 1] == bs[..i - 1];
    if m0 + Misses(bs[..i - 1]) >= BrickCount {
      WrapPoint(bs, i - 1, m0);
      var w :| 0 < w <= i - 1 && Missed(bs[w - 1]) && m0 + Misses(bs[..w]) == BrickCount;
      assert 0 < w <= i;
    } else {
      assert Missed(bs[i - 1]) && m0 + Misses(bs[..i]) == BrickCount;
    }
  }

  /** The brick the respawn loop puts in place of missed brick k: built from its
      draws at the offset the counters held before it, grown by its own draw. */
  function Respawned(bs: seq<Brick>, rolls: seq<Roll>, k: nat, m0: int, y0: int): Brick
    requires k < |bs| && k < |rolls|
  {
    NewBrick(rolls[k], Counters(bs, rolls, k, m0, y0).1 + rolls[k].dy % 20)
  }

  /** The respawn loop after bricks 0..i-1, on values: `bs` are the bricks before
      the loop and `cur` the bricks now, `m0`/`m` the miss counter before and now,
      `y0`/`y` the spawn offset before and now. Exactly the missed bricks seen so
      far are replaced by their `Respawned` bricks, the counters are the
      `Counters` of the bricks seen, and no brick seen so far is below the catch
      line. */
  predicate RespawnedUpTo(bs: seq<Brick>, cur: seq<Brick>, rolls: seq<Roll>, i: nat, m0: int, y0: int, m: int, y: int)
  {
    && |bs| == BrickCount && |cur| == BrickCount && |rolls| == BrickCount && i <= BrickCount
    && (forall k :: 0 <= k < i && Missed(bs[k]) ==> cur[k] == Respawned(bs, rolls, k, m0, y0))
    && (forall k :: 0 <= k < BrickCount && (k >= i || !Missed(bs[k])) ==> cur[k] == bs[k])
    && m == Counters(bs, rolls, i, m0, y0).0 && y == Counters(bs, rolls, i, m0, y0).1
    && (forall k :: 0 <= k < i ==> cur[k].y2 >= CatchLine)
  }

  /** One turn of the respawn loop, as `RespawnAt` states it, advances
      `RespawnedUpTo` by one brick. */
  lemma RespawnedStep(bs: seq<Brick>, cur: seq<Brick>, nxt: seq<Brick>, rolls: seq<Roll>, i: nat,
                      m0: int, y0: int, m: int, y: int, m': int, y': int)
    requires i < BrickCount && |nxt| == BrickCount
    requires RespawnedUpTo(bs, cur, rolls, i, m0, y0, m, y)
    requires Missed(cur[i]) ==>
      && nxt == cur[i := NewBrick(rolls[i], y + rolls[i].dy % 20)]
      && m' == (if m + 1 == BrickCount then 0 else m + 1)
      && y' == (if m + 1 == BrickCount then 0 else y + rolls[i].dy % 20)
    requires !Missed(cur[i]) ==> nxt == cur && m' == m && y' == y
    requires nxt[i].y2 >= CatchLine
    ensures RespawnedUpTo(bs, nxt, rolls, i + 1, m0, y0, m', y')
  {
    assert cur[i] == bs[i];
  }

  /** The release branch of `mouse_movement` on values: cannon bodies `g`,
      baskets `k` and drag state `mb`, `mc`, `ms` with grab point (gx, gy) before;
      cursor (x, y) and shot angle `aim`; the primed values after. A held cannon
      (no basket held) moves to the cursor height, an aimed shot turns both bodies
      to `aim`, a held basket is centred on a cursor inside the strip, and the drag
      state is cleared except for a cannon held together with a basket. */
  predicate Released(g: seq<Cannon>, k: seq<Basket>, mb: int, mc: int, ms: int, gx: real, gy: real,
                     x: real, y: real, aim: real, g': seq<Cannon>, k': seq<Basket>, mb': int, mc': int, ms': int)
  {
    && |g| == 2 && |g'| == 2 && |k| == BasketCount && |k'| == BasketCount
    && (mc != -1 && mb == -1 ==> forall j :: 0 <= j < 2 ==> g'[j] == g[j].(y := y, translate := g[j].translate + y - gy))
    && (ms != -1 ==> forall j :: 0 <= j < 2 ==> g'[j] == g[j].(rotate := aim))
    && (ms == -1 && (mc == -1 || mb != -1) ==> g' == g)
    && (mb != -1 && -38.0 <= x <= 38.0 && -40.0 <= y <= CatchLine ==>
          0 <= mb < BasketCount && k' == k[mb := k[mb].(x1 := x - 5.5, x2 := x + 5.5, translate := k[mb].translate + x - gx)])
    && (!(mb != -1 && -38.0 <= x <= 38.0 && -40.0 <= y <= CatchLine) ==> k' == k)
    && mb' == -1 && ms' == -1
    && mc' == (if mb != -1 then mc else -1)
  }

  /** The game's globals. The arrays keep the source's sizes; `laser[k]` tells
      whether slot k holds a laser to draw and test. `missed` is the respawn
      counter `count` of `main`; `y` is the spawn offset of `createRectangle`; the
      three `mouse` fields and (mX, mY) are the drag state of `mouse_movement`. */
  class Board {
    const boxes: array<Brick>
    const bucket: array<Basket>
    const gun: array<Cannon>
    const bullet: array<Segment>
    const laser: array<bool>
    const mirror: seq<Mirror>

    var points: int
    var hitCount: int
    var gameover: bool
    var speed: real
    var y: int
    var missed: int
    var mouseBasket: int
    var mouseShoot: int
    var mouseCannon: int
    var mX: real
    var mY: real
    var lastUpdateTime: real

    /** The score state as a value. */
    function Totals(): Tally
      reads this
    {
      Tally(points, hitCount, gameover)
    }

    predicate Sized()
      reads this
    {
      && boxes.Length == BrickCount && bucket.Length == BasketCount && gun.Length == 2
      && bullet.Length == LaserSlots && laser.Length == LaserSlots && |mirror| == MirrorCount
    }

    /** The two cannon bodies move together: they share height, offset and aim, at
        the fixed pivots of `createCannon`. */
    predicate GunsAligned()
      reads this, gun
      requires Sized()
    {
      && gun[0].x == -39.0 && gun[1].x == -31.0
      && gun[0].y == gun[1].y && gun[0].translate == gun[1].translate && gun[0].rotate == gun[1].rotate
    }

    /** The drag state: one of basket 0/1 or none, cannon and shot selected or not,
        and a shot only while neither basket nor cannon is held. */
    predicate MouseOk()
      reads this
    {
      && -1 <= mouseBasket <= 1
      && (mouseCannon == -1 || mouseCannon == 1)
      && (mouseShoot == -1 || mouseShoot == 1)
      && (mouseShoot == 1 ==> mouseBasket == -1 && mouseCannon == -1)
    }

    /** Everything `Valid` asks for except the bricks: array sizes, basket colours
        and widths, aligned cannon bodies, the speed bounds, the counters and the
        drag state. */
    predicate Settled()
      reads this, bucket, gun
    {
      && Sized()
      && bucket[0].c == Green && bucket[1].c == Red
      && (forall k :: 0 <= k < BasketCount ==> bucket[k].x2 - bucket[k].x1 == 11.0)
      && GunsAligned()
      && 0.1 <= speed <= 0.5
      && y >= 0 && 0 <= missed < BrickCount
      && hitCount >= 0
      && MouseOk()
    }

    predicate Valid()
      reads this, boxes, bucket, gun
    {
      && Settled()
      && (forall k :: 0 <= k < BrickCount ==> WellFormed(boxes[k]))
    }

    /** Start-up: `createCannon`, `createBasket`, the fifteen `createRectangle`
        calls of `initGL` with the draws `rolls`, `createMirrors`, and the other
        globals' initial values; `now` is the clock reading that initialises
        `last_update_time`. */
    constructor (trig: Trig, pi: real, root3: real, rolls: seq<Roll>, now: real)
      requires root3 > 0.0 && |rolls| == BrickCount
      ensures Valid()
      ensures Totals() == Tally(0, 0, false) && speed == 0.1 && missed == 0
      ensures mirror == MirrorLayout(trig, pi, root3)
      ensures y == Drift(rolls)
      ensures forall k :: 0 <= k < BrickCount ==> boxes[k] == NewBrick(rolls[k], Drift(rolls[..k + 1]))
      ensures forall k :: 0 <= k < LaserSlots ==> !laser[k]
      ensures fresh(boxes) && fresh(bucket) && fresh(gun) && fresh(bullet) && fresh(laser)
    {
      gun := new Cannon[2][Cannon(-39.0, 0.0, 0.0, 0.0), Cannon(-31.0, 0.0, 0.0, 0.0)];
      bucket := new Basket[2][Basket(10.5, 21.5, 0.0, Green), Basket(-21.5, -10.5, 0.0, Red)];
      boxes := new Brick[BrickCount];
      bullet := new Segment[LaserSlots];
      laser := new bool[LaserSlots](_ => false);
      mirror := MirrorLayout(trig, pi, root3);
      points, hitCount, gameover := 0, 0, false;
      speed := 0.1;
      y, missed := 0, 0;
      mouseBasket, mouseShoot, mouseCannon := -1, -1, -1;
      mX, mY := 0.0, 0.0;
      lastUpdateTime := now;
      new;
      assert Settled();
      SpawnAll(rolls);
    }

    /** The loop of `initGL` that creates the fifteen bricks, brick i from the
        draws `rolls[i]`: each call grows the offset first, so brick k sits at the
        starting offset plus the draws of bricks 0..k. */
    method SpawnAll(rolls: seq<Roll>)
      requires Settled() && |rolls| == BrickCount
      modifies this`y, boxes
      ensures Valid()
      ensures y == old(y) + Drift(rolls)
      ensures forall k :: 0 <= k < BrickCount ==> boxes[k] == NewBrick(rolls[k], old(y) + Drift(rolls[..k + 1]))
    {
      ghost var y0 := y;
      for i := 0 to BrickCount
        invariant Settled() && y == y0 + Drift(rolls[..i])
        invariant SpawnedUpTo(boxes[..], rolls, i, y0)
      {
        ghost var cur := boxes[..];
        CreateRectangle(i, rolls[i]);
        SpawnedStep(cur, boxes[..], rolls, i, y0, y);
      }
      assert rolls[..BrickCount] == rolls;
    }

    /** `createRectangle(i)`: the spawn offset grows by the second draw modulo
        20 and brick i, alone, is replaced by a new brick at that offset. */
    method CreateRectangle(i: int, roll: Roll)
      requires Sized() && 0 <= i < BrickCount && y >= 0
      modifies this`y, boxes
      ensures y == old(y) + roll.dy % 20 && y >= old(y)
      ensures boxes[..] == old(boxes[..])[i := NewBrick(roll, y)]
      ensures SpawnedFrom(boxes[i], roll) && WellFormed(boxes[i])
      ensures old(Settled()) ==> Settled()
    {
      y := y + roll.dy % 20;
      boxes[i] := NewBrick(roll, y);
    }

    /** `score`: every brick against every basket, in index order. */
    method ScoreCatches()
      requires Valid()
      modifies this`points, this`gameover
      ensures Valid()
      ensures Totals() == ScoreAll(old(Totals()), boxes[..], bucket[..])
    {
      ghost var t0 := Totals();
      for i := 0 to BrickCount
        invariant Totals() == ScoreAll(t0, boxes[..i], bucket[..])
      {
        ghost var ti := Totals();
        for j := 0 to BasketCount
          invariant Totals() == ScoreBrick(ti, boxes[i], bucket[..j])
        {
          var b, k := boxes[i], bucket[j];
          if b.x1 >= k.x1 && b.x2 <= k.x2 && b.y2 <= CatchLine {
            if k.c == b.c {
              points := points + 10;
            } else if b.c == Black {
              gameover := true;
            } else {
              points := points - 5;
            }
          }
          assert bucket[..j + 1][..j] == bucket[..j];
        }
        assert bucket[..BasketCount] == bucket[..];
        assert boxes[..i + 1][..i] == boxes[..i];
      }
      assert boxes[..BrickCount] == boxes[..];
    }

    /** The selection loop of `shoot(i)`, on the current bricks. */
    method SelectTarget(i: int, trig: Trig) returns (t: Target)
      requires Sized() && 0 <= i < LaserSlots
      ensures t == Nearest(boxes[..], Line(trig.tan(bullet[i].m), bullet[i].c), Target(-1, bullet[i].x2, bullet[i].y2))
    {
      var slope := trig.tan(bullet[i].m);
      var c := bullet[i].c;
      ghost var line := Line(slope, c);
      t := Target(-1, bullet[i].x2, bullet[i].y2);
      ghost var far := t;
      for j := 0 to BrickCount
        invariant t == Nearest(boxes[..j], line, far)
      {
        ghost var t0 := t;
        var x := boxes[j].x1;
        var yy := slope * x + c;
        assert yy == line(x);
        if boxes[j].y1 <= yy && boxes[j].y2 >= yy && boxes[j].y1 < FieldTop && boxes[j].y2 > CatchLine {
          if x < t.x {
            t := Target(j, x, yy);
          }
        }
        assert t == Edge(t0, j, boxes[j], boxes[j].x1, line);
        ghost var t1 := t;
        x := boxes[j].x2;
        yy := slope * x + c;
        assert yy == line(x);
        if boxes[j].y1 <= yy && boxes[j].y2 >= yy && boxes[j].y1 < FieldTop && boxes[j].y2 > CatchLine {
          if x < t.x {
            t := Target(j, x, yy);
          }
        }
        assert t == Edge(t1, j, boxes[j], boxes[j].x2, line);
        assert boxes[..j + 1][..j] == boxes[..j];
      }
      assert boxes[..BrickCount] == boxes[..];
    }

    /** `shoot(i)`: laser slot i is checked against the bricks. Without a struck
        edge nothing changes. Otherwise the hit is scored, the laser is cut at the
        struck edge, the slots after i are emptied and only the struck brick is
        replaced with a new one from `roll`. */
    method Shoot(i: int, trig: Trig, roll: Roll) returns (alert: Alert)
      requires Valid() && 0 <= i < LaserSlots
      modifies this`points, this`hitCount, this`gameover, this`y, boxes, bullet, laser
      ensures Valid()
      ensures var b := old(bullet[i]);
        var t := Nearest(old(boxes[..]), Line(trig.tan(b.m), b.c), Target(-1, b.x2, b.y2));
        && (t.min < 0 ==>
              && Totals() == old(Totals()) && y == old(y) && alert == Quiet
              && boxes[..] == old(boxes[..]) && bullet[..] == old(bullet[..]) && laser[..] == old(laser[..]))
        && (t.min >= 0 ==>
              && 0 <= t.min < BrickCount
              && Totals() == ApplyHit(old(Totals()), old(boxes[t.min]).c)
              && alert == AlertOf(hitCount)
              && bullet[..] == old(bullet[..])[i := Leg(b.x1, b.y1, Some((t.x, t.y)), b.m, b.c, trig)]
              && (forall k :: 0 <= k < LaserSlots ==> laser[k] == (k <= i && old(laser[k])))
              && y == old(y) + roll.dy % 20
              && boxes[..] == old(boxes[..])[t.min := NewBrick(roll, y)])
    {
      var t := SelectTarget(i, trig);
      NearestStrict(boxes[..], Line(trig.tan(bullet[i].m), bullet[i].c), Target(-1, bullet[i].x2, bullet[i].y2));
      alert := Quiet;
      if t.min != -1 {
        alert := ScoreHit(boxes[t.min].c);
        var b := bullet[i];
        bullet[i] := Leg(b.x1, b.y1, Some((t.x, t.y)), b.m, b.c, trig);
        ClearAfter(i);
        CreateRectangle(t.min, roll);
      }
    }

    /** The scoring part of `shoot` for a struck brick of colour `c`, with the
        console warning that follows it. */
    method ScoreHit(c: int) returns (alert: Alert)
      requires Valid() && 0 <= c <= 2
      modifies this`points, this`hitCount, this`gameover
      ensures Valid()
      ensures Totals() == ApplyHit(old(Totals()), c)
      ensures alert == AlertOf(hitCount)
    {
      if c > 0 {
        hitCount := hitCount + 1;
        points := points + 10;
        if hitCount >= 500 {
          gameover := true;
        }
      } else if c == 0 {
        hitCount := hitCount + 5;
        points := points - 5;
        if hitCount >= 500 {
          gameover := true;
        }
      }
      alert := AlertOf(hitCount);
    }

    /** The slots after i are emptied. */
    method ClearAfter(i: int)
      requires Sized() && 0 <= i < LaserSlots
      modifies laser
      ensures forall k :: 0 <= k < LaserSlots ==> laser[k] == (k <= i && old(laser[k]))
    {
      for k := i + 1 to LaserSlots
        invariant forall k' :: 0 <= k' < LaserSlots ==> laser[k'] == (if k' <= i || k' >= k then old(laser[k']) else false)
      {
        laser[k] := false;
      }
    }

    /** The falling part of `draw`: every brick moves down by `speed`. */
    method Fall()
      requires Valid()
      modifies boxes
      ensures Valid()
      ensures forall k :: 0 <= k < BrickCount ==> boxes[k] == Fallen(old(boxes[k]), speed)
    {
      for i := 0 to BrickCount
        invariant forall k :: 0 <= k < i ==> boxes[k] == Fallen(old(boxes[k]), speed)
        invariant forall k :: i <= k < BrickCount ==> boxes[k] == old(boxes[k])
      {
        boxes[i] := Fallen(boxes[i], speed);
      }
    }

    /** The respawn loop of `main`: each missed brick is replaced by the brick
        built from its draws in `rolls` at the offset the loop has reached, while
        the miss counter and the spawn offset follow `Counters`. Afterwards no
        brick is below the catch line. */
    method Respawn(rolls: seq<Roll>)
      requires Valid() && |rolls| == BrickCount
      modifies this`y, this`missed, boxes
      ensures Valid()
      ensures forall k :: 0 <= k < BrickCount ==>
        boxes[k] == if Missed(old(boxes[k])) then Respawned(old(boxes[..]), rolls, k, old(missed), old(y)) else old(boxes[k])
      ensures missed == Counters(old(boxes[..]), rolls, BrickCount, old(missed), old(y)).0
      ensures y == Counters(old(boxes[..]), rolls, BrickCount, old(missed), old(y)).1
      ensures forall k :: 0 <= k < BrickCount ==> !Missed(boxes[k])
    {
      ghost var bs, m0, y0 := boxes[..], missed, y;
      for i := 0 to BrickCount
        invariant Valid()
        invariant RespawnedUpTo(bs, boxes[..], rolls, i, m0, y0, missed, y)
      {
        ghost var cur, m, y1 := boxes[..], missed, y;
        RespawnAt(i, rolls[i]);
        RespawnedStep(bs, cur, boxes[..], rolls, i, m0, y0, m, y1, missed, y);
      }
      assert forall k :: 0 <= k < BrickCount ==> boxes[..][k] == boxes[k];
    }

    /** One turn of the respawn loop, for brick i: a missed brick is counted and
        replaced from `roll` at the grown offset; when the counter then reaches 15,
        counter and offset go back to 0. Nothing else changes. */
    method RespawnAt(i: int, roll: Roll)
      requires Valid() && 0 <= i < BrickCount
      modifies this`y, this`missed, boxes
      ensures Valid()
      ensures Missed(old(boxes[i])) ==>
        && boxes[..] == old(boxes[..])[i := NewBrick(roll, old(y) + roll.dy % 20)]
        && missed == (if old(missed) + 1 == BrickCount then 0 else old(missed) + 1)
        && y == (if old(missed) + 1 == BrickCount then 0 else old(y) + roll.dy % 20)
      ensures !Missed(old(boxes[i])) ==> boxes[..] == old(boxes[..]) && missed == old(missed) && y == old(y)
      ensures boxes[i].y2 >= CatchLine
    {
      if boxes[i].y2 < CatchLine && boxes[i].alive {
        missed := missed + 1;
        boxes[i] := boxes[i].(alive := false);
        CreateRectangle(i, roll);
        if missed == BrickCount {
          y := 0;
          missed := 0;
        }
      }
    }

    /** `translateBaskets`: at most one basket moves, by half a unit, as
        `BasketNudge` picks. */
    method TranslateBaskets(inp: Input)
      requires Valid() && inp.Valid()
      modifies bucket
      ensures Valid()
      ensures match BasketNudge(inp.pressed[KeyLeftControl], inp.pressed[KeyLeftAlt], inp.Held(KeyRight), inp.Held(KeyLeft))
        case None => bucket[..] == old(bucket[..])
        case Some(mv) => bucket[..] == old(bucket[..])[mv.0 := Shifted(old(bucket[mv.0]), mv.1)]
    {
      if inp.pressed[KeyLeftControl] && inp.pressed[KeyRight] && !inp.released[KeyRight] {
        bucket[1] := Shifted(bucket[1], 0.5);
      } else if inp.pressed[KeyLeftControl] && inp.pressed[KeyLeft] && !inp.released[KeyLeft] {
        bucket[1] := Shifted(bucket[1], -0.5);
      } else if inp.pressed[KeyLeftAlt] && inp.pressed[KeyRight] && !inp.released[KeyRight] {
        bucket[0] := Shifted(bucket[0], 0.5);
      } else if inp.pressed[KeyLeftAlt] && inp.pressed[KeyLeft] && !inp.released[KeyLeft] {
        bucket[0] := Shifted(bucket[0], -0.5);
      }
    }

    /** `translateCannon`: S raises both cannon bodies by half a unit, otherwise F
        lowers them. */
    method TranslateCannon(inp: Input)
      requires Valid() && inp.Valid()
      modifies gun
      ensures Valid()
      ensures var d := if inp.Held(KeyS) then 0.5 else if inp.Held(KeyF) then -0.5 else 0.0;
        gun[0] == Raised(old(gun[0]), d) && gun[1] == Raised(old(gun[1]), d)
    {
      if inp.pressed[KeyS] && !inp.released[KeyS] {
        gun[0] := Raised(gun[0], 0.5);
        gun[1] := Raised(gun[1], 0.5);
      } else if inp.pressed[KeyF] && !inp.released[KeyF] {
        gun[0] := Raised(gun[0], -0.5);
        gun[1] := Raised(gun[1], -0.5);
      } else {
        assert Raised(gun[0], 0.0) == gun[0] && Raised(gun[1], 0.0) == gun[1];
      }
    }

    /** `rotateCannon`: A turns both cannon bodies by 0.01 radians anticlockwise,
        otherwise D turns them clockwise. */
    method RotateCannon(inp: Input)
      requires Valid() && inp.Valid()
      modifies gun
      ensures Valid()
      ensures var d := if inp.Held(KeyA) then 0.01 else if inp.Held(KeyD) then -0.01 else 0.0;
        forall k :: 0 <= k < 2 ==> gun[k] == old(gun[k]).(rotate := old(gun[k]).rotate + d)
    {
      if inp.pressed[KeyA] && !inp.released[KeyA] {
        gun[0] := gun[0].(rotate := gun[0].rotate + 0.01);
        gun[1] := gun[1].(rotate := gun[1].rotate + 0.01);
      } else if inp.pressed[KeyD] && !inp.released[KeyD] {
        gun[0] := gun[0].(rotate := gun[0].rotate - 0.01);
        gun[1] := gun[1].(rotate := gun[1].rotate - 0.01);
      }
    }

    /** `block_speed`: N speeds the bricks up by 0.1, up to 0.5, then M slows them
        down by 0.1, down to 0.1. */
    method BlockSpeed(inp: Input)
      requires Valid() && inp.Valid()
      modifies this`speed
      ensures Valid()
      ensures var up := if inp.pressed[KeyN] then (if old(speed) + 0.1 > 0.5 then 0.5 else old(speed) + 0.1) else old(speed);
        speed == if inp.pressed[KeyM] then (if up - 0.1 < 0.1 then 0.1 else up - 0.1) else up
    {
      if inp.pressed[KeyN] {
        speed := speed + 0.1;
        if speed > 0.5 {
          speed := 0.5;
        }
      }
      if inp.pressed[KeyM] {
        speed := speed - 0.1;
        if speed < 0.1 {
          speed := 0.1;
        }
      }
    }

    /** Basket k is the one a press at (x, y) picks up: the first basket under the
        cursor, with the grab point moved to its centre. */
    predicate Picked(k: int, x: real, y: real)
      reads this, bucket
    {
      && 0 <= k < bucket.Length
      && OnBasket(bucket[k], x, y)
      && (forall j :: 0 <= j < k ==> !OnBasket(bucket[j], x, y))
      && mX == bucket[k].x1 + 5.5
    }

    /** The drag state after a press at (x, y): the first basket under the cursor
        is held, with the grab point at its centre, or none is and the grab point
        is the cursor; the cannon is held iff it is under the grab point, and then
        the grab point is at its height; a shot is aimed iff neither is held. */
    predicate GrabbedAt(x: real, y: real, trig: Trig)
      reads this, bucket, gun
    {
      && Sized() && -1 <= mouseBasket < BasketCount
      && (mouseBasket == -1 <==> forall j :: 0 <= j < BasketCount ==> !OnBasket(bucket[j], x, y))
      && (mouseBasket != -1 ==> Picked(mouseBasket, x, y))
      && (mouseBasket == -1 ==> mX == x)
      && (mouseCannon == 1 <==> OnCannon(gun[0], mX, y, trig))
      && mY == (if mouseCannon == 1 then gun[0].y else y)
      && (mouseShoot == 1 <==> mouseBasket == -1 && mouseCannon == -1)
    }

    /** The press branch of `mouse_movement`, taken while nothing is held: the first
        basket under the cursor is picked up (and the grab point moved to its
        centre), then the cannon is picked up if it is under the grab point, and
        when neither is held the press aims a shot. */
    method Grab(cx: real, cy: real, trig: Trig)
      requires Valid() && mouseBasket == -1 && mouseCannon == -1 && mouseShoot == -1
      modifies this`mouseBasket, this`mouseCannon, this`mouseShoot, this`mX, this`mY
      ensures Valid()
      ensures GrabbedAt(WorldX(cx), WorldY(cy), trig)
    {
      mX := WorldX(cx);
      mY := WorldY(cy);
      PickBasket();
      if mX >= -40.0 && mX <= -39.0 + 8.0 * trig.cos(gun[0].rotate) && mY >= gun[0].y - 5.0 && mY <= gun[0].y + 5.0 {
        mY := gun[0].y;
        mouseCannon := 1;
      }
      if mouseCannon == -1 && mouseBasket == -1 {
        mouseShoot := 1;
      }
    }

    /** The basket loop of the press branch: the first basket under the grab point
        (mX, mY) is held and the grab point moves to its centre. */
    method PickBasket()
      requires Sized() && mouseBasket == -1
      modifies this`mouseBasket, this`mX
      ensures mouseBasket == -1 ==> mX == old(mX) && forall j :: 0 <= j < BasketCount ==> !OnBasket(bucket[j], mX, mY)
      ensures mouseBasket != -1 ==> Picked(mouseBasket, old(mX), mY)
    {
      for i := 0 to BasketCount
        invariant mouseBasket == -1 ==> mX == old(mX) && forall j :: 0 <= j < i ==> !OnBasket(bucket[j], mX, mY)
        invariant mouseBasket != -1 ==> Picked(mouseBasket, old(mX), mY)
      {
        if mX >= bucket[i].x1 && mX <= bucket[i].x2 && mY >= -40.0 && mY <= CatchLine {
          mouseBasket := i;
          mX := bucket[i].x1 + 5.5;
          break;
        }
      }
    }

    /** The release branch of `mouse_movement`. A held cannon (with no basket held)
        moves to the cursor height; an aimed shot turns the cannon to `aim`, the
        angle `atan` gives for the slope from the pivot to the cursor; a held basket
        is centred on the cursor when the cursor is in the basket strip. The cannon
        stays held only when a basket was held with it. */
    method Drop(cx: real, cy: real, aim: real)
      requires Valid()
      modifies this`mouseBasket, this`mouseCannon, this`mouseShoot, gun, bucket
      ensures Valid()
      ensures Released(old(gun[..]), old(bucket[..]), old(mouseBasket), old(mouseCannon), old(mouseShoot), mX, mY,
                       WorldX(cx), WorldY(cy), aim, gun[..], bucket[..], mouseBasket, mouseCannon, mouseShoot)
    {
      var x, y := WorldX(cx), WorldY(cy);
      if mouseCannon != -1 && mouseShoot == -1 && mouseBasket == -1 {
        gun[0] := gun[0].(y := y, translate := gun[0].translate + y - mY);
        gun[1] := gun[1].(y := y, translate := gun[1].translate + y - mY);
        mouseCannon := -1;
      }
      if mouseShoot != -1 && mouseBasket == -1 && mouseCannon == -1 {
        gun[0] := gun[0].(rotate := aim);
        gun[1] := gun[1].(rotate := aim);
        mouseShoot := -1;
      }
      if mouseBasket != -1 {
        if x <= 38.0 && x >= -38.0 && y <= CatchLine && y >= -40.0 {
          var k := bucket[mouseBasket];
          bucket[mouseBasket] := k.(x1 := x - 5.5, x2 := x + 5.5, translate := k.translate + x - mX);
        }
        mouseBasket := -1;
      }
    }

    /** `mouse_movement`: a left press while nothing is held grabs; otherwise a
        released left button drops; otherwise nothing changes. */
    method MouseMovement(inp: Input, cx: real, cy: real, trig: Trig, aim: real)
      requires Valid() && inp.Valid()
      modifies this`mouseBasket, this`mouseCannon, this`mouseShoot, this`mX, this`mY, gun, bucket
      ensures Valid()
      ensures var idle := old(mouseBasket) == -1 && old(mouseCannon) == -1 && old(mouseShoot) == -1;
        var down := inp.buttonPressed[MouseButtonLeft] && !inp.buttonReleased[MouseButtonLeft];
        && (idle && down ==> GrabbedAt(WorldX(cx), WorldY(cy), trig) && gun[..] == old(gun[..]) && bucket[..] == old(bucket[..]))
        && (!(idle && down) && inp.buttonReleased[MouseButtonLeft] ==>
              && mX == old(mX) && mY == old(mY)
              && Released(old(gun[..]), old(bucket[..]), old(mouseBasket), old(mouseCannon), old(mouseShoot), mX, mY,
                          WorldX(cx), WorldY(cy), aim, gun[..], bucket[..], mouseBasket, mouseCannon, mouseShoot))
        && (!(idle && down) && !inp.buttonReleased[MouseButtonLeft] ==>
              && gun[..] == old(gun[..]) && bucket[..] == old(bucket[..])
              && mouseBasket == old(mouseBasket) && mouseCannon == old(mouseCannon) && mouseShoot == old(mouseShoot))
    {
      if mouseBasket == -1 && mouseCannon == -1 && mouseShoot == -1 && inp.buttonPressed[MouseButtonLeft] && !inp.buttonReleased[MouseButtonLeft] {
        Grab(cx, cy, trig);
      } else if inp.buttonReleased[MouseButtonLeft] {
        Drop(cx, cy, aim);
      }
    }

    /** The firing loop of `draw`: the legs of the laser go to slots 0.. of `bullet`
        and those slots are marked as holding a laser; the other slots keep their
        contents. */
    method Fire(trig: Trig) returns (legs: seq<Segment>, used: seq<nat>)
      requires Valid()
      modifies bullet, laser
      ensures Valid()
      ensures Fired(legs, used, Start(gun[0], gun[1], trig), mirror, trig)
      ensures bullet[..|legs|] == legs && bullet[|legs|..] == old(bullet[|legs|..])
      ensures forall k :: 0 <= k < LaserSlots ==> laser[k] == (k < |legs| || old(laser[k]))
    {
      legs, used := Trace(gun[0], gun[1], mirror, trig);
      Load(legs);
    }

    /** The `createLaser` calls of the firing loop: leg k goes to slot k, which is
        marked as holding a laser. */
    method Load(legs: seq<Segment>)
      requires Sized() && |legs| <= LaserSlots
      modifies bullet, laser
      ensures bullet[..|legs|] == legs && bullet[|legs|..] == old(bullet[|legs|..])
      ensures forall k :: 0 <= k < LaserSlots ==> laser[k] == (k < |legs| || old(laser[k]))
    {
      for k := 0 to |legs|
        invariant bullet[..k] == legs[..k] && bullet[|legs|..] == old(bullet[|legs|..])
        invariant forall k' :: 0 <= k' < LaserSlots ==> laser[k'] == (k' < k || old(laser[k']))
      {
        bullet[k] := legs[k];
        laser[k] := true;
        assert bullet[..k + 1] == bullet[..k] + [legs[k]];
        assert legs[..k + 1] == legs[..k] + [legs[k]];
      }
    }

    /** The laser window of `draw`, for one call (one frame): within 0.2 time
        units of the last firing gate the slot loop runs as `SlotsShot` states;
        after that the slots are emptied. A hit empties the later slots, so one
        call scores at most one hit; the window spans many frames, and each frame
        shoots the cut legs again. `rolls[i]` are the draws for the brick that slot
        i may replace. */
    method LaserWindow(now: real, trig: Trig, rolls: seq<Roll>)
      requires Valid() && |rolls| == LaserSlots
      modifies this`points, this`hitCount, this`gameover, this`y, boxes, bullet, laser
      ensures Valid()
      ensures now - lastUpdateTime < 0.2 ==>
        SlotsShot(old(boxes[..]), old(bullet[..]), old(laser[..]), old(Totals()), old(y), trig, rolls,
                  boxes[..], bullet[..], laser[..], Totals(), y)
      ensures now - lastUpdateTime >= 0.2 ==>
        && (forall k :: 0 <= k < LaserSlots ==> !laser[k])
        && Totals() == old(Totals()) && y == old(y) && boxes[..] == old(boxes[..]) && bullet[..] == old(bullet[..])
      ensures old(gameover) ==> gameover
      ensures hitCount >= old(hitCount)
    {
      if now - lastUpdateTime < 0.2 {
        ShootSlots(trig, rolls);
      } else {
        ClearSlots();
      }
    }

    /** Inside the laser window: the slots are shot in order, stopping at the
        first empty one. */
    method ShootSlots(trig: Trig, rolls: seq<Roll>)
      requires Valid() && |rolls| == LaserSlots
      modifies this`points, this`hitCount, this`gameover, this`y, boxes, bullet, laser
      ensures Valid()
      ensures SlotsShot(old(boxes[..]), old(bullet[..]), old(laser[..]), old(Totals()), old(y), trig, rolls,
                        boxes[..], bullet[..], laser[..], Totals(), y)
      ensures old(gameover) ==> gameover
      ensures hitCount >= old(hitCount)
    {
      ghost var bs, legs, filled, t, y0 := boxes[..], bullet[..], laser[..], Totals(), y;
      ghost var found: Option<(nat, nat)> := None;
      for i := 0 to LaserSlots
        invariant Valid()
        invariant found.None? ==>
          && boxes[..] == bs && bullet[..] == legs && laser[..] == filled && Totals() == t && y == y0
          && FirstHit(bs, legs, filled, trig, 0) == FirstHit(bs, legs, filled, trig, i)
        invariant found.Some? ==>
          && found == FirstHit(bs, legs, filled, trig, 0) && found.value.0 < i
          && SlotsShot(bs, legs, filled, t, y0, trig, rolls, boxes[..], bullet[..], laser[..], Totals(), y)
      {
        if laser[i] {
          var h := ShootSlot(i, trig, rolls[i]);
          if h >= 0 {
            found := Some((i, h as nat));
          }
        } else {
          break;
        }
      }
    }

    /** `shoot(i)` as the laser window sees it: `hit` is the brick leg i strikes
        (-1 for none). With none nothing changes; otherwise the hit is scored,
        brick `hit` is replaced from `roll` at the grown offset, leg i is cut, and
        the slots after i are emptied. */
    method ShootSlot(i: int, trig: Trig, roll: Roll) returns (hit: int)
      requires Valid() && 0 <= i < LaserSlots
      modifies this`points, this`hitCount, this`gameover, this`y, boxes, bullet, laser
      ensures Valid()
      ensures hit == Struck(old(boxes[..]), old(bullet[i]), trig)
      ensures hit == -1 ==>
        Totals() == old(Totals()) && y == old(y) && boxes[..] == old(boxes[..]) && bullet[..] == old(bullet[..]) && laser[..] == old(laser[..])
      ensures hit != -1 ==>
        && 0 <= hit < BrickCount
        && Totals() == ApplyHit(old(Totals()), old(boxes[hit]).c)
        && y == old(y) + roll.dy % 20
        && boxes[..] == old(boxes[..])[hit := NewBrick(roll, y)]
        && bullet[..] == old(bullet[..])[i := CutLeg(old(boxes[..]), old(bullet[i]), trig)]
        && (forall k :: 0 <= k < LaserSlots ==> laser[k] == (k <= i && old(laser[k])))
    {
      var b := bullet[i];
      var t := Nearest(boxes[..], Line(trig.tan(b.m), b.c), Target(-1, b.x2, b.y2));
      var _ := Shoot(i, trig, roll);
      hit := if t.min >= 0 then t.min else -1;
    }

    /** After the laser window: every slot is emptied. */
    method ClearSlots()
      requires Sized()
      modifies laser
      ensures forall k :: 0 <= k < LaserSlots ==> !laser[k]
    {
      for i := 0 to LaserSlots
        invariant forall k :: 0 <= k < i ==> !laser[k]
      {
        laser[i] := false;
      }
    }

    /** The game part of `draw`: the bricks fall; once at least one time unit has
        passed since the last gate (`now` is the first clock reading), a held
        space bar fires and the gate is reset; then the laser window runs at the
        second clock reading `later`. */
    method Draw(inp: Input, trig: Trig, now: real, later: real, rolls: seq<Roll>)
      requires Valid() && inp.Valid() && |rolls| == LaserSlots
      modifies this`points, this`hitCount, this`gameover, this`y, this`lastUpdateTime, boxes, bullet, laser
      ensures Valid()
      ensures lastUpdateTime == (if now - old(lastUpdateTime) >= 1.0 then now else old(lastUpdateTime))
      ensures old(gameover) ==> gameover
      ensures hitCount >= old(hitCount)
    {
      Fall();
      var _, _ := Gate(inp, trig, now);
      LaserWindow(later, trig, rolls);
    }

    /** The firing gate of `draw`: once at least one time unit has passed since the
        last gate, a held space bar fires the laser whose legs are `legs`, and the
        gate is reset to `now`. Otherwise no laser slot changes. */
    method Gate(inp: Input, trig: Trig, now: real) returns (legs: seq<Segment>, used: seq<nat>)
      requires Valid() && inp.Valid()
      modifies this`lastUpdateTime, bullet, laser
      ensures Valid()
      ensures lastUpdateTime == (if now - old(lastUpdateTime) >= 1.0 then now else old(lastUpdateTime))
      ensures now - old(lastUpdateTime) >= 1.0 && inp.pressed[KeySpace] ==>
        && Fired(legs, used, Start(gun[0], gun[1], trig), mirror, trig)
        && bullet[..|legs|] == legs && bullet[|legs|..] == old(bullet[|legs|..])
        && (forall k :: 0 <= k < LaserSlots ==> laser[k] == (k < |legs| || old(laser[k])))
      ensures !(now - old(lastUpdateTime) >= 1.0 && inp.pressed[KeySpace]) ==>
        legs == [] && bullet[..] == old(bullet[..]) && laser[..] == old(laser[..])
    {
      legs, used := [], [];
      if now - lastUpdateTime >= 1.0 {
        if inp.pressed[KeySpace] {
          legs, used := Fire(trig);
        }
        lastUpdateTime := now;
      }
    }

    /** The input half of a turn of the `main` loop: mouse, baskets, catches and
        cannon, in that order. The catches are scored against the baskets where
        the mouse and the keys have left them. */
    method Steer(inp: Input, cx: real, cy: real, aim: real, trig: Trig)
      requires Valid() && inp.Valid()
      modifies this`points, this`gameover, this`mouseBasket, this`mouseCannon, this`mouseShoot, this`mX, this`mY, bucket, gun
      ensures Valid()
      ensures Totals() == ScoreAll(old(Totals()), boxes[..], bucket[..])
      ensures old(gameover) ==> gameover
      ensures hitCount == old(hitCount)
    {
      MouseMovement(inp, cx, cy, trig, aim);
      TranslateBaskets(inp);
      ghost var t := Totals();
      ScoreCatches();
      ScoreAllGameover(t, boxes[..], bucket[..]);
      TranslateCannon(inp);
      RotateCannon(inp);
    }

    /** The middle of a turn of the `main` loop, between the input half and
        `draw`: the respawn loop, `block_speed`, `zoom` and `pan`. Afterwards no
        brick is left below the catch line, the speed has taken its key steps, and
        an unzoomed view is centred. */
    method Upkeep(inp: Input, view: View, respawns: seq<Roll>)
      requires Valid() && inp.Valid() && view.Valid() && |respawns| == BrickCount
      modifies this`y, this`missed, this`speed, boxes, view
      ensures Valid() && view.Valid()
      ensures forall k :: 0 <= k < BrickCount ==> !Missed(boxes[k])
      ensures var up := if inp.pressed[KeyN] then (if old(speed) + 0.1 > 0.5 then 0.5 else old(speed) + 0.1) else old(speed);
        speed == if inp.pressed[KeyM] then (if up - 0.1 < 0.1 then 0.1 else up - 0.1) else up
      ensures view.zoomFactor == 1.0 ==> view.panFactor == 0.0
    {
      Respawn(respawns);
      BlockSpeed(inp);
      view.Keys(inp);
    }

    /** One turn of the `main` loop: the input half, then respawns, brick speed,
        zoom, pan and `draw`. The game, once over, stays over, and the hit count
        never goes down. */
    method Frame(inp: Input, view: View, cx: real, cy: real, aim: real, trig: Trig,
                 now: real, later: real, respawns: seq<Roll>, shots: seq<Roll>)
      requires Valid() && inp.Valid() && view.Valid()
      requires |respawns| == BrickCount && |shots| == LaserSlots
      modifies this, boxes, bucket, gun, bullet, laser, view
      ensures Valid() && view.Valid()
      ensures old(gameover) ==> gameover
      ensures hitCount >= old(hitCount)
    {
      Steer(inp, cx, cy, aim, trig);
      Upkeep(inp, view, respawns);
      Draw(inp, trig, now, later, shots);
    }
  }
}
