/** The scoring rules: basket catches (`score`), laser hits (the score part of
    `shoot`) and the end-of-game verdict printed by `main`. */
module Scoring {
  import opened Entities

  /** The process-wide score state: `points`, `hit_count` and `gameover`. */
  datatype Tally = Tally(points: int, hitCount: int, gameover: bool)

  /** Brick `b` lies inside basket `k` and has reached the catch line. */
  predicate InBasket(b: Brick, k: Basket)
  {
    b.x1 >= k.x1 && b.x2 <= k.x2 && b.y2 <= CatchLine
  }

  /** What one brick/basket pair amounts to in one call of `score`. */
  datatype Catch = NoCatch | Match | BlackCaught | WrongBasket

  function CatchOf(b: Brick, k: Basket): (r: Catch)
    ensures r == NoCatch <==> !InBasket(b, k)
    ensures r == Match <==> InBasket(b, k) && k.c == b.c
    ensures r == BlackCaught <==> InBasket(b, k) && k.c != b.c && b.c == Black
    ensures r == WrongBasket <==> InBasket(b, k) && k.c != b.c && b.c != Black
  {
    if !InBasket(b, k) then NoCatch
    else if k.c == b.c then Match
    else if b.c == Black then BlackCaught
    else WrongBasket
  }

  /** The effect of one catch on the tally. */
  function ApplyCatch(t: Tally, r: Catch): (u: Tally)
    ensures u.hitCount == t.hitCount
    ensures u.points - t.points == (match r case Match => 10 case WrongBasket => -5 case _ => 0)
    ensures u.gameover <==> t.gameover || r == BlackCaught
  {
    match r
    case NoCatch => t
    case Match => t.(points := t.points + 10)
    case BlackCaught => t.(gameover := true)
    case WrongBasket => t.(points := t.points - 5)
  }

  /** Brick `b` checked against the baskets `ks`, in index order. */
  function ScoreBrick(t: Tally, b: Brick, ks: seq<Basket>): (u: Tally)
    ensures u.hitCount == t.hitCount
    decreases |ks|
  {
    if |ks| == 0 then t
    else ApplyCatch(ScoreBrick(t, b, ks[..|ks| - 1]), CatchOf(b, ks[|ks| - 1]))
  }

  /** One call of `score`: every brick of `bs`, in index order, against every basket
      of `ks`. Catches are the only thing that move the tally, and the hit count is
      never touched. */
  function ScoreAll(t: Tally, bs: seq<Brick>, ks: seq<Basket>): (u: Tally)
    ensures u.hitCount == t.hitCount
    decreases |bs|
  {
    if |bs| == 0 then t
    else ScoreBrick(ScoreAll(t, bs[..|bs| - 1], ks), bs[|bs| - 1], ks)
  }

  lemma {:induction false} ScoreBrickGameover(t: Tally, b: Brick, ks: seq<Basket>)
    ensures ScoreBrick(t, b, ks).gameover <==> t.gameover || exists j :: 0 <= j < |ks| && CatchOf(b, ks[j]) == BlackCaught
    decreases |ks|
  {
    if |ks| > 0 {
      var ks' := ks[..|ks| - 1];
      ScoreBrickGameover(t, b, ks');
      assert forall j :: 0 <= j < |ks'| ==> ks'[j] == ks[j];
    }
  }

  /** `score` ends the game exactly when it was over already or some black brick
      sits in some basket. */
  lemma {:induction false} ScoreAllGameover(t: Tally, bs: seq<Brick>, ks: seq<Basket>)
    ensures ScoreAll(t, bs, ks).gameover <==>
      t.gameover || exists i, j :: 0 <= i < |bs| && 0 <= j < |ks| && CatchOf(bs[i], ks[j]) == BlackCaught
    decreases |bs|
  {
    if |bs| > 0 {
      var bs' := bs[..|bs| - 1];
      ScoreAllGameover(t, bs', ks);
      ScoreBrickGameover(ScoreAll(t, bs', ks), bs[|bs| - 1], ks);
      assert forall i :: 0 <= i < |bs'| ==> bs'[i] == bs[i];
    }
  }

  lemma {:induction false} ScoreBrickShift(t: Tally, t': Tally, b: Brick, ks: seq<Basket>)
    ensures ScoreBrick(t, b, ks).points - t.points == ScoreBrick(t', b, ks).points - t'.points
    decreases |ks|
  {
    if |ks| > 0 {
      ScoreBrickShift(t, t', b, ks[..|ks| - 1]);
    }
  }

  /** The points a call of `score` adds depend only on the bricks and baskets, not on
      the tally it starts from. */
  lemma {:induction false} ScoreAllShift(t: Tally, t': Tally, bs: seq<Brick>, ks: seq<Basket>)
    ensures ScoreAll(t, bs, ks).points - t.points == ScoreAll(t', bs, ks).points - t'.points
    decreases |bs|
  {
    if |bs| > 0 {
      var bs' := bs[..|bs| - 1];
      ScoreAllShift(t, t', bs', ks);
      ScoreBrickShift(ScoreAll(t, bs', ks), ScoreAll(t', bs', ks), bs[|bs| - 1], ks);
    }
  }

  /** A brick that stays inside a basket scores again on the next call: two calls of
      `score` on unchanged bricks and baskets add twice the points of one. */
  lemma ScoreRepeats(t: Tally, bs: seq<Brick>, ks: seq<Basket>)
    ensures ScoreAll(ScoreAll(t, bs, ks), bs, ks).points - t.points == 2 * (ScoreAll(t, bs, ks).points - t.points)
  {
    ScoreAllShift(ScoreAll(t, bs, ks), t, bs, ks);
  }

  lemma {:induction false} ScoreBrickOutside(t: Tally, b: Brick, ks: seq<Basket>)
    requires forall j :: 0 <= j < |ks| ==> !InBasket(b, ks[j])
    ensures ScoreBrick(t, b, ks) == t
    decreases |ks|
  {
    if |ks| > 0 {
      ScoreBrickOutside(t, b, ks[..|ks| - 1]);
    }
  }

  /** When no brick is in any basket, `score` changes nothing. */
  lemma {:induction false} ScoreAllNoCatch(t: Tally, bs: seq<Brick>, ks: seq<Basket>)
    requires forall i, j :: 0 <= i < |bs| && 0 <= j < |ks| ==> !InBasket(bs[i], ks[j])
    ensures ScoreAll(t, bs, ks) == t
    decreases |bs|
  {
    if |bs| > 0 {
      ScoreAllNoCatch(t, bs[..|bs| - 1], ks);
      ScoreBrickOutside(t, bs[|bs| - 1], ks);
    }
  }

  /** The console warning that follows a laser hit. */
  datatype Alert = Quiet | RunningLow | OutOfLasers

  function AlertOf(hitCount: int): (a: Alert)
    ensures a == OutOfLasers <==> hitCount >= 500
    ensures a == RunningLow <==> 400 <= hitCount < 500
  {
    if hitCount >= 500 then OutOfLasers
    else if hitCount >= 400 then RunningLow
    else Quiet
  }

  /** The score part of a laser hit on a brick of colour `c`: a coloured brick costs
      one laser and earns 10 points, a black one costs five lasers and 5 points;
      reaching 500 lasers ends the game. */
  function ApplyHit(t: Tally, c: int): (u: Tally)
    ensures c > 0 ==> u.hitCount == t.hitCount + 1 && u.points == t.points + 10
    ensures c == 0 ==> u.hitCount == t.hitCount + 5 && u.points == t.points - 5
    ensures c < 0 ==> u == t
    ensures c >= 0 ==> (u.gameover <==> t.gameover || u.hitCount >= 500)
  {
    if c > 0 then
      var h := t.hitCount + 1;
      Tally(t.points + 10, h, t.gameover || h >= 500)
    else if c == 0 then
      var h := t.hitCount + 5;
      Tally(t.points - 5, h, t.gameover || h >= 500)
    else t
  }

  /** A run of laser hits, on bricks of the colours `cs` in order. */
  function ApplyHits(t: Tally, cs: seq<int>): Tally
    decreases |cs|
  {
    if |cs| == 0 then t else ApplyHits(ApplyHit(t, cs[0]), cs[1..])
  }

  /** The lasers a run of hits uses up. */
  function LasersUsed(cs: seq<int>): (n: nat)
    decreases |cs|
  {
    if |cs| == 0 then 0 else (if cs[0] > 0 then 1 else if cs[0] == 0 then 5 else 0) + LasersUsed(cs[1..])
  }

  /** Starting from a running game, lasers alone end it exactly when the hit count
      has reached 500, whatever the order of the hits; the hit count is the lasers
      used. */
  lemma {:induction false} HitsEndGameAt500(t: Tally, cs: seq<int>)
    requires !t.gameover && t.hitCount < 500
    ensures ApplyHits(t, cs).hitCount == t.hitCount + LasersUsed(cs)
    ensures ApplyHits(t, cs).gameover <==> ApplyHits(t, cs).hitCount >= 500
    decreases |cs|
  {
    if |cs| > 0 {
      var u := ApplyHit(t, cs[0]);
      if u.gameover {
        HitsKeepGameover(u, cs[1..]);
      } else {
        HitsEndGameAt500(u, cs[1..]);
      }
    }
  }

  /** Once over, the game stays over through further hits, and hits never lower the
      hit count. */
  lemma {:induction false} HitsKeepGameover(t: Tally, cs: seq<int>)
    requires t.gameover
    ensures ApplyHits(t, cs).gameover
    ensures ApplyHits(t, cs).hitCount == t.hitCount + LasersUsed(cs)
    decreases |cs|
  {
    if |cs| > 0 {
      HitsKeepGameover(ApplyHit(t, cs[0]), cs[1..]);
    }
  }

  /** The end-of-game verdicts, from worst to best. */
  datatype Tier = BeMoreCareful | NotBad | WellDone | GoodPlayer | GreatScore | Amazing | Legend

  /** The verdict `main` prints for the final score. The last test of the source's
      else-if chain (`points > 500`) always holds where it is reached. */
  function TierOf(points: int): (t: Tier)
    ensures t == BeMoreCareful <==> points <= 0
    ensures t == Legend <==> points > 500
  {
    if points <= 0 then BeMoreCareful
    else if points <= 100 && points > 0 then NotBad
    else if points <= 200 && points > 100 then WellDone
    else if points <= 300 && points > 200 then GoodPlayer
    else if points <= 400 && points > 300 then GreatScore
    else if points <= 500 && points > 400 then Amazing
    else Legend
  }

  function Rank(t: Tier): nat
  {
    match t
    case BeMoreCareful => 0
    case NotBad => 1
    case WellDone => 2
    case GoodPlayer => 3
    case GreatScore => 4
    case Amazing => 5
    case Legend => 6
  }

  /** The verdict is the number of started hundreds of points, from 0 for no points
      up to 6 above 500. */
  lemma TierBands(points: int)
    ensures Rank(TierOf(points)) == if points <= 0 then 0 else if points > 500 then 6 else (points + 99) / 100
  {
  }

  /** A higher score never earns a worse verdict. */
  lemma TierMonotone(p: int, q: int)
    requires p <= q
    ensures Rank(TierOf(p)) <= Rank(TierOf(q))
  {
    TierBands(p);
    TierBands(q);
  }
}
