/**
 * Falling boxes. A box is the pair (top, left) of its style; tops are in pixels
 * (half pixels occur since the speed moves in steps of 0.5), lefts are whole
 * pixels since they come from Math.floor.
 */
module Obstacles {
  import opened Difficulty
  import Road

  datatype Box = Box(top: real, left: int)

  /** The top of the box createBox(yCoefficient) makes: (yCoefficient + 1) * 350 above the road. */
  function CreatedTop(yCoefficient: int): (top: real)
    ensures yCoefficient >= 0 ==> top <= -350.0
  {
    -((yCoefficient + 1) * 350) as real
  }

  /** The top app.ts gives a box that has fallen past the road. */
  const RecycledTop: real := -1000.0

  /**
   * parseInt applied to the rendered number "<y>px": the integer part of y,
   * i.e. truncation toward zero.
   */
  function Trunc(y: real): (t: int)
    ensures 0.0 <= y ==> t as real <= y < t as real + 1.0
    ensures y < 0.0 ==> t as real - 1.0 < y <= t as real
  {
    if y >= 0.0 then y.Floor else -((-y).Floor)
  }

  /** The fractional part goes, a whole number survives. */
  lemma TruncOfWhole(k: int)
    ensures Trunc(k as real) == k
  {
  }

  /** Math.floor(Math.random() * width) for the value r that Math.random returned. */
  function RandomLeft(r: real, width: int): (left: int)
    requires 0.0 <= r < 1.0 && width > 0
    ensures 0 <= left < width
  {
    var w := width as real;
    assert r * w < w by {
      assert (1.0 - r) * w > 0.0;
    }
    (r * w).Floor
  }

  /**
   * The left app.js gives a recycled box: Math.floor(r1 * Math.floor(r2 * width)),
   * r1 being drawn first. It is never right of the single-draw value.
   */
  function RandomLeftJs(r1: real, r2: real, width: int): (left: int)
    requires 0.0 <= r1 < 1.0 && 0.0 <= r2 < 1.0 && width > 0
    ensures 0 <= left <= RandomLeft(r2, width) < width
  {
    var inner := RandomLeft(r2, width);
    var scaled := r1 * inner as real;
    ScaleBelow(r1, inner as real);
    FloorBelow(scaled, inner);
    scaled.Floor
  }

  /** Math.floor of a value between 0 and a whole number n lies between 0 and n. */
  lemma FloorBelow(x: real, n: int)
    requires 0.0 <= x <= n as real
    ensures 0 <= x.Floor <= n
  {
  }

  /** A value of Math.random times a width that is not negative lies between 0 and that width. */
  lemma ScaleBelow(r: real, w: real)
    requires 0.0 <= r < 1.0 && w >= 0.0
    ensures 0.0 <= r * w <= w
  {
    assert w - r * w == (1.0 - r) * w;
  }

  /** handleBoxLogic in app.ts: the new top is parseInt(top) + speed. */
  function FallTop(top: real, speedHalves: int): (next: real)
    ensures top.Floor as real == top ==> next == top + Speed(speedHalves)
  {
    Trunc(top) as real + Speed(speedHalves)
  }

  /** The app.ts box step, with r the Math.random value used if the box is recycled. */
  function StepTs(b: Box, speedHalves: int, height: int, width: int, r: real): (next: Box)
    requires 0.0 <= r < 1.0 && width > 0
    ensures FallTop(b.top, speedHalves) >= height as real ==>
              next.top == RecycledTop && 0 <= next.left < width
    ensures FallTop(b.top, speedHalves) < height as real ==>
              next == Box(FallTop(b.top, speedHalves), b.left)
    ensures FellTs(b, next, speedHalves, height, width)
  {
    var y := FallTop(b.top, speedHalves);
    if y >= height as real then Box(RecycledTop, RandomLeft(r, width)) else Box(y, b.left)
  }

  /**
   * What one app.ts step does to a box, whatever the random value: it falls by
   * the speed from its truncated top, or, once past the road's bottom, goes back
   * to 1000 above the road at a left inside it.
   */
  predicate FellTs(before: Box, after: Box, speedHalves: int, height: int, width: int)
  {
    var y := FallTop(before.top, speedHalves);
    if y >= height as real then after.top == RecycledTop && 0 <= after.left < width
    else after == Box(y, before.left)
  }

  /**
   * The store entries createBox(0), ..., createBox(n - 1) add: element start + k
   * starts (k + 1) * 350 pixels above the road, at the left random value first + k gives.
   */
  ghost function CreatedBoxes(random: nat -> real, width: int, start: nat, first: nat, n: nat)
    : (m: map<nat, Box>)
    requires (forall k: nat :: 0.0 <= random(k) < 1.0) && width > 0
    ensures forall id :: id in m <==> start <= id < start + n
  {
    if n == 0 then map[]
    else CreatedBoxes(random, width, start, first, n - 1)[start + n - 1 :=
           Box(CreatedTop(n - 1), RandomLeft(random(first + n - 1), width))]
  }

  /** One more createBox call adds one entry, the next id. */
  lemma CreatedBoxesStep(store: map<nat, Box>, current: map<nat, Box>, random: nat -> real, width: int,
                         start: nat, first: nat, n: nat)
    requires (forall k: nat :: 0.0 <= random(k) < 1.0) && width > 0
    requires current == store + CreatedBoxes(random, width, start, first, n)
    ensures current[start + n := Box(CreatedTop(n), RandomLeft(random(first + n), width))]
            == store + CreatedBoxes(random, width, start, first, n + 1)
  {
  }

  /** A box the app.ts step keeps inside the road: left in [0, width) and top above the bottom. */
  predicate BoxOkTs(b: Box, height: int, width: int)
  {
    0 <= b.left < width && b.top < height as real
  }

  /** The app.ts step keeps every box inside the road (the road is lower than 1000). */
  lemma StepTsKeepsBoxOk(b: Box, speedHalves: int, height: int, width: int, r: real)
    requires 0.0 <= r < 1.0 && width > 0 && height > -1000
    requires 0 <= b.left < width
    ensures BoxOkTs(StepTs(b, speedHalves, height, width, r), height, width)
  {
  }

  /**
   * On the road (top >= 0) the truncation drops the half pixel: after the first
   * frame a box falls floor(speed) per frame, so the levels that add 0.5 do not
   * speed up the boxes the player sees.
   */
  lemma OnRoadFallIsFloorOfSpeed(top: real, speedHalves: int)
    requires top >= 0.0 && speedHalves >= 0
    ensures FallTop(FallTop(top, speedHalves), speedHalves) - FallTop(top, speedHalves)
            == Speed(speedHalves).Floor as real
  {
    var t := Trunc(top);
    var s := Speed(speedHalves);
    var y1 := t as real + s;
    assert y1 >= 0.0;
    assert Trunc(y1) == t + s.Floor;
  }

  /**
   * Above the road (both tops negative) the truncation rounds the other way:
   * a box falls ceil(speed) per frame.
   */
  lemma AboveRoadFallIsCeilOfSpeed(top: real, speedHalves: int)
    requires speedHalves >= 0 && FallTop(top, speedHalves) < 0.0
    ensures var s := Speed(speedHalves);
      FallTop(FallTop(top, speedHalves), speedHalves) - FallTop(top, speedHalves)
      == (if s.Floor as real == s then s.Floor else s.Floor + 1) as real
  {
    var t := Trunc(top);
    var s := Speed(speedHalves);
    var y1 := t as real + s;
    var c := if s.Floor as real == s then s.Floor else s.Floor + 1;
    assert Trunc(y1) == t + c by {
      assert -y1 == (-t - c) as real + (c as real - s);
      assert 0.0 <= c as real - s < 1.0;
      assert (-y1).Floor == -t - c;
    }
  }

  /**
   * The app.js rule, applied before the speed is added: a box at 1000 or more
   * moves up by 1000. It never moves a box down, a y under 2000 ends under
   * 1000, and a box at y 0 or more stays at 0 or more.
   */
  function WrapJs(y: real): (w: real)
    ensures y >= 1000.0 ==> w == y - 1000.0
    ensures y < 1000.0 ==> w == y
    ensures w <= y
    ensures y < 2000.0 ==> w < 1000.0
    ensures 0.0 <= y ==> 0.0 <= w
  {
    if y >= 1000.0 then y - 1000.0 else y
  }

  /** moveObstacles in app.js: y is wrapped, then the speed is added; no truncation. */
  function FallJs(y: real, speedHalves: int): (next: real)
    ensures y < 1000.0 ==> next - y == Speed(speedHalves)
  {
    WrapJs(y) + Speed(speedHalves)
  }

  /** The fastest fall speed, reached at level 5, in half pixels. */
  const MaxSpeedHalves: int := SpeedHalvesAt(MaxLevel)

  /** Boxes in app.js stay above 1000 plus the largest speed. */
  predicate BoxOkJs(b: Box, width: int)
  {
    0 <= b.left < width && b.top < 1000.0 + Speed(MaxSpeedHalves)
  }

  /**
   * The app.js step keeps a box above 1000 plus the largest speed, and a
   * recycled box lands on the road rather than above it.
   */
  lemma FallJsBounds(y: real, speedHalves: int)
    requires y < 1000.0 + Speed(MaxSpeedHalves) && 0 <= speedHalves <= MaxSpeedHalves
    ensures FallJs(y, speedHalves) < 1000.0 + Speed(MaxSpeedHalves)
    ensures y >= 1000.0 ==> 0.0 <= FallJs(y, speedHalves) < 2.0 * Speed(MaxSpeedHalves)
  {
  }

  /**
   * The app.js box step, r1 and r2 being the two Math.random values a recycled
   * box uses: y is wrapped and the speed added, and only a recycled box moves sideways.
   */
  function StepJs(b: Box, speedHalves: int, width: int, r1: real, r2: real): (next: Box)
    requires 0.0 <= r1 < 1.0 && 0.0 <= r2 < 1.0 && width > 0
    ensures FellJs(b, next, speedHalves, width)
    ensures b.top >= 1000.0 ==> next.left == RandomLeftJs(r1, r2, width)
  {
    Box(FallJs(b.top, speedHalves), if b.top >= 1000.0 then RandomLeftJs(r1, r2, width) else b.left)
  }

  /** What one app.js step does to a box, whatever the random values. */
  predicate FellJs(before: Box, after: Box, speedHalves: int, width: int)
  {
    && after.top == FallJs(before.top, speedHalves)
    && (if before.top >= 1000.0 then 0 <= after.left < width else after.left == before.left)
  }

  /** The app.js step keeps a box inside the band BoxOkJs describes. */
  lemma StepJsKeepsBoxOk(b: Box, speedHalves: int, width: int, r1: real, r2: real)
    requires 0.0 <= r1 < 1.0 && 0.0 <= r2 < 1.0 && width > 0
    requires BoxOkJs(b, width) && 0 <= speedHalves <= MaxSpeedHalves
    ensures BoxOkJs(StepJs(b, speedHalves, width, r1, r2), width)
  {
    FallJsBounds(b.top, speedHalves);
  }

  /** The two versions of the box step. */
  datatype Version = TypeScript | JavaScript

  /** One fall step of the given version (height plays no part in the app.js one). */
  predicate Fell(v: Version, before: Box, after: Box, speedHalves: int, height: int, width: int)
  {
    if v.TypeScript? then FellTs(before, after, speedHalves, height, width)
    else FellJs(before, after, speedHalves, width)
  }

  /** Every element of `ids` is in both stores, and its box took one fall step. */
  ghost predicate AllFell(v: Version, before: map<nat, Box>, after: map<nat, Box>, ids: seq<nat>,
                          speedHalves: int, height: int, width: int)
  {
    forall k :: 0 <= k < |ids| ==>
      ids[k] in before && ids[k] in after
      && Fell(v, before[ids[k]], after[ids[k]], speedHalves, height, width)
  }

  /**
   * The store after k turns of a box loop over `ids`: the first k boxes took one
   * fall step, the others are as they were.
   */
  ghost predicate FellSoFar(v: Version, before: map<nat, Box>, after: map<nat, Box>, ids: seq<nat>,
                            k: nat, speedHalves: int, height: int, width: int)
  {
    && k <= |ids|
    && (forall j :: 0 <= j < |ids| ==> ids[j] in before && ids[j] in after)
    && (forall j :: 0 <= j < k ==> Fell(v, before[ids[j]], after[ids[j]], speedHalves, height, width))
    && (forall j :: k <= j < |ids| ==> after[ids[j]] == before[ids[j]])
  }

  /** One more turn: the k-th box steps, and as the ids are distinct no other entry moves. */
  lemma FellSoFarStep(v: Version, before: map<nat, Box>, after: map<nat, Box>, ids: seq<nat>, k: nat,
                      speedHalves: int, height: int, width: int, next: Box)
    requires Road.Distinct(ids) && k < |ids|
    requires FellSoFar(v, before, after, ids, k, speedHalves, height, width)
    requires Fell(v, after[ids[k]], next, speedHalves, height, width)
    ensures FellSoFar(v, before, after[ids[k] := next], ids, k + 1, speedHalves, height, width)
  {
    var stepped := after[ids[k] := next];
    forall j | 0 <= j < |ids| && j != k
      ensures stepped[ids[j]] == after[ids[j]]
    {
      assert ids[j] != ids[k];
    }
  }

  /** Once every box had its turn, every box fell. */
  lemma FellSoFarAll(v: Version, before: map<nat, Box>, after: map<nat, Box>, ids: seq<nat>,
                     speedHalves: int, height: int, width: int)
    requires FellSoFar(v, before, after, ids, |ids|, speedHalves, height, width)
    ensures AllFell(v, before, after, ids, speedHalves, height, width)
  {
  }
}
