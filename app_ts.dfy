/**
 * The App class of src/app.ts: one object holding the player, the round, the
 * road segments and the falling boxes, updated frame by frame by gamePlay.
 *
 * The road's children are the list `layout` (the car first, then segments and
 * boxes in document order); every box element ever created stays in the store
 * `boxes`, so an element removed from the road can still be written to, as the
 * static list querySelectorAll returns allows. Math.random is the sequence
 * `random`, read in call order through the counter `draws`. Layout rectangles
 * are parameters of the frame.
 */
module AppTs {
  import opened Geometry
  import opened Controls
  import opened Difficulty
  import opened Obstacles
  import opened Road
  import opened Board

  /** The part of the state a collision-free frame leaves as it is, apart from the score. */
  datatype Session = Session(scores: seq<int>, currentScore: int, level: int, speedHalves: int,
                             livesLeft: int, boxCount: int, gameWasInitialized: bool,
                             xPos: real, yPos: real, keys: Arrows,
                             leaderBoard: seq<Entry>)

  ghost predicate DimsOk(roadWidth: int, roadHeight: int, clientTop: int, segmentWidth: int)
  {
    && roadWidth > 0 && roadHeight >= 185 && clientTop >= 0
    && segmentWidth == SegmentWidthFor(roadWidth)
  }

  ghost predicate RoadInv(roadWidth: int, roadHeight: int, segmentOffsets: seq<int>, d: Drift, layout: seq<Child>)
  {
    && |segmentOffsets| == roadHeight / SegmentHeight
    && (forall k :: 0 <= k < |segmentOffsets| ==> -4 <= segmentOffsets[k] <= WobbleMax(roadWidth))
    && DriftOk(d, roadWidth)
    && ChildrenOk(layout, |segmentOffsets|)
  }

  ghost predicate StoredIn(layout: seq<Child>, boxes: map<nat, Box>)
  {
    forall id :: id in BoxIds(layout) ==> id in boxes
  }

  ghost predicate StoreInv(roadWidth: int, roadHeight: int, layout: seq<Child>, boxes: map<nat, Box>, nextBoxId: nat)
  {
    && StoredIn(layout, boxes)
    && (forall id :: id in boxes ==> id < nextBoxId && BoxOkTs(boxes[id], roadHeight, roadWidth))
  }

  class GameState {
    /** road.clientWidth, road.clientHeight and road.clientTop */
    const roadWidth: int
    const roadHeight: int
    const clientTop: int
    /** set once by setRoadSegmentWidth */
    const segmentWidth: int
    /** the values Math.random returns, in call order */
    const random: nat -> real

    /** how many values of `random` have been used */
    var draws: nat

    var scores: seq<int>
    var level: int
    var boxCount: int
    /** the Player: position, score, speed (in half pixels) and lives */
    var xPos: real
    var yPos: real
    var currentScore: int
    var speedHalves: int
    var livesLeft: int
    /** the road drift and the marginLeft of every segment in roadSegments */
    var currentLeftOffset: int
    var directionChosenSteps: int
    var roadGoesRight: bool
    var segmentOffsets: seq<int>
    var gameWasInitialized: bool
    /** the four arrow flags of the key map */
    var keys: Arrows
    /** the road's children, the box element store and the next fresh element id */
    var layout: seq<Child>
    var boxes: map<nat, Box>
    var nextBoxId: nat
    /** the lines of the leader board */
    var leaderBoard: seq<Entry>

    ghost predicate RandomOk()
    {
      forall k: nat :: 0.0 <= random(k) < 1.0
    }

    function CurrentDrift(): Drift
      reads this`currentLeftOffset, this`directionChosenSteps, this`roadGoesRight
    {
      Drift(currentLeftOffset, directionChosenSteps, roadGoesRight)
    }

    function Snapshot(): Session
      reads this`scores, this`currentScore, this`level, this`speedHalves, this`livesLeft,
            this`boxCount, this`gameWasInitialized, this`xPos, this`yPos, this`keys, this`leaderBoard
    {
      Session(scores, currentScore, level, speedHalves, livesLeft, boxCount, gameWasInitialized,
              xPos, yPos, keys, leaderBoard)
    }

    ghost predicate Dims()
    {
      DimsOk(roadWidth, roadHeight, clientTop, segmentWidth)
    }

    ghost predicate RoadOk()
      reads this`segmentOffsets, this`currentLeftOffset, this`directionChosenSteps,
            this`roadGoesRight, this`layout
    {
      RoadInv(roadWidth, roadHeight, segmentOffsets, CurrentDrift(), layout)
    }

    ghost predicate StoreOk()
      reads this`layout, this`boxes, this`nextBoxId
    {
      StoreInv(roadWidth, roadHeight, layout, boxes, nextBoxId)
    }

    ghost predicate SceneOk()
      reads this`segmentOffsets, this`currentLeftOffset, this`directionChosenSteps,
            this`roadGoesRight, this`layout, this`boxes, this`nextBoxId
    {
      Dims() && RoadOk() && StoreOk()
    }

    /** Level, speed, box count, score and lives; livesLeft may be -1 for a moment. */
    ghost predicate RoundOk()
      reads this`level, this`speedHalves, this`boxCount, this`currentScore, this`livesLeft
    {
      && 1 <= level <= MaxLevel && speedHalves == SpeedHalvesAt(level)
      && boxCount == InitialBoxCount && currentScore >= 0
      && -1 <= livesLeft <= PlayerLivesPerRound
    }

    /**
     * The state between two calls; livesLeft may be -1 only inside
     * checkIfPlayerIsWithinRoadBoundaries, just before onGameOver.
     */
    ghost predicate Core()
      reads this
    {
      && RandomOk() && SceneOk() && RoundOk()
      && 5.0 <= yPos <= roadHeight as real
    }

    ghost predicate Valid()
      reads this
    {
      Core() && livesLeft >= 0
    }

    /** The level is the one the score has earned. */
    ghost predicate Paced()
      reads this`level, this`currentScore
    {
      level == LevelFor(currentScore)
    }

    /** The round values resetStats sets. */
    ghost predicate RoundStart()
      reads this`level, this`speedHalves, this`boxCount, this`currentScore, this`livesLeft
    {
      && speedHalves == InitialSpeedHalves && livesLeft == PlayerLivesPerRound
      && currentScore == 0 && level == 1 && boxCount == InitialBoxCount
    }

    /**
     * The road holds n boxes, the elements start to start + n - 1 in that order,
     * and the store is oldBoxes plus those n elements, the k-th as createBox(k)
     * made it with random value number first + k.
     */
    ghost predicate FreshBoxes(oldBoxes: map<nat, Box>, n: nat, start: nat, first: nat)
      reads this`layout, this`boxes
      requires RandomOk() && Dims()
    {
      && BoxIds(layout) == IdRange(start, n)
      && boxes == oldBoxes + CreatedBoxes(random, roadWidth, start, first, n)
    }

    /** What onGameOver leaves, for the scores and final score it found. */
    ghost predicate AfterGameOver(oldScores: seq<int>, finalScore: int)
      reads this
    {
      && scores == oldScores + [finalScore]
      && leaderBoard == Best(scores)
      && RoundStart()
      && !gameWasInitialized
      && keys == Released
      && xPos == roadWidth as real / 2.0 && yPos == (roadHeight - 180) as real
    }

    /**
     * The store after a respawn of n boxes (ids from start, random values from
     * first) followed by the fall step of the old element id.
     */
    ghost predicate FreshThenFell(oldBoxes: map<nat, Box>, n: nat, start: nat, first: nat, id: nat)
      reads this`boxes, this`speedHalves
      requires RandomOk() && roadWidth > 0 && id in oldBoxes
    {
      boxes == (oldBoxes + CreatedBoxes(random, roadWidth, start, first, n))
                 [id := StepTs(oldBoxes[id], speedHalves, roadHeight, roadWidth, random(first + n))]
    }

    /**
     * What losing a life to a box leaves, from the session s0, child list layout0
     * and next id next0 before it: one life less, the player recentred, and the
     * old boxes replaced by as many fresh elements.
     */
    ghost predicate LostLife(s0: Session, layout0: seq<Child>, next0: nat)
      reads this`scores, this`currentScore, this`level, this`speedHalves, this`livesLeft,
            this`boxCount, this`gameWasInitialized, this`xPos, this`yPos, this`keys, this`leaderBoard,
            this`layout, this`nextBoxId
    {
      && Snapshot() == Recentred(s0).(livesLeft := s0.livesLeft - 1)
      && layout == WithoutBoxes(layout0) + NewBoxNodes(next0, |BoxIds(layout0)|)
      && nextBoxId == next0 + |BoxIds(layout0)|
    }

    /**
     * The road part of a scroll from the child list layout0, the offsets offsets0
     * and the drift d0: a segment taken from the bottom gets, as its marginLeft,
     * the drift after one step with some Math.random value r; a box taken from
     * the bottom leaves the offsets and the drift as they were.
     */
    ghost predicate ScrolledFrom(layout0: seq<Child>, offsets0: seq<int>, d0: Drift)
      reads this`segmentOffsets, this`currentLeftOffset, this`directionChosenSteps, this`roadGoesRight
      requires |layout0| > 0
    {
      var last := layout0[|layout0| - 1];
      if last.SegmentNode? then
        && (exists r :: 0.0 <= r < 1.0 && CurrentDrift() == DriftStep(d0, roadWidth, r))
        && last.index < |offsets0| && segmentOffsets == offsets0[last.index := currentLeftOffset]
      else
        CurrentDrift() == d0 && segmentOffsets == offsets0
    }

    /** The player is still at (x0, y0), or was put back at (width / 2, height - 180). */
    ghost predicate AtOrCentred(x0: real, y0: real)
      reads this`xPos, this`yPos
    {
      (xPos == x0 && yPos == y0) || (xPos == roadWidth as real / 2.0 && yPos == (roadHeight - 180) as real)
    }

    /** The session s0 with the player put back at (width / 2, height - 180). */
    function Recentred(s0: Session): Session
    {
      s0.(xPos := roadWidth as real / 2.0, yPos := (roadHeight - 180) as real)
    }

    /**
     * new App() followed by init(): the road holds the car, then the segments
     * generateRoad appends; carLeft and carTop are the car's offsets.
     */
    constructor (roadWidth: int, roadHeight: int, clientTop: int, carLeft: int, carTop: int,
                 random: nat -> real)
      requires roadWidth > 0 && roadHeight >= 185 && clientTop >= 0
      requires 5 <= carTop <= roadHeight
      requires forall k: nat :: 0.0 <= random(k) < 1.0
      ensures Valid() && Paced()
      ensures this.roadWidth == roadWidth && this.roadHeight == roadHeight
      ensures this.clientTop == clientTop && this.random == random
      ensures segmentWidth == SegmentWidthFor(roadWidth)
      ensures scores == [] && RoundStart() && !gameWasInitialized && keys == Released
      ensures xPos == carLeft as real && yPos == carTop as real
      ensures layout == [CarNode] + SegmentNodes(|segmentOffsets|)
      ensures segmentOffsets == DriftOffsets(InitialDrift, roadWidth, random, 0, roadHeight / SegmentHeight)
      ensures boxes == map[] && leaderBoard == []
    {
      this.roadWidth := roadWidth;
      this.roadHeight := roadHeight;
      this.clientTop := clientTop;
      this.random := random;
      segmentWidth := SegmentWidthFor(roadWidth);
      draws := 0;
      scores := [];
      level := 1;
      boxCount := InitialBoxCount;
      xPos := carLeft as real;
      yPos := carTop as real;
      currentScore := 0;
      speedHalves := InitialSpeedHalves;
      livesLeft := PlayerLivesPerRound;
      currentLeftOffset := InitialDrift.offset;
      directionChosenSteps := InitialDrift.steps;
      roadGoesRight := InitialDrift.goesRight;
      segmentOffsets := [];
      gameWasInitialized := false;
      keys := Released;
      layout := [CarNode];
      boxes := map[];
      nextBoxId := 0;
      leaderBoard := [];
      InitialDriftOk(roadWidth);
      new;
      InitRoad();
    }

    /**
     * The road part of init: generateRoad fills the road, which holds only the
     * car, and the store holds no box yet.
     */
    method InitRoad()
      requires RandomOk() && Dims() && DriftOk(CurrentDrift(), roadWidth)
      requires segmentOffsets == [] && layout == [CarNode] && boxes == map[]
      modifies this`segmentOffsets, this`layout, this`currentLeftOffset,
               this`directionChosenSteps, this`roadGoesRight, this`draws
      ensures SceneOk()
      ensures layout == [CarNode] + SegmentNodes(|segmentOffsets|)
      ensures segmentOffsets == DriftOffsets(old(CurrentDrift()), roadWidth, random, old(draws), roadHeight / SegmentHeight)
    {
      ghost var d0, draw0 := CurrentDrift(), draws;
      GenerateRoad();
      DriftAfterOk(d0, roadWidth, random, draw0, |segmentOffsets|);
      DriftOffsetsOk(d0, roadWidth, random, draw0, |segmentOffsets|);
      InitialChildren(|segmentOffsets|);
    }

    /** One Math.random() call. */
    method NextRandom() returns (r: real)
      requires RandomOk()
      modifies this`draws
      ensures r == random(old(draws)) && draws == old(draws) + 1
      ensures 0.0 <= r < 1.0
    {
      r := random(draws);
      draws := draws + 1;
    }

    /**
     * generateRoad: floor(roadHeight / 5) segments, the k-th with the offset of
     * the (k + 1)-th drift step (DriftOffsetsOk bounds them).
     */
    method GenerateRoad()
      requires RandomOk() && roadWidth > 0 && roadHeight >= 0
      requires DriftOk(CurrentDrift(), roadWidth)
      requires segmentOffsets == [] && layout == [CarNode]
      modifies this`segmentOffsets, this`layout, this`currentLeftOffset,
               this`directionChosenSteps, this`roadGoesRight, this`draws
      ensures |segmentOffsets| == roadHeight / SegmentHeight
      ensures segmentOffsets == DriftOffsets(old(CurrentDrift()), roadWidth, random, old(draws), |segmentOffsets|)
      ensures (CurrentDrift(), draws) == DriftAfter(old(CurrentDrift()), roadWidth, random, old(draws), |segmentOffsets|)
      ensures layout == [CarNode] + SegmentNodes(|segmentOffsets|)
    {
      var segmentCount := roadHeight / SegmentHeight;
      ghost var d0, draw0 := CurrentDrift(), draws;
      var i := 0;
      while i < segmentCount
        invariant 0 <= i <= segmentCount
        invariant segmentOffsets == DriftOffsets(d0, roadWidth, random, draw0, i)
        invariant (CurrentDrift(), draws) == DriftAfter(d0, roadWidth, random, draw0, i)
        invariant layout == [CarNode] + SegmentNodes(i)
        invariant DriftOk(CurrentDrift(), roadWidth)
      {
        GenerateSegment(i, d0, draw0);
        i := i + 1;
      }
    }

    /** Turn i of generateRoad's loop, against the drift after i steps from d0. */
    method GenerateSegment(ghost i: nat, ghost d0: Drift, ghost draw0: nat)
      requires RandomOk() && roadWidth > 0
      requires segmentOffsets == DriftOffsets(d0, roadWidth, random, draw0, i)
      requires (CurrentDrift(), draws) == DriftAfter(d0, roadWidth, random, draw0, i)
      requires layout == [CarNode] + SegmentNodes(i)
      requires DriftOk(CurrentDrift(), roadWidth)
      modifies this`segmentOffsets, this`layout, this`currentLeftOffset,
               this`directionChosenSteps, this`roadGoesRight, this`draws
      ensures segmentOffsets == DriftOffsets(d0, roadWidth, random, draw0, i + 1)
      ensures (CurrentDrift(), draws) == DriftAfter(d0, roadWidth, random, draw0, i + 1)
      ensures layout == [CarNode] + SegmentNodes(i + 1)
      ensures DriftOk(CurrentDrift(), roadWidth)
    {
      assert SegmentNodes(i + 1) == SegmentNodes(i) + [SegmentNode(i)];
      AddSegment();
    }

    /**
     * One turn of generateRoad's loop: the drift takes a step, and a new segment
     * with that offset as its marginLeft is appended to the road.
     */
    method AddSegment()
      requires RandomOk() && roadWidth >= 0 && DriftOk(CurrentDrift(), roadWidth)
      modifies this`segmentOffsets, this`layout, this`currentLeftOffset,
               this`directionChosenSteps, this`roadGoesRight, this`draws
      ensures CurrentDrift() == DriftStep(old(CurrentDrift()), roadWidth, random(old(draws)))
      ensures draws == old(draws) + (if NeedsCoin(old(CurrentDrift()), roadWidth) then 1 else 0)
      ensures DriftOk(CurrentDrift(), roadWidth)
      ensures segmentOffsets == old(segmentOffsets) + [currentLeftOffset]
      ensures layout == old(layout) + [SegmentNode(|old(segmentOffsets)|)]
    {
      HandleCurrentSegmentOffset();
      layout := layout + [SegmentNode(|segmentOffsets|)];
      segmentOffsets := segmentOffsets + [currentLeftOffset];
    }

    /** handleCurrentSegmentOffset: one drift step; Math.random is called only for the coin. */
    method HandleCurrentSegmentOffset()
      requires RandomOk() && roadWidth >= 0 && DriftOk(CurrentDrift(), roadWidth)
      modifies this`currentLeftOffset, this`directionChosenSteps, this`roadGoesRight, this`draws
      ensures CurrentDrift() == DriftStep(old(CurrentDrift()), roadWidth, random(old(draws)))
      ensures draws == old(draws) + (if NeedsCoin(old(CurrentDrift()), roadWidth) then 1 else 0)
      ensures DriftOk(CurrentDrift(), roadWidth)
    {
      if directionChosenSteps != 0 {
        if roadGoesRight {
          currentLeftOffset := currentLeftOffset + 2;
        } else {
          currentLeftOffset := currentLeftOffset - 2;
        }
        directionChosenSteps := directionChosenSteps - 1;
      } else {
        if currentLeftOffset as real > roadWidth as real / 5.0 {
          roadGoesRight := false;
        } else if currentLeftOffset <= 0 {
          roadGoesRight := true;
        } else {
          var r := NextRandom();
          roadGoesRight := r > 0.5;
        }
        directionChosenSteps := 3;
      }
      DriftStepKeepsOk(old(CurrentDrift()), roadWidth, random(old(draws)));
    }

    /** createBox: a box (yCoefficient + 1) * 350 above the road at a random left, appended last. */
    method CreateBox(yCoefficient: nat)
      requires RandomOk() && SceneOk()
      modifies this`layout, this`boxes, this`nextBoxId, this`draws
      ensures SceneOk()
      ensures layout == old(layout) + [BoxNode(old(nextBoxId))]
      ensures BoxIds(layout) == old(BoxIds(layout)) + [old(nextBoxId)]
      ensures boxes == old(boxes)[old(nextBoxId) :=
                Box(CreatedTop(yCoefficient), RandomLeft(random(old(draws)), roadWidth))]
      ensures nextBoxId == old(nextBoxId) + 1 && draws == old(draws) + 1
    {
      var r := NextRandom();
      var id := nextBoxId;
      AppendBoxKeepsChildrenOk(layout, |segmentOffsets|, id);
      boxes := boxes[id := Box(CreatedTop(yCoefficient), RandomLeft(r, roadWidth))];
      layout := layout + [BoxNode(id)];
      nextBoxId := id + 1;
    }

    /**
     * The removal loop of startNewGame and resetBoxAndPlayerPositionAfterCollision:
     * every box leaves the road and the other children keep their order.
     */
    method RemoveBoxes()
      requires SceneOk()
      modifies this`layout
      ensures SceneOk()
      ensures layout == WithoutBoxes(old(layout)) && BoxIds(layout) == []
    {
      WithoutBoxesKeepsChildrenOk(layout, |segmentOffsets|);
      layout := WithoutBoxes(layout);
    }

    /** One turn of the createBox loop: createBox(i) extends the i boxes made so far by one. */
    method CreateNextBox(i: nat, ghost start: nat, ghost first: nat, ghost children: seq<Child>,
                         ghost store: map<nat, Box>)
      requires RandomOk() && SceneOk()
      requires layout == children + NewBoxNodes(start, i)
      requires nextBoxId == start + i && draws == first + i
      requires boxes == store + CreatedBoxes(random, roadWidth, start, first, i)
      modifies this`layout, this`boxes, this`nextBoxId, this`draws
      ensures SceneOk()
      ensures layout == children + NewBoxNodes(start, i + 1)
      ensures nextBoxId == start + i + 1 && draws == first + i + 1
      ensures boxes == store + CreatedBoxes(random, roadWidth, start, first, i + 1)
    {
      assert NewBoxNodes(start, i + 1) == NewBoxNodes(start, i) + [BoxNode(start + i)];
      ghost var before := boxes;
      CreateBox(i);
      CreatedBoxesStep(store, before, random, roadWidth, start, first, i);
    }

    /**
     * The loop createBox(0), ..., createBox(n - 1): n boxes appended after the
     * other children, with fresh element ids; the elements already in the store
     * keep their values.
     */
    method CreateBoxes(n: nat)
      requires RandomOk() && SceneOk()
      modifies this`layout, this`boxes, this`nextBoxId, this`draws
      ensures SceneOk()
      ensures layout == old(layout) + NewBoxNodes(old(nextBoxId), n)
      ensures BoxIds(layout) == old(BoxIds(layout)) + IdRange(old(nextBoxId), n)
      ensures nextBoxId == old(nextBoxId) + n && draws == old(draws) + n
      ensures boxes == old(boxes) + CreatedBoxes(random, roadWidth, old(nextBoxId), old(draws), n)
    {
      ghost var start, first, children, store := nextBoxId, draws, layout, boxes;
      var i := 0;
      while i < n
        invariant 0 <= i <= n
        invariant SceneOk()
        invariant layout == children + NewBoxNodes(start, i)
        invariant nextBoxId == start + i && draws == first + i
        invariant boxes == store + CreatedBoxes(random, roadWidth, start, first, i)
      {
        CreateNextBox(i, start, first, children, store);
        i := i + 1;
      }
      NewBoxNodesIds(start, n);
      BoxIdsAppend(old(layout), NewBoxNodes(start, n));
    }

    /**
     * The box part of startNewGame and of resetBoxAndPlayerPositionAfterCollision:
     * every box leaves the road, then createBox(0), ..., createBox(n - 1).
     */
    method ReplaceBoxes(n: nat)
      requires RandomOk() && SceneOk()
      modifies this`layout, this`boxes, this`nextBoxId, this`draws
      ensures SceneOk()
      ensures layout == WithoutBoxes(old(layout)) + NewBoxNodes(old(nextBoxId), n)
      ensures FreshBoxes(old(boxes), n, old(nextBoxId), old(draws))
      ensures nextBoxId == old(nextBoxId) + n && draws == old(draws) + n
    {
      RemoveBoxes();
      CreateBoxes(n);
      assert BoxIds(layout) == [] + IdRange(old(nextBoxId), n);
    }

    /**
     * resetBoxAndPlayerPositionAfterCollision: the road gets back as many boxes
     * as it had, at their starting heights, and the player goes to the middle,
     * 180 pixels above the bottom.
     */
    method ResetBoxAndPlayerPositionAfterCollision()
      requires RandomOk() && SceneOk()
      modifies this`layout, this`boxes, this`nextBoxId, this`draws, this`xPos, this`yPos
      ensures SceneOk()
      ensures layout == WithoutBoxes(old(layout)) + NewBoxNodes(old(nextBoxId), |old(BoxIds(layout))|)
      ensures FreshBoxes(old(boxes), |old(BoxIds(layout))|, old(nextBoxId), old(draws))
      ensures nextBoxId == old(nextBoxId) + |old(BoxIds(layout))|
      ensures draws == old(draws) + |old(BoxIds(layout))|
      ensures Snapshot() == Recentred(old(Snapshot()))
    {
      var boxCountBeforeCollision := |BoxIds(layout)|;
      ReplaceBoxes(boxCountBeforeCollision);
      RecentrePlayer();
    }

    /** The player part of resetBoxAndPlayerPositionAfterCollision. */
    method RecentrePlayer()
      modifies this`xPos, this`yPos
      ensures Snapshot() == Recentred(old(Snapshot()))
    {
      xPos := roadWidth as real / 2.0;
      yPos := (roadHeight - 180) as real;
    }

    /** startNewGame: the round starts with boxCount fresh boxes. */
    method StartNewGame()
      requires Valid()
      modifies this`gameWasInitialized, this`layout, this`boxes, this`nextBoxId, this`draws
      ensures Valid()
      ensures gameWasInitialized
      ensures layout == WithoutBoxes(old(layout)) + NewBoxNodes(old(nextBoxId), InitialBoxCount)
      ensures FreshBoxes(old(boxes), InitialBoxCount, old(nextBoxId), old(draws))
    {
      gameWasInitialized := true;
      ReplaceBoxes(boxCount);
    }

    /** updatePlayerScore: one point per frame; the score shown is the one before it. */
    method UpdatePlayerScore() returns (shown: int)
      requires Valid()
      modifies this`currentScore
      ensures Valid()
      ensures currentScore == old(currentScore) + 1 && shown == old(currentScore)
    {
      currentScore := currentScore + 1;
      shown := currentScore - 1;
    }

    /**
     * increaseDifficulty: past the threshold of its level the game goes one level
     * up and half a pixel faster, and reaching level 2 or 4 adds createBox(2).
     */
    method IncreaseDifficulty()
      requires Valid()
      modifies this`speedHalves, this`level, this`layout, this`boxes, this`nextBoxId, this`draws
      ensures Valid()
      ensures ShouldLevelUp(old(currentScore), old(level)) ==>
                level == old(level) + 1 && Speed(speedHalves) == Speed(old(speedHalves)) + 0.5
      ensures !ShouldLevelUp(old(currentScore), old(level)) ==>
                level == old(level) && speedHalves == old(speedHalves)
      ensures ShouldLevelUp(old(currentScore), old(level)) && AddsBox(level) ==>
                && layout == old(layout) + [BoxNode(old(nextBoxId))]
                && boxes == old(boxes)[old(nextBoxId) :=
                     Box(CreatedTop(2), RandomLeft(random(old(draws)), roadWidth))]
                && nextBoxId == old(nextBoxId) + 1 && draws == old(draws) + 1
      ensures !(ShouldLevelUp(old(currentScore), old(level)) && AddsBox(level)) ==>
                layout == old(layout) && boxes == old(boxes) && nextBoxId == old(nextBoxId)
                && draws == old(draws)
      ensures |BoxIds(layout)| == |old(BoxIds(layout))|
                + (if ShouldLevelUp(old(currentScore), old(level)) && AddsBox(level) then 1 else 0)
    {
      ShouldLevelUpMeans(currentScore, level);
      if ShouldLevelUp(currentScore, level) {
        speedHalves := speedHalves + 1;
        level := level + 1;
        if AddsBox(level) {
          CreateBox(2);
        }
      }
    }

    /** The else branch of handleBoxLogic's collision test: one life less, then the reset. */
    method LoseLife()
      requires Valid() && livesLeft > 0
      modifies this`livesLeft, this`layout, this`boxes, this`nextBoxId, this`draws, this`xPos, this`yPos
      ensures Valid() && LostLife(old(Snapshot()), old(layout), old(nextBoxId))
      ensures FreshBoxes(old(boxes), |old(BoxIds(layout))|, old(nextBoxId), old(draws))
      ensures draws == old(draws) + |old(BoxIds(layout))|
    {
      livesLeft := livesLeft - 1;
      ResetBoxAndPlayerPositionAfterCollision();
    }

    /**
     * The fall half of handleBoxLogic: the box moves to parseInt(top) + speed,
     * and one that has passed the bottom goes to -1000 at a random left.
     */
    method FallBox(id: nat)
      requires Valid() && id in boxes
      modifies this`boxes, this`draws
      ensures Valid() && Snapshot() == old(Snapshot())
      ensures boxes == old(boxes)[id :=
                StepTs(old(boxes)[id], speedHalves, roadHeight, roadWidth, random(old(draws)))]
      ensures draws == old(draws) +
                (if FallTop(old(boxes)[id].top, speedHalves) >= roadHeight as real then 1 else 0)
    {
      var b := boxes[id];
      var boxY := FallTop(b.top, speedHalves);
      boxes := boxes[id := Box(boxY, b.left)];
      if boxY >= roadHeight as real {
        var r := NextRandom();
        boxes := boxes[id := Box(RecycledTop, RandomLeft(r, roadWidth))];
      }
      StepTsKeepsBoxOk(old(boxes)[id], speedHalves, roadHeight, roadWidth, random(old(draws)));
    }

    /** handleBoxLogic for the element with store id `id`, whose layout rectangle is boxRect. */
    method HandleBoxLogic(id: nat, carRect: Rect, boxRect: Rect)
      requires Valid() && id in boxes
      modifies this`livesLeft, this`layout, this`boxes, this`nextBoxId, this`draws, this`xPos,
               this`yPos, this`scores, this`gameWasInitialized, this`keys, this`leaderBoard,
               this`speedHalves, this`currentScore, this`level, this`boxCount
      ensures Valid() && (old(Paced()) ==> Paced())
      ensures AtOrCentred(old(xPos), old(yPos))
      ensures old(boxes).Keys <= boxes.Keys
      ensures |BoxIds(layout)| == |old(BoxIds(layout))|
      ensures gameWasInitialized == (old(gameWasInitialized) && scores == old(scores))
      ensures old(scores) <= scores
      ensures scores == old(scores) ==> currentScore == old(currentScore) && level == old(level)
      ensures !OnCollision(carRect, boxRect) ==>
                && Snapshot() == old(Snapshot()) && layout == old(layout) && nextBoxId == old(nextBoxId)
                && boxes == old(boxes)[id :=
                     StepTs(old(boxes)[id], speedHalves, roadHeight, roadWidth, random(old(draws)))]
      // game over: the box then falls at the reset speed
      ensures OnCollision(carRect, boxRect) && old(livesLeft) <= 0 ==>
                && AfterGameOver(old(scores), old(currentScore)) && layout == old(layout)
                && boxes == old(boxes)[id :=
                     StepTs(old(boxes)[id], speedHalves, roadHeight, roadWidth, random(old(draws)))]
      // a life lost: fresh boxes, and the old element, now off the road, still falls
      ensures OnCollision(carRect, boxRect) && old(livesLeft) > 0 ==>
                && LostLife(old(Snapshot()), old(layout), old(nextBoxId))
                && FreshThenFell(old(boxes), |old(BoxIds(layout))|, old(nextBoxId), old(draws), id)
    {
      if OnCollision(carRect, boxRect) {
        if livesLeft <= 0 {
          EndRoundAndFall(id);
        } else {
          LoseLifeAndFall(id);
        }
      } else {
        FallBox(id);
      }
    }

    /** handleBoxLogic after a contact with no life left: onGameOver, then the fall at the reset speed. */
    method EndRoundAndFall(id: nat)
      requires Valid() && id in boxes
      modifies this`scores, this`gameWasInitialized, this`keys, this`xPos, this`yPos,
               this`leaderBoard, this`speedHalves, this`livesLeft, this`currentScore, this`level,
               this`boxCount, this`boxes, this`draws
      ensures Valid() && Paced()
      ensures AfterGameOver(old(scores), old(currentScore))
      ensures boxes == old(boxes)[id :=
                StepTs(old(boxes)[id], speedHalves, roadHeight, roadWidth, random(old(draws)))]
    {
      OnGameOver();
      FallBox(id);
    }

    /**
     * handleBoxLogic after a contact with a life left: the life goes, the boxes
     * are respawned, and the old element, now off the road, still falls.
     */
    method LoseLifeAndFall(id: nat)
      requires Valid() && livesLeft > 0 && id in boxes
      modifies this`livesLeft, this`layout, this`boxes, this`nextBoxId, this`draws, this`xPos, this`yPos
      ensures Valid() && LostLife(old(Snapshot()), old(layout), old(nextBoxId))
      ensures BoxIds(layout) == IdRange(old(nextBoxId), |old(BoxIds(layout))|)
      ensures FreshThenFell(old(boxes), |old(BoxIds(layout))|, old(nextBoxId), old(draws), id)
    {
      LoseLife();
      assert boxes[id] == old(boxes)[id];
      FallBox(id);
    }

    /**
     * One turn of the box loop: handleBoxLogic for ids[k], with `calm` the
     * summary of the turns before (no collision yet, and the first k boxes fell).
     */
    method MoveBoxAt(ids: seq<nat>, k: nat, carRect: Rect, boxRect: Rect, ghost start: map<nat, Box>,
                     ghost shot: Session, ghost children: seq<Child>, ghost calm: bool)
      returns (ghost calmAfter: bool)
      requires Valid() && Distinct(ids) && k < |ids| && ids[k] in boxes
      requires calm ==> Snapshot() == shot && layout == children
                        && FellSoFar(TypeScript, start, boxes, ids, k, speedHalves, roadHeight, roadWidth)
      modifies this`livesLeft, this`layout, this`boxes, this`nextBoxId, this`draws, this`xPos,
               this`yPos, this`scores, this`gameWasInitialized, this`keys, this`leaderBoard,
               this`speedHalves, this`currentScore, this`level, this`boxCount
      ensures Valid() && (old(Paced()) ==> Paced())
      ensures AtOrCentred(old(xPos), old(yPos))
      ensures old(boxes).Keys <= boxes.Keys
      ensures |BoxIds(layout)| == |old(BoxIds(layout))|
      ensures gameWasInitialized == (old(gameWasInitialized) && scores == old(scores))
      ensures old(scores) <= scores
      ensures scores == old(scores) ==> currentScore == old(currentScore) && level == old(level)
      ensures calmAfter == (calm && !OnCollision(carRect, boxRect))
      ensures calmAfter ==> Snapshot() == shot && layout == children
                            && FellSoFar(TypeScript, start, boxes, ids, k + 1, speedHalves, roadHeight, roadWidth)
    {
      ghost var before, r := boxes, random(draws);
      HandleBoxLogic(ids[k], carRect, boxRect);
      calmAfter := calm && !OnCollision(carRect, boxRect);
      if calmAfter {
        FellSoFarStep(TypeScript, start, before, ids, k, speedHalves, roadHeight, roadWidth,
                      StepTs(before[ids[k]], speedHalves, roadHeight, roadWidth, r));
      }
    }

    /**
     * The box loop of moveObstacles over the list querySelectorAll returned at
     * its start; boxRect(k) is the layout rectangle of its k-th box when its turn
     * comes. A collision-free pass moves every box one step and changes nothing else.
     */
    method MoveBoxes(carRect: Rect, boxRect: nat -> Rect)
      requires Valid()
      modifies this`livesLeft, this`layout, this`boxes, this`nextBoxId, this`draws, this`xPos,
               this`yPos, this`scores, this`gameWasInitialized, this`keys, this`leaderBoard,
               this`speedHalves, this`currentScore, this`level, this`boxCount
      ensures Valid() && (old(Paced()) ==> Paced())
      ensures AtOrCentred(old(xPos), old(yPos))
      ensures old(boxes).Keys <= boxes.Keys
      ensures |BoxIds(layout)| == |old(BoxIds(layout))|
      ensures gameWasInitialized == (old(gameWasInitialized) && scores == old(scores))
      ensures old(scores) <= scores
      ensures scores == old(scores) ==> currentScore == old(currentScore) && level == old(level)
      ensures (forall k :: 0 <= k < |old(BoxIds(layout))| ==> !OnCollision(carRect, boxRect(k))) ==>
                && Snapshot() == old(Snapshot()) && layout == old(layout)
                && AllFell(TypeScript, old(boxes), boxes, old(BoxIds(layout)), speedHalves, roadHeight, roadWidth)
    {
      var ids := BoxIds(layout);
      UniqueIsDistinct(layout);
      BoxIdsDistinct(layout);
      var k := 0;
      ghost var calm := true;
      while k < |ids|
        invariant 0 <= k <= |ids|
        invariant calm == NoneCollide(carRect, boxRect, k)
        invariant Valid() && (old(Paced()) ==> Paced())
        invariant AtOrCentred(old(xPos), old(yPos))
        invariant old(boxes).Keys <= boxes.Keys
        invariant |BoxIds(layout)| == |ids|
        invariant gameWasInitialized == (old(gameWasInitialized) && scores == old(scores))
        invariant old(scores) <= scores
        invariant scores == old(scores) ==> currentScore == old(currentScore) && level == old(level)
        invariant calm ==>
                    && Snapshot() == old(Snapshot()) && layout == old(layout)
                    && FellSoFar(TypeScript, old(boxes), boxes, ids, k, speedHalves, roadHeight, roadWidth)
      {
        calm := MoveBoxAt(ids, k, carRect, boxRect(k), old(boxes), old(Snapshot()), old(layout), calm);
        k := k + 1;
      }
      NoneCollideMeans(carRect, boxRect, |ids|);
      if calm {
        FellSoFarAll(TypeScript, old(boxes), boxes, ids, speedHalves, roadHeight, roadWidth);
      }
    }

    /**
     * The road scroll of moveObstacles: a last child that is a segment takes the
     * next drift step, then it moves to the top, just after the car.
     */
    method ScrollRoad()
      requires Valid()
      modifies this`layout, this`segmentOffsets, this`currentLeftOffset, this`directionChosenSteps,
               this`roadGoesRight, this`draws
      ensures Valid()
      ensures layout == Scroll(old(layout)) && |BoxIds(layout)| == |old(BoxIds(layout))|
      ensures Snapshot() == old(Snapshot())
      ensures var last := old(layout)[|old(layout)| - 1];
        if last.SegmentNode? then
          && CurrentDrift() == DriftStep(old(CurrentDrift()), roadWidth, random(old(draws)))
          && draws == old(draws) + (if NeedsCoin(old(CurrentDrift()), roadWidth) then 1 else 0)
          && segmentOffsets == old(segmentOffsets)[last.index := currentLeftOffset]
        else
          CurrentDrift() == old(CurrentDrift()) && segmentOffsets == old(segmentOffsets)
            && draws == old(draws)
    {
      var last := layout[|layout| - 1];
      if last.SegmentNode? {
        assert last in layout;
        ShiftSegment(last.index);
      }
      ScrollKeepsChildrenOk(layout, |segmentOffsets|);
      ScrollKeepsBoxCount(layout);
      layout := Scroll(layout);
    }

    /** The segment roadSegments[index], taken from the bottom, gets the next drift step as its marginLeft. */
    method ShiftSegment(index: nat)
      requires Valid() && index < |segmentOffsets|
      modifies this`segmentOffsets, this`currentLeftOffset, this`directionChosenSteps,
               this`roadGoesRight, this`draws
      ensures Valid()
      ensures CurrentDrift() == DriftStep(old(CurrentDrift()), roadWidth, random(old(draws)))
      ensures draws == old(draws) + (if NeedsCoin(old(CurrentDrift()), roadWidth) then 1 else 0)
      ensures segmentOffsets == old(segmentOffsets)[index := currentLeftOffset]
      ensures Snapshot() == old(Snapshot())
    {
      HandleCurrentSegmentOffset();
      segmentOffsets := segmentOffsets[index := currentLeftOffset];
    }

    /** moveObstacles: the box loop, then the road scroll. */
    method MoveObstacles(carRect: Rect, boxRect: nat -> Rect)
      requires Valid()
      modifies this
      ensures Valid() && (old(Paced()) ==> Paced())
      ensures AtOrCentred(old(xPos), old(yPos))
      ensures |BoxIds(layout)| == |old(BoxIds(layout))|
      ensures gameWasInitialized == (old(gameWasInitialized) && scores == old(scores))
      ensures old(scores) <= scores
      ensures scores == old(scores) ==> currentScore == old(currentScore) && level == old(level)
      ensures (forall k :: 0 <= k < |old(BoxIds(layout))| ==> !OnCollision(carRect, boxRect(k))) ==>
                && Snapshot() == old(Snapshot()) && layout == Scroll(old(layout))
                && AllFell(TypeScript, old(boxes), boxes, old(BoxIds(layout)), speedHalves, roadHeight, roadWidth)
                && ScrolledFrom(old(layout), old(segmentOffsets), old(CurrentDrift()))
    {
      MoveBoxes(carRect, boxRect);
      ScrollRoad();
    }

    /**
     * checkIfPlayerIsWithinRoadBoundaries: off the segment just above it, the
     * player loses a life and is put back with fresh boxes; below zero lives the
     * round ends.
     */
    method CheckIfPlayerIsWithinRoadBoundaries()
      requires Valid()
      modifies this`livesLeft, this`layout, this`boxes, this`nextBoxId, this`draws, this`xPos,
               this`yPos, this`scores, this`gameWasInitialized, this`keys, this`leaderBoard,
               this`speedHalves, this`currentScore, this`level, this`boxCount
      ensures Valid() && (old(Paced()) ==> Paced())
      ensures AtOrCentred(old(xPos), old(yPos))
      ensures |BoxIds(layout)| == |old(BoxIds(layout))|
      ensures gameWasInitialized == (old(gameWasInitialized) && scores == old(scores))
      ensures old(scores) <= scores
      ensures scores == old(scores) ==> currentScore == old(currentScore) && level == old(level)
      ensures var left := old(segmentOffsets[SegmentIndex(yPos, roadHeight)]);
        && (!OffRoad(old(xPos), left, segmentWidth) ==> unchanged(this))
        && (OffRoad(old(xPos), left, segmentWidth) ==> FreshBoxes(old(boxes), |old(BoxIds(layout))|, old(nextBoxId), old(draws)))
        && (OffRoad(old(xPos), left, segmentWidth) && old(livesLeft) > 0 ==>
              LostLife(old(Snapshot()), old(layout), old(nextBoxId)))
        && (OffRoad(old(xPos), left, segmentWidth) && old(livesLeft) == 0 ==>
              AfterGameOver(old(scores), old(currentScore)))
    {
      var segmentIndex := SegmentIndex(yPos, roadHeight);
      var leftBoundary := segmentOffsets[segmentIndex];
      var rightBoundary := leftBoundary + segmentWidth - CarWidth;
      if xPos <= leftBoundary as real || xPos >= rightBoundary as real {
        LeaveRoad();
      }
    }

    /** The off-road branch of checkIfPlayerIsWithinRoadBoundaries: the reset, then the life count. */
    method LeaveRoad()
      requires Valid()
      modifies this`livesLeft, this`layout, this`boxes, this`nextBoxId, this`draws, this`xPos,
               this`yPos, this`scores, this`gameWasInitialized, this`keys, this`leaderBoard,
               this`speedHalves, this`currentScore, this`level, this`boxCount
      ensures Valid() && (old(Paced()) ==> Paced())
      ensures |BoxIds(layout)| == |old(BoxIds(layout))|
      ensures FreshBoxes(old(boxes), |old(BoxIds(layout))|, old(nextBoxId), old(draws))
      ensures old(livesLeft) > 0 ==> LostLife(old(Snapshot()), old(layout), old(nextBoxId))
      ensures old(livesLeft) == 0 ==> AfterGameOver(old(scores), old(currentScore))
    {
      ResetBoxAndPlayerPositionAfterCollision();
      CountOffRoadLife();
    }

    /**
     * The life count of checkIfPlayerIsWithinRoadBoundaries once the reset is done:
     * one life less, and the round ends below zero.
     */
    method CountOffRoadLife()
      requires Valid()
      modifies this`scores, this`gameWasInitialized, this`keys, this`xPos, this`yPos,
               this`leaderBoard, this`speedHalves, this`livesLeft, this`currentScore, this`level,
               this`boxCount
      ensures Valid() && (old(Paced()) ==> Paced())
      ensures old(livesLeft) > 0 ==> Snapshot() == old(Snapshot()).(livesLeft := old(livesLeft) - 1)
      ensures old(livesLeft) == 0 ==> AfterGameOver(old(scores), old(currentScore))
    {
      DropLife();
      if livesLeft < 0 {
        OnGameOver();
      }
    }

    /** livesLeft--, and nothing else of the session changes. */
    method DropLife()
      modifies this`livesLeft
      ensures Snapshot() == old(Snapshot()).(livesLeft := old(livesLeft) - 1)
    {
      livesLeft := livesLeft - 1;
    }

    /**
     * onGameOver: the score is recorded, the game stops, the arrows are released,
     * the player is recentred, the board is redrawn and the round values reset.
     */
    method OnGameOver()
      requires Core()
      modifies this`scores, this`gameWasInitialized, this`keys, this`xPos, this`yPos,
               this`leaderBoard, this`speedHalves, this`livesLeft, this`currentScore, this`level,
               this`boxCount
      ensures Valid() && Paced()
      ensures AfterGameOver(old(scores), old(currentScore))
    {
      StopRound();
      UpdateLeaderBoard();
      ResetStats();
    }

    /**
     * The state changes of onGameOver before the board is redrawn: the score is
     * pushed, the game is flagged as stopped, the four arrow flags are cleared and
     * the player goes back to the middle, 180 pixels above the bottom.
     */
    method StopRound()
      requires Core()
      modifies this`scores, this`gameWasInitialized, this`keys, this`xPos, this`yPos
      ensures Core()
      ensures scores == old(scores) + [currentScore] && currentScore == old(currentScore)
      ensures !gameWasInitialized && keys == Released
      ensures xPos == roadWidth as real / 2.0 && yPos == (roadHeight - 180) as real
    {
      scores := scores + [currentScore];
      gameWasInitialized := false;
      keys := keys.(left := false, right := false, up := false, down := false);
      xPos := roadWidth as real / 2.0;
      yPos := (roadHeight - 180) as real;
    }

    /** updateLeaderBoard: at most three lines, the best scores first. */
    method UpdateLeaderBoard()
      requires Core()
      modifies this`leaderBoard
      ensures Core()
      ensures leaderBoard == Best(scores)
    {
      leaderBoard := ListBest(scores);
    }

    /** resetStats */
    method ResetStats()
      requires Core()
      modifies this`speedHalves, this`livesLeft, this`currentScore, this`level, this`boxCount
      ensures Valid() && Paced()
      ensures RoundStart()
    {
      speedHalves := InitialSpeedHalves;
      livesLeft := PlayerLivesPerRound;
      currentScore := 0;
      level := 1;
      boxCount := InitialBoxCount;
    }

    /**
     * gamePlay: one frame. While a round runs the player moves, scores a point,
     * the difficulty is checked, the obstacles and the road move and the
     * boundaries are checked. The level keeps pace with the score, scores are
     * only ever appended, and a frame that ends no round scores exactly one point.
     */
    method GamePlay(carRect: Rect, boxRect: nat -> Rect)
      requires Valid() && Paced()
      modifies this
      ensures Valid() && Paced()
      ensures !old(gameWasInitialized) ==> unchanged(this)
      ensures old(scores) <= scores
      ensures gameWasInitialized == (old(gameWasInitialized) && scores == old(scores))
      // the player made the guarded moves, unless a box or the road's edge sent it back
      ensures old(gameWasInitialized) ==>
                var p := Moved(Position(old(xPos), old(yPos)), old(keys), clientTop, roadWidth, roadHeight, CarWidth);
                AtOrCentred(p.x, p.y)
      ensures old(gameWasInitialized) && scores == old(scores) ==>
                currentScore == old(currentScore) + 1 && |BoxIds(layout)|
                  == |old(BoxIds(layout))| + (if ShouldLevelUp(currentScore, old(level))
                                                   && AddsBox(old(level) + 1) then 1 else 0)
    {
      if gameWasInitialized {
        MovePlayer();
        ScoreFrame();
        MoveAndCheck(carRect, boxRect);
      }
    }

    /**
     * The position update of gamePlay: one step per pressed arrow, each guarded
     * by a bound of the road, with the car's 40 pixels as right margin.
     */
    method MovePlayer()
      requires Valid()
      modifies this`xPos, this`yPos
      ensures Valid()
      ensures Position(xPos, yPos)
                == Moved(Position(old(xPos), old(yPos)), keys, clientTop, roadWidth, roadHeight, CarWidth)
    {
      var here := Position(xPos, yPos);
      MovedKeepsVerticalBand(here, keys, clientTop, roadWidth, roadHeight, CarWidth);
      var there := Moved(here, keys, clientTop, roadWidth, roadHeight, CarWidth);
      xPos, yPos := there.x, there.y;
    }

    /** The score and difficulty updates of gamePlay: one point, then increaseDifficulty. */
    method ScoreFrame()
      requires Valid() && Paced()
      modifies this`currentScore, this`speedHalves, this`level, this`layout, this`boxes,
               this`nextBoxId, this`draws
      ensures Valid() && Paced()
      ensures currentScore == old(currentScore) + 1 && |BoxIds(layout)|
                == |old(BoxIds(layout))| + (if ShouldLevelUp(currentScore, old(level))
                                                 && AddsBox(old(level) + 1) then 1 else 0)
    {
      var shown := UpdatePlayerScore();
      DifficultyKeepsPace(currentScore - 1, level);
      IncreaseDifficulty();
    }

    /** The obstacle and boundary updates of gamePlay: moveObstacles, then the road check. */
    method MoveAndCheck(carRect: Rect, boxRect: nat -> Rect)
      requires Valid()
      modifies this
      ensures Valid() && (old(Paced()) ==> Paced())
      ensures AtOrCentred(old(xPos), old(yPos))
      ensures old(scores) <= scores
      ensures gameWasInitialized == (old(gameWasInitialized) && scores == old(scores))
      ensures scores == old(scores) ==>
                currentScore == old(currentScore) && level == old(level)
                && |BoxIds(layout)| == |old(BoxIds(layout))|
    {
      MoveObstacles(carRect, boxRect);
      CheckIfPlayerIsWithinRoadBoundaries();
    }

    /** keyUp: an arrow key's flag goes down; other keys are ignored. */
    method KeyUp(key: string)
      requires Valid()
      modifies this`keys
      ensures Valid()
      ensures IsArrowKey(key) ==> keys == SetArrow(old(keys), key, false)
      ensures !IsArrowKey(key) ==> keys == old(keys)
    {
      if key != ArrowUp && key != ArrowLeft && key != ArrowDown && key != ArrowRight {
        return;
      }
      keys := SetArrow(keys, key, false);
    }

    /** keyDown: an arrow key's flag goes up; other keys are ignored. */
    method KeyDown(key: string)
      requires Valid()
      modifies this`keys
      ensures Valid()
      ensures IsArrowKey(key) ==> keys == SetArrow(old(keys), key, true)
      ensures !IsArrowKey(key) ==> keys == old(keys)
    {
      if key != ArrowUp && key != ArrowLeft && key != ArrowDown && key != ArrowRight {
        return;
      }
      keys := SetArrow(keys, key, true);
    }
  }
}
