/**
 * The App class of src/app.js, the older variant of the game: the road holds the
 * car and the boxes only, without segments or a boundary check. A box keeps its
 * position in a `y` property that wraps round 1000, a collision ends the round
 * only when no life is left, and the player stays where it is after a collision.
 *
 * The boxes on the road are the id list `order`, in document order; every box
 * element ever created stays in the store `boxes`. Math.random is the sequence
 * `random`, read in call order through the counter `draws`. Layout rectangles
 * are parameters of the frame.
 */
module AppJs {
  import opened Geometry
  import opened Controls
  import opened Difficulty
  import opened Obstacles
  import opened Road
  import opened Board

  /** The part of the state a collision-free frame leaves as it is, apart from the score. */
  datatype Session = Session(scores: seq<int>, currentScore: int, level: int, speedHalves: int,
                             livesLeft: int, boxCount: int, gameWasInitialized: bool,
                             xPos: real, yPos: real, keys: map<string, bool>,
                             leaderNode: Option<Entry>)

  /**
   * The boxes on the road: each once, each in the store; every stored element
   * has an id below the next one and a box inside the app.js band.
   */
  ghost predicate StoreInv(roadWidth: int, order: seq<nat>, boxes: map<nat, Box>, nextBoxId: nat)
  {
    && Unique(order)
    && (forall id :: id in order ==> id in boxes)
    && (forall id :: id in boxes ==> id < nextBoxId && BoxOkJs(boxes[id], roadWidth))
  }

  class GameState {
    /** road.clientWidth, road.clientHeight and road.clientTop */
    const roadWidth: int
    const roadHeight: int
    const clientTop: int
    /** the values Math.random returns, in call order */
    const random: nat -> real

    /** how many values of `random` have been used */
    var draws: nat

    var scores: seq<int>
    var level: int
    var boxCount: int
    /** the Player: position, score, speed (in half pixels) and lives */
    var xPos: real
    var yPos: real
    var currentScore: int
    var speedHalves: int
    var livesLeft: int
    var gameWasInitialized: bool
    /** the key map, written under any key name whose code is an arrow's */
    var keys: map<string, bool>
    /** the road's boxes, the box element store and the next fresh element id */
    var order: seq<nat>
    var boxes: map<nat, Box>
    var nextBoxId: nat
    /** the one line element of the leader board, once one was written */
    var leaderNode: Option<Entry>

    ghost predicate RandomOk()
    {
      forall k: nat :: 0.0 <= random(k) < 1.0
    }

    function Snapshot(): Session
      reads this`scores, this`currentScore, this`level, this`speedHalves, this`livesLeft,
            this`boxCount, this`gameWasInitialized, this`xPos, this`yPos, this`keys, this`leaderNode
    {
      Session(scores, currentScore, level, speedHalves, livesLeft, boxCount, gameWasInitialized,
              xPos, yPos, keys, leaderNode)
    }

    ghost predicate StoreOk()
      reads this`order, this`boxes, this`nextBoxId
    {
      roadWidth > 0 && StoreInv(roadWidth, order, boxes, nextBoxId)
    }

    /** Level, speed, box count, score and lives. */
    ghost predicate RoundOk()
      reads this`level, this`speedHalves, this`boxCount, this`currentScore, this`livesLeft
    {
      && 1 <= level <= MaxLevel && speedHalves == SpeedHalvesAt(level)
      && boxCount == InitialBoxCount && currentScore >= 0
      && 0 <= livesLeft <= PlayerLivesPerRound
    }

    /** The state between two calls. */
    ghost predicate Valid()
      reads this
    {
      RandomOk() && StoreOk() && RoundOk()
    }

    /** The level is the one the score has earned. */
    ghost predicate Paced()
      reads this`level, this`currentScore
    {
      level == LevelFor(currentScore)
    }

    /** The round values resetStats sets. */
    ghost predicate RoundStart()
      reads this`level, this`speedHalves, this`boxCount, this`currentScore, this`livesLeft
    {
      && speedHalves == InitialSpeedHalves && livesLeft == PlayerLivesPerRound
      && currentScore == 0 && level == 1 && boxCount == InitialBoxCount
    }

    /**
     * The road holds n boxes, the elements start to start + n - 1 in that order,
     * and the store is oldBoxes plus those n elements, the k-th as createBox(k)
     * made it with random value number first + k.
     */
    ghost predicate FreshBoxes(oldBoxes: map<nat, Box>, n: nat, start: nat, first: nat)
      reads this`order, this`boxes
      requires RandomOk() && roadWidth > 0
    {
      && order == IdRange(start, n)
      && boxes == oldBoxes + CreatedBoxes(random, roadWidth, start, first, n)
    }

    /**
     * The store after a respawn of n boxes (ids from start, random values from
     * first) followed by the fall step of the old element id.
     */
    ghost predicate FreshThenFell(oldBoxes: map<nat, Box>, n: nat, start: nat, first: nat, id: nat)
      reads this`boxes, this`speedHalves
      requires RandomOk() && roadWidth > 0 && id in oldBoxes
    {
      boxes == (oldBoxes + CreatedBoxes(random, roadWidth, start, first, n))
                 [id := StepJs(oldBoxes[id], speedHalves, roadWidth, random(first + n), random(first + n + 1))]
    }

    /** What onGameOver leaves, for the scores, final score and key map it found. */
    ghost predicate AfterGameOver(oldScores: seq<int>, finalScore: int, oldKeys: map<string, bool>)
      reads this
    {
      && scores == oldScores + [finalScore]
      && leaderNode == LastOf(Best(scores))
      && RoundStart()
      && !gameWasInitialized
      && keys == ReleaseArrows(oldKeys)
    }

    /** new App() followed by init(); carLeft and carTop are the car's offsets. */
    constructor (roadWidth: int, roadHeight: int, clientTop: int, carLeft: int, carTop: int,
                 random: nat -> real)
      requires roadWidth > 0
      requires forall k: nat :: 0.0 <= random(k) < 1.0
      ensures Valid() && Paced()
      ensures this.roadWidth == roadWidth && this.roadHeight == roadHeight
      ensures this.clientTop == clientTop && this.random == random && draws == 0
      ensures scores == [] && RoundStart() && !gameWasInitialized && keys == InitialKeys()
      ensures xPos == carLeft as real && yPos == carTop as real
      ensures order == [] && boxes == map[] && leaderNode == None
    {
      this.roadWidth := roadWidth;
      this.roadHeight := roadHeight;
      this.clientTop := clientTop;
      this.random := random;
      draws := 0;
      scores := [];
      level := 1;
      boxCount := InitialBoxCount;
      xPos := carLeft as real;
      yPos := carTop as real;
      currentScore := 0;
      speedHalves := InitialSpeedHalves;
      livesLeft := PlayerLivesPerRound;
      gameWasInitialized := false;
      keys := InitialKeys();
      order := [];
      boxes := map[];
      nextBoxId := 0;
      leaderNode := None;
    }

    /** One Math.random() call. */
    method NextRandom() returns (r: real)
      requires RandomOk()
      modifies this`draws
      ensures r == random(old(draws)) && draws == old(draws) + 1
      ensures 0.0 <= r < 1.0
    {
      r := random(draws);
      draws := draws + 1;
    }

    /** createBox: a box with y = -(yCoefficient + 1) * 350 at a random left, appended last. */
    method CreateBox(yCoefficient: nat)
      requires RandomOk() && StoreOk()
      modifies this`order, this`boxes, this`nextBoxId, this`draws
      ensures StoreOk()
      ensures order == old(order) + [old(nextBoxId)]
      ensures boxes == old(boxes)[old(nextBoxId) :=
                Box(CreatedTop(yCoefficient), RandomLeft(random(old(draws)), roadWidth))]
      ensures nextBoxId == old(nextBoxId) + 1 && draws == old(draws) + 1
    {
      var r := NextRandom();
      var id := nextBoxId;
      UniqueSnoc(order, id);
      boxes := boxes[id := Box(CreatedTop(yCoefficient), RandomLeft(r, roadWidth))];
      order := order + [id];
      nextBoxId := id + 1;
    }

    /** The removal forEach of startNewGame and resetBoxStateAfterCollision: no box is left. */
    method RemoveBoxes()
      requires StoreOk()
      modifies this`order
      ensures StoreOk() && order == []
    {
      order := [];
    }

    /** One turn of the createBox loop: createBox(i) extends the i boxes made so far by one. */
    method CreateNextBox(i: nat, ghost start: nat, ghost first: nat, ghost ids: seq<nat>,
                         ghost store: map<nat, Box>)
      requires RandomOk() && StoreOk()
      requires order == ids + IdRange(start, i)
      requires nextBoxId == start + i && draws == first + i
      requires boxes == store + CreatedBoxes(random, roadWidth, start, first, i)
      modifies this`order, this`boxes, this`nextBoxId, this`draws
      ensures StoreOk()
      ensures order == ids + IdRange(start, i + 1)
      ensures nextBoxId == start + i + 1 && draws == first + i + 1
      ensures boxes == store + CreatedBoxes(random, roadWidth, start, first, i + 1)
    {
      assert IdRange(start, i + 1) == IdRange(start, i) + [start + i];
      ghost var before := boxes;
      CreateBox(i);
      CreatedBoxesStep(store, before, random, roadWidth, start, first, i);
    }

    /**
     * The loop createBox(0), ..., createBox(n - 1): n boxes appended with fresh
     * element ids; the elements already in the store keep their values.
     */
    method CreateBoxes(n: nat)
      requires RandomOk() && StoreOk()
      modifies this`order, this`boxes, this`nextBoxId, this`draws
      ensures StoreOk()
      ensures order == old(order) + IdRange(old(nextBoxId), n)
      ensures nextBoxId == old(nextBoxId) + n && draws == old(draws) + n
      ensures boxes == old(boxes) + CreatedBoxes(random, roadWidth, old(nextBoxId), old(draws), n)
    {
      ghost var start, first, ids, store := nextBoxId, draws, order, boxes;
      var i := 0;
      while i < n
        invariant 0 <= i <= n
        invariant StoreOk()
        invariant order == ids + IdRange(start, i)
        invariant nextBoxId == start + i && draws == first + i
        invariant boxes == store + CreatedBoxes(random, roadWidth, start, first, i)
      {
        CreateNextBox(i, start, first, ids, store);
        i := i + 1;
      }
    }

    /** Every box leaves the road, then createBox(0), ..., createBox(n - 1). */
    method ReplaceBoxes(n: nat)
      requires RandomOk() && StoreOk()
      modifies this`order, this`boxes, this`nextBoxId, this`draws
      ensures StoreOk()
      ensures FreshBoxes(old(boxes), n, old(nextBoxId), old(draws))
      ensures nextBoxId == old(nextBoxId) + n && draws == old(draws) + n
    {
      RemoveBoxes();
      CreateBoxes(n);
      assert order == [] + IdRange(old(nextBoxId), n);
    }

    /** resetBoxStateAfterCollision: the road gets back as many boxes as it had, at their starting heights. */
    method ResetBoxStateAfterCollision()
      requires RandomOk() && StoreOk()
      modifies this`order, this`boxes, this`nextBoxId, this`draws
      ensures StoreOk()
      ensures FreshBoxes(old(boxes), |old(order)|, old(nextBoxId), old(draws))
      ensures nextBoxId == old(nextBoxId) + |old(order)| && draws == old(draws) + |old(order)|
    {
      var boxCountBeforeCollision := |order|;
      ReplaceBoxes(boxCountBeforeCollision);
    }

    /** startNewGame: the round starts with boxCount fresh boxes. */
    method StartNewGame()
      requires Valid()
      modifies this`gameWasInitialized, this`order, this`boxes, this`nextBoxId, this`draws
      ensures Valid()
      ensures gameWasInitialized
      ensures FreshBoxes(old(boxes), InitialBoxCount, old(nextBoxId), old(draws))
    {
      gameWasInitialized := true;
      ReplaceBoxes(boxCount);
    }

    /** updatePlayerScore: one point per frame; the score shown is the one before it. */
    method UpdatePlayerScore() returns (shown: int)
      requires Valid()
      modifies this`currentScore
      ensures Valid()
      ensures currentScore == old(currentScore) + 1 && shown == old(currentScore)
    {
      currentScore := currentScore + 1;
      shown := currentScore - 1;
    }

    /**
     * increaseDifficulty: past the threshold of its level the game goes one level
     * up and half a pixel faster, and reaching level 2 or 4 adds createBox(2).
     */
    method IncreaseDifficulty()
      requires Valid()
      modifies this`speedHalves, this`level, this`order, this`boxes, this`nextBoxId, this`draws
      ensures Valid()
      ensures ShouldLevelUp(old(currentScore), old(level)) ==>
                level == old(level) + 1 && Speed(speedHalves) == Speed(old(speedHalves)) + 0.5
      ensures !ShouldLevelUp(old(currentScore), old(level)) ==>
                level == old(level) && speedHalves == old(speedHalves)
      ensures ShouldLevelUp(old(currentScore), old(level)) && AddsBox(level) ==>
                && order == old(order) + [old(nextBoxId)]
                && boxes == old(boxes)[old(nextBoxId) :=
                     Box(CreatedTop(2), RandomLeft(random(old(draws)), roadWidth))]
                && nextBoxId == old(nextBoxId) + 1 && draws == old(draws) + 1
      ensures !(ShouldLevelUp(old(currentScore), old(level)) && AddsBox(level)) ==>
                order == old(order) && boxes == old(boxes) && nextBoxId == old(nextBoxId)
                && draws == old(draws)
    {
      ShouldLevelUpMeans(currentScore, level);
      if ShouldLevelUp(currentScore, level) {
        speedHalves := speedHalves + 1;
        level := level + 1;
        if AddsBox(level) {
          CreateBox(2);
        }
      }
    }

    /**
     * onGameOver: the score is recorded, the game stops, the arrows are released,
     * the board is redrawn and the round values reset; the player is not moved.
     */
    method OnGameOver()
      requires Valid()
      modifies this`scores, this`gameWasInitialized, this`keys, this`leaderNode, this`speedHalves,
               this`livesLeft, this`currentScore, this`level, this`boxCount
      ensures Valid() && Paced()
      ensures AfterGameOver(old(scores), old(currentScore), old(keys))
    {
      StopRound();
      UpdateLeaderBoard();
      ResetStats();
    }

    /** The state changes of onGameOver before the board is redrawn. */
    method StopRound()
      requires Valid()
      modifies this`scores, this`gameWasInitialized, this`keys
      ensures Valid()
      ensures scores == old(scores) + [currentScore]
      ensures !gameWasInitialized && keys == ReleaseArrows(old(keys))
    {
      scores := scores + [currentScore];
      gameWasInitialized := false;
      keys := keys[ArrowLeft := false][ArrowRight := false][ArrowUp := false][ArrowDown := false];
    }

    /** updateLeaderBoard: only the last of the top three lines stays on the board. */
    method UpdateLeaderBoard()
      requires Valid()
      modifies this`leaderNode
      ensures Valid()
      ensures leaderNode == LastOf(Best(scores))
    {
      leaderNode := ListBestJs(scores);
    }

    /** resetStats */
    method ResetStats()
      requires Valid()
      modifies this`speedHalves, this`livesLeft, this`currentScore, this`level, this`boxCount
      ensures Valid() && Paced()
      ensures RoundStart()
    {
      speedHalves := InitialSpeedHalves;
      livesLeft := PlayerLivesPerRound;
      currentScore := 0;
      level := 1;
      boxCount := InitialBoxCount;
    }

    /** The else branch of the collision test: one life less, then the reset. */
    method LoseLife()
      requires Valid() && livesLeft > 0
      modifies this`livesLeft, this`order, this`boxes, this`nextBoxId, this`draws
      ensures Valid() && Snapshot() == old(Snapshot()).(livesLeft := old(livesLeft) - 1)
      ensures FreshBoxes(old(boxes), |old(order)|, old(nextBoxId), old(draws))
      ensures nextBoxId == old(nextBoxId) + |old(order)| && draws == old(draws) + |old(order)|
    {
      DropLife();
      ResetBoxStateAfterCollision();
    }

    /** livesLeft--, and nothing else of the session changes. */
    method DropLife()
      modifies this`livesLeft
      ensures Snapshot() == old(Snapshot()).(livesLeft := old(livesLeft) - 1)
    {
      livesLeft := livesLeft - 1;
    }

    /**
     * The fall part of moveObstacles for one box: a box at 1000 or more moves up
     * by 1000 and gets a new left from two Math.random calls, then every box
     * falls by the speed.
     */
    method FallBox(id: nat)
      requires Valid() && id in boxes
      modifies this`boxes, this`draws
      ensures Valid() && Snapshot() == old(Snapshot())
      ensures boxes == old(boxes)[id :=
                StepJs(old(boxes)[id], speedHalves, roadWidth, random(old(draws)), random(old(draws) + 1))]
      ensures draws == old(draws) + (if old(boxes)[id].top >= 1000.0 then 2 else 0)
    {
      var b := boxes[id];
      var y := b.top;
      var left := b.left;
      if y >= 1000.0 {
        y := y - 1000.0;
        var r1 := NextRandom();
        var r2 := NextRandom();
        left := RandomLeftJs(r1, r2, roadWidth);
      }
      y := y + Speed(speedHalves);
      boxes := boxes[id := Box(y, left)];
      StepJsKeepsBoxOk(b, speedHalves, roadWidth, random(old(draws)), random(old(draws) + 1));
    }

    /** The forEach body of moveObstacles for the element with store id `id`. */
    method MoveBox(id: nat, carRect: Rect, boxRect: Rect)
      requires Valid() && id in boxes
      modifies this`livesLeft, this`order, this`boxes, this`nextBoxId, this`draws, this`scores,
               this`gameWasInitialized, this`keys, this`leaderNode, this`speedHalves,
               this`currentScore, this`level, this`boxCount
      ensures Valid() && (old(Paced()) ==> Paced())
      ensures old(boxes).Keys <= boxes.Keys
      ensures |order| == |old(order)|
      ensures gameWasInitialized == (old(gameWasInitialized) && scores == old(scores))
      ensures old(scores) <= scores
      ensures scores == old(scores) ==> currentScore == old(currentScore) && level == old(level)
      ensures !OnCollision(carRect, boxRect) ==>
                && Snapshot() == old(Snapshot()) && order == old(order) && nextBoxId == old(nextBoxId)
                && boxes == old(boxes)[id := StepJs(old(boxes)[id], speedHalves, roadWidth,
                                                    random(old(draws)), random(old(draws) + 1))]
      // the round ends: the box then falls at the reset speed, and the player stays
      ensures OnCollision(carRect, boxRect) && old(livesLeft) == 0 ==>
                && AfterGameOver(old(scores), old(currentScore), old(keys))
                && xPos == old(xPos) && yPos == old(yPos) && order == old(order)
                && nextBoxId == old(nextBoxId)
                && boxes == old(boxes)[id := StepJs(old(boxes)[id], speedHalves, roadWidth,
                                                    random(old(draws)), random(old(draws) + 1))]
      // a life lost: fresh boxes, and the old element, now off the road, still falls
      ensures OnCollision(carRect, boxRect) && old(livesLeft) > 0 ==>
                && Snapshot() == old(Snapshot()).(livesLeft := old(livesLeft) - 1)
                && order == IdRange(old(nextBoxId), |old(order)|)
                && nextBoxId == old(nextBoxId) + |old(order)|
                && FreshThenFell(old(boxes), |old(order)|, old(nextBoxId), old(draws), id)
    {
      if OnCollision(carRect, boxRect) {
        if livesLeft == 0 {
          EndRoundAndFall(id);
        } else {
          LoseLifeAndFall(id);
        }
      } else {
        FallBox(id);
      }
    }

    /** The forEach body after a contact with no life left: onGameOver, then the fall at the reset speed. */
    method EndRoundAndFall(id: nat)
      requires Valid() && id in boxes
      modifies this`scores, this`gameWasInitialized, this`keys, this`leaderNode, this`speedHalves,
               this`livesLeft, this`currentScore, this`level, this`boxCount, this`boxes, this`draws
      ensures Valid() && Paced()
      ensures AfterGameOver(old(scores), old(currentScore), old(keys))
      ensures boxes == old(boxes)[id := StepJs(old(boxes)[id], speedHalves, roadWidth,
                                               random(old(draws)), random(old(draws) + 1))]
    {
      OnGameOver();
      FallBox(id);
    }

    /** The forEach body after a contact with a life left: the life is lost, then the old element falls. */
    method LoseLifeAndFall(id: nat)
      requires Valid() && livesLeft > 0 && id in boxes
      modifies this`livesLeft, this`order, this`boxes, this`nextBoxId, this`draws
      ensures Valid() && Snapshot() == old(Snapshot()).(livesLeft := old(livesLeft) - 1)
      ensures order == IdRange(old(nextBoxId), |old(order)|)
      ensures nextBoxId == old(nextBoxId) + |old(order)|
      ensures FreshThenFell(old(boxes), |old(order)|, old(nextBoxId), old(draws), id)
    {
      LoseLife();
      assert boxes[id] == old(boxes)[id];
      FallBox(id);
    }

    /**
     * One turn of the forEach: MoveBox for ids[k], with `calm` the summary of the
     * turns before (no collision yet, and the first k boxes fell).
     */
    method MoveBoxAt(ids: seq<nat>, k: nat, carRect: Rect, boxRect: Rect, ghost start: map<nat, Box>,
                     ghost shot: Session, ghost ids0: seq<nat>, ghost calm: bool)
      returns (ghost calmAfter: bool)
      requires Valid() && Distinct(ids) && k < |ids| && ids[k] in boxes
      requires calm ==> Snapshot() == shot && order == ids0
                        && FellSoFar(JavaScript, start, boxes, ids, k, speedHalves, roadHeight, roadWidth)
      modifies this`livesLeft, this`order, this`boxes, this`nextBoxId, this`draws, this`scores,
               this`gameWasInitialized, this`keys, this`leaderNode, this`speedHalves,
               this`currentScore, this`level, this`boxCount
      ensures Valid() && (old(Paced()) ==> Paced())
      ensures old(boxes).Keys <= boxes.Keys
      ensures |order| == |old(order)|
      ensures gameWasInitialized == (old(gameWasInitialized) && scores == old(scores))
      ensures old(scores) <= scores
      ensures scores == old(scores) ==> currentScore == old(currentScore) && level == old(level)
      ensures calmAfter == (calm && !OnCollision(carRect, boxRect))
      ensures calmAfter ==> Snapshot() == shot && order == ids0
                            && FellSoFar(JavaScript, start, boxes, ids, k + 1, speedHalves, roadHeight, roadWidth)
    {
      ghost var before, r1, r2 := boxes, random(draws), random(draws + 1);
      MoveBox(ids[k], carRect, boxRect);
      calmAfter := calm && !OnCollision(carRect, boxRect);
      if calmAfter {
        FellSoFarStep(JavaScript, start, before, ids, k, speedHalves, roadHeight, roadWidth,
                      StepJs(before[ids[k]], speedHalves, roadWidth, r1, r2));
      }
    }

    /**
     * moveObstacles: the forEach over the list querySelectorAll returned at its
     * start; boxRect(k) is the layout rectangle of its k-th box when its turn
     * comes. A collision-free pass moves every box one step and changes nothing else.
     */
    method MoveObstacles(carRect: Rect, boxRect: nat -> Rect)
      requires Valid()
      modifies this`livesLeft, this`order, this`boxes, this`nextBoxId, this`draws, this`scores,
               this`gameWasInitialized, this`keys, this`leaderNode, this`speedHalves,
               this`currentScore, this`level, this`boxCount
      ensures Valid() && (old(Paced()) ==> Paced())
      ensures |order| == |old(order)|
      ensures gameWasInitialized == (old(gameWasInitialized) && scores == old(scores))
      ensures old(scores) <= scores
      ensures scores == old(scores) ==> currentScore == old(currentScore) && level == old(level)
      ensures (forall k :: 0 <= k < |old(order)| ==> !OnCollision(carRect, boxRect(k))) ==>
                && Snapshot() == old(Snapshot()) && order == old(order)
                && AllFell(JavaScript, old(boxes), boxes, old(order), speedHalves, roadHeight, roadWidth)
    {
      var ids := order;
      UniqueIsDistinct(order);
      var k := 0;
      ghost var calm := true;
      while k < |ids|
        invariant 0 <= k <= |ids|
        invariant calm == NoneCollide(carRect, boxRect, k)
        invariant Valid() && (old(Paced()) ==> Paced())
        invariant old(boxes).Keys <= boxes.Keys
        invariant |order| == |ids|
        invariant gameWasInitialized == (old(gameWasInitialized) && scores == old(scores))
        invariant old(scores) <= scores
        invariant scores == old(scores) ==> currentScore == old(currentScore) && level == old(level)
        invariant calm ==>
                    && Snapshot() == old(Snapshot()) && order == old(order)
                    && FellSoFar(JavaScript, old(boxes), boxes, ids, k, speedHalves, roadHeight, roadWidth)
      {
        calm := MoveBoxAt(ids, k, carRect, boxRect(k), old(boxes), old(Snapshot()), old(order), calm);
        k := k + 1;
      }
      NoneCollideMeans(carRect, boxRect, |ids|);
      if calm {
        FellSoFarAll(JavaScript, old(boxes), boxes, ids, speedHalves, roadHeight, roadWidth);
      }
    }

    /**
     * gamePlay: one frame. While a round runs the player moves, scores a point,
     * the difficulty is checked and the obstacles move. The level keeps pace with
     * the score, scores are only ever appended, and a frame that ends no round
     * scores exactly one point.
     */
    method GamePlay(carRect: Rect, boxRect: nat -> Rect)
      requires Valid() && Paced()
      modifies this
      ensures Valid() && Paced()
      ensures !old(gameWasInitialized) ==> unchanged(this)
      ensures old(scores) <= scores
      ensures gameWasInitialized == (old(gameWasInitialized) && scores == old(scores))
      // the player made the guarded moves, and nothing later moves it
      ensures old(gameWasInitialized) ==>
                Position(xPos, yPos)
                  == Moved(Position(old(xPos), old(yPos)), ArrowsOf(old(keys)), clientTop, roadWidth, roadHeight, 90)
      ensures old(gameWasInitialized) && scores == old(scores) ==>
                currentScore == old(currentScore) + 1 && |order|
                  == |old(order)| + (if ShouldLevelUp(currentScore, old(level))
                                         && AddsBox(old(level) + 1) then 1 else 0)
    {
      if gameWasInitialized {
        MovePlayer();
        ScoreFrame();
        MoveObstacles(carRect, boxRect);
      }
    }

    /**
     * The position update of gamePlay: one step per pressed arrow, each guarded
     * by a bound of the road, with 90 pixels as right margin.
     */
    method MovePlayer()
      requires Valid()
      modifies this`xPos, this`yPos
      ensures Valid()
      ensures Position(xPos, yPos)
                == Moved(Position(old(xPos), old(yPos)), ArrowsOf(keys), clientTop, roadWidth, roadHeight, 90)
    {
      var there := Moved(Position(xPos, yPos), ArrowsOf(keys), clientTop, roadWidth, roadHeight, 90);
      xPos, yPos := there.x, there.y;
    }

    /** The score and difficulty updates of gamePlay: one point, then increaseDifficulty. */
    method ScoreFrame()
      requires Valid() && Paced()
      modifies this`currentScore, this`speedHalves, this`level, this`order, this`boxes,
               this`nextBoxId, this`draws
      ensures Valid() && Paced()
      ensures currentScore == old(currentScore) + 1 && |order|
                == |old(order)| + (if ShouldLevelUp(currentScore, old(level))
                                       && AddsBox(old(level) + 1) then 1 else 0)
    {
      var shown := UpdatePlayerScore();
      DifficultyKeepsPace(currentScore - 1, level);
      IncreaseDifficulty();
    }

    /** keyUp: for the key codes 37 to 40 the flag under e.key goes down; other events are ignored. */
    method KeyUp(key: string, keyCode: int)
      requires Valid()
      modifies this`keys
      ensures Valid()
      ensures IsArrowKeyCode(keyCode) ==> keys == old(keys)[key := false]
      ensures !IsArrowKeyCode(keyCode) ==> keys == old(keys)
    {
      if keyCode != 37 && keyCode != 38 && keyCode != 39 && keyCode != 40 {
        return;
      }
      keys := keys[key := false];
    }

    /** keyDown: for the key codes 37 to 40 the flag under e.key goes up; other events are ignored. */
    method KeyDown(key: string, keyCode: int)
      requires Valid()
      modifies this`keys
      ensures Valid()
      ensures IsArrowKeyCode(keyCode) ==> keys == old(keys)[key := true]
      ensures !IsArrowKeyCode(keyCode) ==> keys == old(keys)
    {
      if keyCode != 37 && keyCode != 38 && keyCode != 39 && keyCode != 40 {
        return;
      }
      keys := keys[key := true];
    }
  }
}
