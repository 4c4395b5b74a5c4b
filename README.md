# Car game state model

A Dafny model of the game state behind a small browser car game. A car drives down a road made of 5-pixel segments that wobble left and right. Boxes fall towards the car. Touching a box or leaving the road costs a life. The score grows by one per frame, and the level and fall speed rise at 1000, 2000, 3000 and 4000 points. Game over records the score on a leader board of the best three.

There are two versions of the `App` class:

- `src/app.ts` is the build entry. It is `AppTs.GameState` in `app_ts.dfy`.
- `src/app.js` is an older variant without road segments. It is `AppJs.GameState` in `app_js.dfy`.

Both classes hold the `App` fields and the `Player` fields. Each source method that updates them is a method with `modifies` and the new state in its `ensures`. The rules the two versions share are pure modules:

- `Geometry`: the collision test.
- `Controls`: key flags and player movement.
- `Difficulty`: level thresholds, speed and reset values.
- `Obstacles`: created, falling and recycled boxes.
- `Road`: the drift walk, the segment width table and the order of the road's children.
- `Board`: sorting and the top three.

The class invariant `Valid()` ties these together. It says:

- the drift stays within its bounds;
- the road holds the car first, then each segment and box once;
- every box on the road exists in the element store and lies inside the road;
- the level and speed match each other;
- the player stays in the band where the segment lookup is defined;
- the lives stay between 0 and 2.

`Paced()` says that the level is the one the score has earned. Every frame keeps both.

Modelling choices:

- **Fall speed.** It changes in steps of 0.5, so it is kept as a whole number of half pixels.
- **Box elements.** Every box element ever created stays in a store `boxes` indexed by element id. The road's children are a list: `layout` in app.ts, `order` in app.js. Removing a box takes it off the list but keeps it in the store. So, as in the browser, the static list that `querySelectorAll` returned still reaches the removed elements for the rest of the loop.
- **`Math.random`.** It is the sequence `random` of the values it returns, read in call order through the counter `draws`.
- **Browser inputs.** Layout rectangles, road dimensions and car offsets are parameters.

## Model

| member | source | states |
|---|---|---|
| Geometry.CollisionSymmetric | src/app.ts:242-248 | onCollision gives the same answer with its two rectangles swapped |
| Geometry.CollisionIsSharedPoint | src/app.ts:242-248 | for well-formed rectangles, onCollision holds exactly when they share a point, so touching edges count |
| Geometry.CornerContactCollides | src/app.js:152-158 | two rectangles that meet only at a corner collide (app.js has the same test) |
| Geometry.NoneCollideMeans | src/app.ts:186-188 | the running no-collision flag of a box loop means no box rectangle so far met the car |
| Controls.SetArrow | src/app.ts:348 | writing one arrow flag sets that flag and leaves the other three as they were |
| Controls.InitialKeys | src/app.js:26-31 | the starting key map holds exactly the four arrow names, all released |
| Controls.ArrowsOf | src/app.js:94-97 | gamePlay reads an arrow as pressed exactly when its entry exists and is true |
| Controls.ReleaseArrows | src/app.js:185-188 | game over releases all four arrows and leaves every other key name as it was |
| Controls.ReleaseArrowsRestoresStart | src/app.js:185-188 | on a map holding only the four arrows, the release gives back the starting map |
| Controls.Moved | src/app.ts:157-161 | each axis moves by at most 2 pixels; with no arrow pressed nothing moves; a move happens only when its arrow is pressed and its guard (above clientTop + 150, below height - 150, x > 0, x < width - margin) holds, and each such move does happen, opposite moves on one axis cancelling |
| Controls.MovedKeepsVerticalBand | src/app.ts:158-159 | the guards keep a player in [5, roadHeight] inside that band |
| Controls.MovedKeepsHorizontalBand | src/app.ts:160-161 | the guards keep the player within (-2, width - margin + 2) |
| Controls.OppositeArrowsCancel | src/app.ts:157-161 | holding all four arrows, away from every guard, leaves the player where it is |
| Difficulty.ShouldLevelUpMeans | src/app.ts:271-274 | the four-case level-up condition is exactly: level between 1 and 4 and score >= 1000 * level |
| Difficulty.SpeedHalvesAt | src/app.ts:276 | the speed at level L is 2 + 0.5 * (L - 1) pixels |
| Difficulty.Speed | src/app.ts:276 | the speed's whole-pixel part is half the count rounded down, it is a whole number of pixels exactly when the count is even, and it is never negative for a non-negative count |
| Difficulty.LevelFor | src/app.ts:270-284 | the level a score has earned is in [1, 5]; below 5 the score lies in [1000 * (L - 1), 1000 * L), and the level is 5 exactly from 4000 points on |
| Difficulty.DifficultyKeepsPace | src/app.ts:167-169 | one point followed by increaseDifficulty moves the level to the one the new score has earned; a level-up happens exactly at the multiples of 1000 up to 4000 |
| Difficulty.NoDoubleLevelUp | src/app.ts:270-284 | the frame after a level-up does not raise the level again |
| Obstacles.CreatedTop | src/app.ts:94 | a created box starts at least 350 pixels above the road |
| Obstacles.Trunc | src/app.ts:217-218 | parseInt truncates toward zero: it lies within 1 of y, on y's side of 0 |
| Obstacles.RandomLeft | src/app.ts:95 | floor(random * width) lies in [0, width) |
| Obstacles.RandomLeftJs | src/app.js:131-132 | floor(r1 * floor(r2 * width)) lies in [0, width) and never right of the one-draw value |
| Obstacles.FallTop | src/app.ts:217-218 | a box at a whole-pixel top falls by exactly the speed |
| Obstacles.StepTs | src/app.ts:217-223 | a box whose new top reaches the road's height goes to -1000 with a left in [0, width); otherwise it moves to parseInt(top) + speed and keeps its left |
| Obstacles.StepTsKeepsBoxOk | src/app.ts:217-223 | the app.ts step keeps every box inside the road horizontally and above its bottom |
| Obstacles.OnRoadFallIsFloorOfSpeed | src/app.ts:217-218 | on the road, parseInt makes a box fall floor(speed) per frame, so half-pixel speed-ups are not seen |
| Obstacles.AboveRoadFallIsCeilOfSpeed | src/app.ts:217-218 | above the road, a box falls ceil(speed) per frame |
| Obstacles.WrapJs | src/app.js:128-129 | the wrap never moves a box down, a y below 2000 ends below 1000, and a y of 0 or more stays 0 or more |
| Obstacles.FallJs | src/app.js:128-134 | a box below 1000 falls by exactly the speed, without truncation |
| Obstacles.FallJsBounds | src/app.js:128-134 | an app.js box stays below 1000 plus the top speed, and a recycled one lands at a top between 0 and twice the top speed |
| Obstacles.StepJs | src/app.js:128-135 | the app.js step wraps and adds the speed, and only a recycled box moves sideways, to the two-draw left |
| Obstacles.StepJsKeepsBoxOk | src/app.js:128-135 | the app.js step keeps every box inside that band and inside the road horizontally |
| Obstacles.CreatedBoxes | src/app.ts:88 | n createBox calls add exactly the element ids start to start + n - 1 |
| Obstacles.CreatedBoxesStep | src/app.ts:88 | one more createBox call adds the next id with its starting box |
| Obstacles.FellSoFarStep | src/app.ts:186-188 | one more turn of the box loop moves only that turn's box, as the listed elements are distinct |
| Obstacles.FellSoFarAll | src/app.js:119-136 | after the last turn every listed box took one fall step |
| Road.DriftStep | src/app.ts:120-141 | with steps left, the offset moves 2 in the current direction, the counter drops by 1 and the direction is kept; with none left, the offset stays, the counter is 3 again, and the direction is left past a fifth of the width, right at or below 0, otherwise the coin r > 0.5 |
| Road.DriftStepKeepsOk | src/app.ts:120-141 | every drift step keeps the counter in [0, 3] and the offset even and in [-4, WobbleMax], whatever the coin |
| Road.DriftOffsets | src/app.ts:100-118 | the walk of n steps leaves n offsets, the last one the offset after n steps |
| Road.DriftAfterOk | src/app.ts:120-141 | any number of drift steps keeps the drift invariant |
| Road.DriftOffsetsAt | src/app.ts:104-110 | the k-th generated offset is the offset after k + 1 drift steps |
| Road.DriftOffsetsOk | src/app.ts:100-118 | every generated offset lies in [-4, WobbleMax], the first is within 2 pixels of the starting offset, and neighbouring segments differ by at most 2 pixels |
| Road.InitialDriftOk | src/app.ts:15-17 | the starting drift (30, 3, right) satisfies the drift invariant |
| Road.SegmentWidthFor | src/app.ts:143-152 | the segment width is one of 300, 400, 550: 300 exactly up to 380, 550 exactly above 600 |
| Road.SegmentWidthMonotone | src/app.ts:143-152 | a wider road never gets narrower segments |
| Road.SegmentIndex | src/app.ts:252-253 | for a player in [5, roadHeight], the segment just above is one of the roadHeight / 5 segments |
| Road.OnRoadMeansCarInside | src/app.ts:256-261 | the player is on the road exactly when the whole 40-pixel car lies strictly inside the segment |
| Road.ScrollMovesLastToSecond | src/app.ts:203-204 | replaceChild(last, first) then insertBefore(first, last) keeps the first child and moves the last one to index 1 |
| Road.ScrollPermutes | src/app.ts:203-204 | the scroll only reorders the children: the same nodes, each once, the first unmoved |
| Road.ScrollKeepsBoxCount | src/app.ts:203-204 | the scroll keeps the number of boxes on the road |
| Road.ScrollKeepsBoxes | src/app.ts:203-204 | the scroll keeps the same box elements on the road |
| Road.ScrollRotatesBoxes | src/app.ts:203-204 | a box that is the last child becomes the first box in document order |
| Road.ScrollKeepsBoxOrder | src/app.ts:203-204 | when the last child is a segment, the boxes keep their order |
| Road.ScrollKeepsChildrenOk | src/app.ts:203-204 | the scroll keeps the road well formed |
| Road.WithoutBoxes | src/app.ts:85-87 | after the removal loop, exactly the non-box children remain, with the car still first |
| Road.WithoutBoxesAppend | src/app.ts:85-87 | removal works child by child: on a split list it is the removal of each part, so the remaining children keep their order |
| Road.WithoutBoxesKeepsChildrenOk | src/app.ts:229-232 | removing every box keeps the road well formed and leaves no box |
| Road.AppendBoxKeepsChildrenOk | src/app.ts:97 | appending a new box keeps the road well formed and makes it the last box |
| Road.InitialChildren | src/app.ts:100-118 | the road init leaves is well formed and holds no box |
| Road.NewBoxNodesIds | src/app.ts:88 | the elements the createBox loop appends carry consecutive ids |
| Road.UniqueIsDistinct | src/app.js:119 | listing each node once, recursively, is the same as pairwise distinct |
| Board.Insert | src/app.ts:315 | inserting into a descending list keeps it descending and adds the element to its multiset |
| Board.SortDescending | src/app.ts:315 | the sort with comparator b - a is descending and a permutation of the history |
| Board.Shown | src/app.ts:318-320 | min(n, 3) entries are listed, as the walk stops at rank leaderBoardSize = 4 |
| Board.Best | src/app.ts:315-325 | the board lists rank k + 1 with the k-th largest score, for min(n, 3) entries |
| Board.BestScores | src/app.ts:315-325 | the scores on the board are the first min(n, 3) of the sorted copy |
| Board.BestIsTopThree | src/app.ts:309-326 | ranks run 1, 2, 3; scores descend and come from the history; the first is at least every score, and every score left off is at most the last listed |
| Board.ListBest | src/app.ts:315-325 | the forEach walk with its rank counter and early return builds exactly that board |
| Board.LastOf | src/app.js:206-211 | the reused line element holds nothing exactly when nothing was written |
| Board.ListBestJs | src/app.js:202-212 | the app.js walk leaves in its one reused element the last line of that same board |
| Board.JsBoardShowsOneLine | src/app.js:196-213 | the app.js board shows nothing for no games, otherwise only its lowest line, ranked 3 once three games were played |
| AppTs.GameState.constructor | src/app.ts:40-72 | init: the segment width from the table, the car's offsets as the position, the round values of a new round, and a road holding the car and then the generated segments, whose offsets are the first floor(height / 5) steps of the drift walk from (30, 3, right) |
| AppTs.GameState.InitRoad | src/app.ts:69-70 | generateRoad turns the car-only road into a well-formed one, car first, then segments 0 to n - 1, with the offsets of the drift walk from the old drift |
| AppTs.GameState.NextRandom | src/app.ts:95 | one Math.random call returns the next value of the sequence, in [0, 1) |
| AppTs.GameState.GenerateRoad | src/app.ts:100-118 | floor(height / 5) segments are appended in order; the k-th offset is the drift after k + 1 steps from the old drift, each step using the next random value only for a coin, and the drift is left at the last step |
| AppTs.GameState.GenerateSegment | src/app.ts:104-117 | turn i of the loop takes the road and the drift from i steps of the walk to i + 1 |
| AppTs.GameState.AddSegment | src/app.ts:105-116 | the drift becomes DriftStep of the old one with the next random value, which is consumed only when the coin is needed; the new offset is appended to roadSegments and its segment to the road |
| AppTs.GameState.HandleCurrentSegmentOffset | src/app.ts:120-141 | the drift fields become DriftStep of the old ones, and a random value is used only when the coin is needed |
| AppTs.GameState.CreateBox | src/app.ts:91-98 | a fresh element (350 * (k + 1) above the road, left floor(random * width)) becomes the last child, and the road stays well formed |
| AppTs.GameState.RemoveBoxes | src/app.ts:85-87 | every box leaves the road and the other children keep their order |
| AppTs.GameState.CreateNextBox | src/app.ts:88 | one turn of the createBox loop extends the boxes made so far by the next one |
| AppTs.GameState.CreateBoxes | src/app.ts:88 | n boxes with consecutive fresh ids are appended in order, and the older store entries are kept |
| AppTs.GameState.ReplaceBoxes | src/app.ts:85-88 | the road's boxes are replaced by n fresh ones in order, the rest of the road kept |
| AppTs.GameState.ResetBoxAndPlayerPositionAfterCollision | src/app.ts:227-240 | the box count is kept, every box is back at its starting height, and the player is at (width / 2, height - 180) |
| AppTs.GameState.RecentrePlayer | src/app.ts:238-239 | the player goes to (width / 2, height - 180) and nothing else of the session changes |
| AppTs.GameState.StartNewGame | src/app.ts:74-89 | the game is flagged as running, with exactly three fresh boxes on the road |
| AppTs.GameState.UpdatePlayerScore | src/app.ts:176-181 | the score grows by 1 and the score shown is the old one |
| AppTs.GameState.IncreaseDifficulty | src/app.ts:270-284 | at the level's threshold the level rises by one and the speed by 0.5, adding createBox(2) at new levels 2 and 4; otherwise nothing changes |
| AppTs.GameState.LoseLife | src/app.ts:211-214 | one life less, then the respawn of as many boxes and the recentred player; the rest of the session is kept |
| AppTs.GameState.FallBox | src/app.ts:217-223 | the box's store entry takes the app.ts step, using a random value only when recycled, and the session is kept |
| AppTs.GameState.HandleBoxLogic | src/app.ts:207-225 | without contact only this box's entry changes, by one fall step; on contact with lives <= 0 the round ends and the box then falls at the reset speed; on contact with a life left one life goes, the boxes are respawned, the player is recentred, and the old element still takes its fall step with the random value after the respawn's; the invariant, the level pace and the box count always hold |
| AppTs.GameState.EndRoundAndFall | src/app.ts:209-223 | onGameOver, then the box's fall step at the reset speed |
| AppTs.GameState.LoseLifeAndFall | src/app.ts:211-223 | one life less, the respawn, and then the old element's fall step; the rest of the session is kept |
| AppTs.GameState.MoveBoxAt | src/app.ts:186-188 | one turn of the box loop keeps the running summary of the turns before |
| AppTs.GameState.MoveBoxes | src/app.ts:186-188 | a pass with no contact moves every listed box one step and changes nothing else; any pass keeps the box count, the level pace and the invariant, and only ever appends scores; the player is where it was or recentred |
| AppTs.GameState.ScrollRoad | src/app.ts:190-204 | a last child that is a segment gets the next drift step as its offset, drawing one number exactly when the drift needs a coin; then the scroll moves it to index 1, and the box count and player are kept |
| AppTs.GameState.ShiftSegment | src/app.ts:194-201 | that segment's offset becomes the next drift step, one number is drawn exactly when the drift needs a coin, and nothing else of the session changes |
| AppTs.GameState.MoveObstacles | src/app.ts:183-205 | a pass with no contact moves every box one step, keeps the session and scrolls the road: a segment taken from the bottom gets the next drift step as its offset, a box leaves the offsets and the drift alone; any pass keeps the box count, and the player is where it was or recentred |
| AppTs.GameState.CheckIfPlayerIsWithinRoadBoundaries | src/app.ts:250-268 | on the road nothing changes; off it (edges included) the boxes are respawned, and with a life left one life goes, the player is recentred and the rest of the session (keys, board, speed, segments) is kept, while with none left the round ends; the player is where it was or recentred |
| AppTs.GameState.LeaveRoad | src/app.ts:262-266 | with a life left: one life less, the player recentred, fresh boxes with the next ids and everything else of the session kept; with none left: the round ends |
| AppTs.GameState.CountOffRoadLife | src/app.ts:263-266 | with a life left, one life less and the rest of the session kept; with none left, game over |
| AppTs.GameState.DropLife | src/app.ts:263 | livesLeft goes down by one and nothing else of the session changes |
| AppTs.GameState.OnGameOver | src/app.ts:286-307 | the score is appended, the game stops, all arrows are released, the player is recentred, the board is the top three and the round values are reset |
| AppTs.GameState.StopRound | src/app.ts:288-301 | the score is pushed, the flag is cleared, the four arrows are released and the player is recentred |
| AppTs.GameState.UpdateLeaderBoard | src/app.ts:309-326 | the board becomes the top-three list of the history |
| AppTs.GameState.ResetStats | src/app.ts:328-334 | speed 2, lives 2, score 0, level 1, box count 3 |
| AppTs.GameState.GamePlay | src/app.ts:154-174 | nothing happens while no round runs; every frame keeps the invariant and the level pace, only appends scores, and a frame that ends no round adds exactly one point; the player ends at its guarded move (car-width margin) or recentred by a box or the road's edge |
| AppTs.GameState.MovePlayer | src/app.ts:157-161 | the position makes the guarded moves of the pressed arrows, with the car's 40 pixels as the right margin |
| AppTs.GameState.ScoreFrame | src/app.ts:168-169 | one point, then increaseDifficulty, keeping the level at the one the score has earned |
| AppTs.GameState.MoveAndCheck | src/app.ts:170-171 | moveObstacles and the boundary check together keep the invariant and the pace, and change nothing of the score unless a round ended; the player is where it was or recentred |
| AppTs.GameState.KeyUp | src/app.ts:336-349 | an arrow key's flag goes down and the others are kept; other keys change nothing |
| AppTs.GameState.KeyDown | src/app.ts:351-364 | an arrow key's flag goes up and the others are kept; other keys change nothing |
| AppJs.GameState.constructor | src/app.js:33-62 | init: the car's offsets as the position, the round values of a new round, all arrows released, no boxes and an empty board |
| AppJs.GameState.NextRandom | src/app.js:86 | one Math.random call returns the next value of the sequence, in [0, 1) |
| AppJs.GameState.CreateBox | src/app.js:81-88 | a fresh element with y = -(k + 1) * 350 and left floor(random * width) becomes the last box |
| AppJs.GameState.RemoveBoxes | src/app.js:141-144 | every box leaves the road |
| AppJs.GameState.CreateNextBox | src/app.js:146-148 | one turn of the createBox loop extends the boxes made so far by the next one |
| AppJs.GameState.CreateBoxes | src/app.js:146-148 | n boxes with consecutive fresh ids are appended in order, and the older store entries are kept |
| AppJs.GameState.ReplaceBoxes | src/app.js:75-78 | the boxes are replaced by n fresh ones in order |
| AppJs.GameState.ResetBoxStateAfterCollision | src/app.js:139-150 | the box count is kept and every box is back at its starting height; the player is not moved |
| AppJs.GameState.StartNewGame | src/app.js:64-79 | the game is flagged as running with three fresh boxes |
| AppJs.GameState.UpdatePlayerScore | src/app.js:111-116 | the score grows by 1 and the score shown is the old one |
| AppJs.GameState.IncreaseDifficulty | src/app.js:160-174 | the same level rule as app.ts: one level and 0.5 speed at the threshold, an extra box at new levels 2 and 4, otherwise nothing |
| AppJs.GameState.OnGameOver | src/app.js:176-194 | the score is appended, the game stops, the arrows are released, the board node holds the last top-three line and the round values are reset; the player stays where it is |
| AppJs.GameState.StopRound | src/app.js:178-188 | the score is pushed, the flag is cleared and the four arrow entries are set to false |
| AppJs.GameState.UpdateLeaderBoard | src/app.js:196-213 | the board node holds the last line of the top-three list |
| AppJs.GameState.ResetStats | src/app.js:215-222 | speed 2, lives 2, score 0, level 1, box count 3 |
| AppJs.GameState.LoseLife | src/app.js:124-125 | one life less, then the respawn of as many boxes; the rest of the session is kept |
| AppJs.GameState.DropLife | src/app.js:124 | livesLeft goes down by one and nothing else of the session changes |
| AppJs.GameState.FallBox | src/app.js:128-135 | the box's store entry takes the app.js step, using two random values (r1 first) only when y >= 1000, and the session is kept |
| AppJs.GameState.MoveBox | src/app.js:119-136 | without contact only this box's entry changes, by one app.js step; on contact with exactly 0 lives the round ends, the player stays, and the box then falls at the reset speed; on contact with a life left one life goes, the boxes are respawned, and the old element still takes its step with the random values after the respawn's |
| AppJs.GameState.EndRoundAndFall | src/app.js:121-135 | onGameOver, then the box's app.js step at the reset speed |
| AppJs.GameState.LoseLifeAndFall | src/app.js:123-135 | one life less, the respawn, and then the old element's step; the rest of the session is kept |
| AppJs.GameState.MoveBoxAt | src/app.js:119-136 | one turn of the forEach keeps the running summary of the turns before |
| AppJs.GameState.MoveObstacles | src/app.js:118-137 | a pass with no contact moves every listed box one step and changes nothing else; any pass keeps the box count, the invariant and the level pace |
| AppJs.GameState.GamePlay | src/app.js:90-109 | nothing happens while no round runs; every frame keeps the invariant and the pace, only appends scores, and a frame that ends no round adds exactly one point; the player ends exactly at its guarded move (margin 90), since nothing later in the frame moves it |
| AppJs.GameState.MovePlayer | src/app.js:94-97 | the guarded moves of the pressed arrows, with 90 pixels as the right margin |
| AppJs.GameState.ScoreFrame | src/app.js:104-105 | one point, then increaseDifficulty, keeping the level at the one the score has earned |
| AppJs.GameState.KeyUp | src/app.js:224-240 | for key codes 37 to 40 the entry under the event's key name goes false; other codes change nothing |
| AppJs.GameState.KeyDown | src/app.js:242-257 | for key codes 37 to 40 the entry under the event's key name goes true; other codes change nothing |

## Left out

- DOM and styling are not modelled: element creation, `style` strings, `innerHTML` text, the CSS import and showing or hiding the start screen. Only the numbers they carry are (tops, lefts, margins, board lines).
- Listener registration and removal, and `requestAnimationFrame`, are callback plumbing. One frame is one `GamePlay` call, and a key event is one `KeyUp`/`KeyDown` call.
- `getBoundingClientRect`, `clientWidth`, `clientHeight`, `clientTop`, `offsetLeft` and `offsetTop` come from browser layout. They are constructor parameters and frame parameters (`carRect`, `boxRect(k)` for the k-th listed box).
- `Math.random` is a foreign call. It is the parameter sequence `random` with values in [0, 1).
- `Player` (src/Player.ts, src/Player.js) only copies its arguments, so its five fields are fields of each `GameState`.
- `segment.style.marginRight` and `height` are not modelled: nothing reads them back. Only `marginLeft` is kept (`segmentOffsets`), because the boundary check reads it.
- In app.ts, the undefined `roadSegments[segmentIndex]` (for a player with y < 5, where the index is negative) is not modelled as a crash. The class invariant keeps the player in [5, roadHeight], which the movement guards preserve, and the constructor requires `roadHeight >= 185` and the car to start in that band.
- In app.ts, the `box.style.top.length > 0` fallback to -1000 is not modelled: every box is created with a top, so that branch never runs.
- In app.ts, the key map is the record `Arrows`, because the handlers write only the four arrow names. In app.js it stays a string map, because there any key name whose code is 37 to 40 is written.
- The `typeof e === "undefined"` checks of the key handlers are not modelled: a browser always passes an event.
- In app.js, the y property that `moveObstacles` updates is the box's top. The `style.top` string is not modelled.
- Positions, tops and speeds are unbounded reals, not IEEE doubles. Every value the game produces is a multiple of 0.5 well within exact range.
- `CreateNextBox`, `MoveBoxAt`, `GenerateSegment`, `AddSegment`, `ShiftSegment`, `StopRound`, `LoseLife`, `DropLife`, `RecentrePlayer`, `LeaveRoad`, `CountOffRoadLife`, `FallBox`, `EndRoundAndFall`, `LoseLifeAndFall`, `MovePlayer`, `ScoreFrame` and `MoveAndCheck` are consecutive parts of one source function, not source functions of their own.
- AppTs.GameState.MoveBoxes: after a collision it promises only the invariant, the level pace, the box count and the score history. What a collision does is stated per box by HandleBoxLogic.
- AppJs.GameState.MoveObstacles: after a collision it promises only the invariant, the level pace, the box count and the score history. What a collision does is stated per box by MoveBox.
- AppTs.GameState.GamePlay: for a frame that ends a round it states only that scores were appended, the flag is cleared and the invariant holds. The full state after game over is stated by OnGameOver.
- AppTs.GameState.ScrollRoad: states the new child list as `Scroll` of the old one and the kept box count. The detailed layout facts (index 1, box order, permutation) are the Road scroll lemmas.
- AppTs.GameState.MoveObstacles: after a collision it promises only the invariant, the level pace, the box count and the score history. Without one, the scroll's drift step is stated for some random value in [0, 1), not by its position in the sequence, because that position depends on how many boxes were recycled before it.
- AppTs.GameState.MoveAndCheck: states the invariant, the level pace, the score history and, for a frame that ends no round, the score, level and box count, and that the player is where it was or recentred. What happens to the boxes and the lives is stated by MoveObstacles and CheckIfPlayerIsWithinRoadBoundaries.
- AppJs.GameState.GamePlay: for a frame that ends a round it states only that scores were appended, the flag is cleared and the invariant holds. The full state after game over is stated by OnGameOver.
- AppTs.GameState.constructor: assumes `.road` is empty before init, so that afterwards it holds just the car (src/app.ts:44-45) and then the generated segments. The page markup that provides that element is not part of this model.
- Both constructors require `roadWidth > 0`, which the source does not check. With a width of 0 every box would get left 0, and the box invariant (left < width) could not hold.
