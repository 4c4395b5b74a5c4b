/**
 * Keyboard flags and player movement, shared by both versions. The key map is
 * the `keys` dictionary of the App class; a frame moves the player by a fixed
 * step per pressed arrow, each step guarded by a bound of the road.
 */
module Controls {

  /** playerMovementSpeed: pixels per frame per pressed arrow. */
  const PlayerMovementSpeed: int := 2

  const ArrowUp: string := "ArrowUp"
  const ArrowDown: string := "ArrowDown"
  const ArrowLeft: string := "ArrowLeft"
  const ArrowRight: string := "ArrowRight"

  /** The names of the four flags the key map starts with. */
  function ArrowKeys(): set<string>
  {
    {ArrowUp, ArrowDown, ArrowLeft, ArrowRight}
  }

  /** The key-name test of the TypeScript handlers. */
  predicate IsArrowKey(key: string)
  {
    key == ArrowUp || key == ArrowLeft || key == ArrowDown || key == ArrowRight
  }

  /** The key-code test of the JavaScript handlers: codes 37 to 40. */
  predicate IsArrowKeyCode(keyCode: int)
  {
    keyCode == 37 || keyCode == 38 || keyCode == 39 || keyCode == 40
  }

  /**
   * The four arrow flags. In app.ts the key map only ever holds these four
   * entries (keyUp and keyDown write only after the key-name test), so it is
   * this record there; app.js writes any key name and keeps the map.
   */
  datatype Arrows = Arrows(up: bool, down: bool, left: bool, right: bool)

  /** Every arrow released: the key map of a new App, and after game over. */
  const Released: Arrows := Arrows(false, false, false, false)

  /** The flag of an arrow key; any other name reads as undefined, i.e. falsy. */
  predicate ArrowPressed(a: Arrows, key: string)
  {
    if key == ArrowUp then a.up
    else if key == ArrowDown then a.down
    else if key == ArrowLeft then a.left
    else if key == ArrowRight then a.right
    else false
  }

  /** keys[key] = value for an arrow key: that flag changes, the three others keep theirs. */
  function SetArrow(a: Arrows, key: string, value: bool): (r: Arrows)
    requires IsArrowKey(key)
    ensures ArrowPressed(r, key) == value
    ensures forall k :: k != key ==> ArrowPressed(r, k) == ArrowPressed(a, k)
  {
    if key == ArrowUp then a.(up := value)
    else if key == ArrowDown then a.(down := value)
    else if key == ArrowLeft then a.(left := value)
    else a.(right := value)
  }

  /** The key map of a new App in app.js: every arrow released. */
  function InitialKeys(): (keys: map<string, bool>)
    ensures keys.Keys == ArrowKeys()
    ensures forall k :: k in keys ==> !keys[k]
  {
    map[ArrowUp := false, ArrowDown := false, ArrowLeft := false, ArrowRight := false]
  }

  /** A flag of the map reads as pressed when it is present and true (a missing one is undefined). */
  predicate Pressed(keys: map<string, bool>, key: string)
  {
    key in keys && keys[key]
  }

  /** The four flags gamePlay reads from the map. */
  function ArrowsOf(keys: map<string, bool>): (a: Arrows)
    ensures forall k :: IsArrowKey(k) ==> (ArrowPressed(a, k) <==> Pressed(keys, k))
  {
    Arrows(Pressed(keys, ArrowUp), Pressed(keys, ArrowDown), Pressed(keys, ArrowLeft),
           Pressed(keys, ArrowRight))
  }

  /** The key map after game over has cleared the four arrow flags; other names keep theirs. */
  function ReleaseArrows(keys: map<string, bool>): (r: map<string, bool>)
    ensures r.Keys == keys.Keys + ArrowKeys()
    ensures ArrowsOf(r) == Released
    ensures forall k :: !IsArrowKey(k) ==> (k in r <==> k in keys) && (k in keys ==> r[k] == keys[k])
  {
    keys[ArrowLeft := false][ArrowRight := false][ArrowUp := false][ArrowDown := false]
  }

  /** On a map that holds just the four arrows, releasing them gives back the starting map. */
  lemma ReleaseArrowsRestoresStart(keys: map<string, bool>)
    requires keys.Keys == ArrowKeys()
    ensures ReleaseArrows(keys) == InitialKeys()
  {
    var r := ReleaseArrows(keys);
    assert r.Keys == InitialKeys().Keys;
    forall k | k in r
      ensures r[k] == InitialKeys()[k]
    {
      assert IsArrowKey(k);
    }
  }

  /** A player position in road pixels. */
  datatype Position = Position(x: real, y: real)

  /**
   * One frame of movement. The four tests run in the source's order, so the
   * down test sees the position after the up step, and the right test the
   * position after the left step. `rightMargin` is 40 in app.ts and 90 in app.js.
   */
  function Moved(p: Position, a: Arrows, clientTop: int, width: int, height: int,
                 rightMargin: int): (q: Position)
    ensures a == Released ==> q == p
    ensures -2.0 <= q.x - p.x <= 2.0 && -2.0 <= q.y - p.y <= 2.0
    ensures q.y < p.y ==> a.up && p.y > (clientTop + 150) as real
    ensures q.y > p.y ==> a.down && p.y < (height - 150) as real
    ensures q.x < p.x ==> a.left && p.x > 0.0
    ensures q.x > p.x ==> a.right && p.x < (width - rightMargin) as real
    // and each guarded move does happen: up alone, down alone, or both cancelling
    ensures (a.up && p.y > (clientTop + 150) as real && !(a.down && p.y - 2.0 < (height - 150) as real)) ==>
              q.y == p.y - 2.0
    ensures (a.down && p.y < (height - 150) as real && !(a.up && p.y > (clientTop + 150) as real)) ==>
              q.y == p.y + 2.0
    ensures (a.up && p.y > (clientTop + 150) as real && a.down && p.y - 2.0 < (height - 150) as real) ==>
              q.y == p.y
    ensures (a.left && p.x > 0.0 && !(a.right && p.x - 2.0 < (width - rightMargin) as real)) ==>
              q.x == p.x - 2.0
    ensures (a.right && p.x < (width - rightMargin) as real && !(a.left && p.x > 0.0)) ==>
              q.x == p.x + 2.0
    ensures (a.left && p.x > 0.0 && a.right && p.x - 2.0 < (width - rightMargin) as real) ==>
              q.x == p.x
  {
    var step := PlayerMovementSpeed as real;
    var y1 := if a.up && p.y > (clientTop + 150) as real then p.y - step else p.y;
    var y2 := if a.down && y1 < (height - 150) as real then y1 + step else y1;
    var x1 := if a.left && p.x > 0.0 then p.x - step else p.x;
    var x2 := if a.right && x1 < (width - rightMargin) as real then x1 + step else x1;
    Position(x2, y2)
  }

  /**
   * The guards keep a player that starts inside the vertical band [5, height]
   * inside it, as long as the road's top border is not negative.
   */
  lemma MovedKeepsVerticalBand(p: Position, a: Arrows, clientTop: int, width: int,
                               height: int, rightMargin: int)
    requires clientTop >= 0 && 5.0 <= p.y <= height as real
    ensures var q := Moved(p, a, clientTop, width, height, rightMargin);
      5.0 <= q.y <= height as real
  {
  }

  /**
   * Horizontally the guards keep the player inside (-2, width - rightMargin + 2):
   * the left step needs x > 0, the right step x < width - rightMargin.
   */
  lemma MovedKeepsHorizontalBand(p: Position, a: Arrows, clientTop: int, width: int,
                                 height: int, rightMargin: int)
    requires -2.0 < p.x < (width - rightMargin + 2) as real
    ensures var q := Moved(p, a, clientTop, width, height, rightMargin);
      -2.0 < q.x < (width - rightMargin + 2) as real
  {
  }

  /** Holding opposite arrows away from every guard leaves the player where it is. */
  lemma OppositeArrowsCancel(p: Position, a: Arrows, clientTop: int, width: int,
                             height: int, rightMargin: int)
    requires a.up && a.down
    requires a.left && a.right
    requires (clientTop + 150) as real < p.y < (height - 152) as real
    requires 2.0 < p.x < (width - rightMargin) as real
    ensures Moved(p, a, clientTop, width, height, rightMargin) == p
  {
  }
}
