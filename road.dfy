/**
 * The road of app.ts: the drifting left offset of the road segments, the table
 * that picks the segment width, and the order of the road element's children,
 * which moveObstacles rotates every frame.
 */
module Road {

  /** The three fields handleCurrentSegmentOffset updates. */
  datatype Drift = Drift(offset: int, steps: int, goesRight: bool)

  /** currentLeftOffset = 30, directionChosenSteps = 3, roadGoesRight = true */
  const InitialDrift: Drift := Drift(30, 3, true)

  /** The run has ended and neither bound forces the direction: Math.random is consulted. */
  predicate NeedsCoin(d: Drift, roadWidth: int)
  {
    d.steps == 0 && !(d.offset as real > roadWidth as real / 5.0) && !(d.offset <= 0)
  }

  /**
   * handleCurrentSegmentOffset, with r the value Math.random returns when it is
   * called. While the run lasts the offset moves 2 pixels in the chosen direction;
   * when it ends the direction is chosen (left past a fifth of the road width,
   * right at or below 0, otherwise by the coin r > 0.5) and a new run of 3 starts.
   */
  function DriftStep(d: Drift, roadWidth: int, r: real): (e: Drift)
    ensures d.steps != 0 ==> e.steps == d.steps - 1 && e.goesRight == d.goesRight
                             && e.offset == d.offset + (if d.goesRight then 2 else -2)
    ensures d.steps == 0 ==> e.steps == 3 && e.offset == d.offset
    ensures d.steps == 0 && d.offset as real > roadWidth as real / 5.0 ==> !e.goesRight
    ensures d.steps == 0 && !(d.offset as real > roadWidth as real / 5.0) && d.offset <= 0 ==> e.goesRight
    ensures NeedsCoin(d, roadWidth) ==> e.goesRight == (r > 0.5)
  {
    if d.steps != 0 then
      Drift(if d.goesRight then d.offset + 2 else d.offset - 2, d.steps - 1, d.goesRight)
    else if d.offset as real > roadWidth as real / 5.0 then
      Drift(d.offset, 3, false)
    else if d.offset <= 0 then
      Drift(d.offset, 3, true)
    else
      Drift(d.offset, 3, r > 0.5)
  }

  /** The largest offset the drift reaches: the start run ends at 36, later runs at width/5 + 6. */
  function WobbleMax(roadWidth: int): int
  {
    if roadWidth / 5 + 6 > 36 then roadWidth / 5 + 6 else 36
  }

  /**
   * The drift's invariant: the step counter is in [0, 3], the offset is even and
   * in [-4, WobbleMax], and the current run cannot leave that range either.
   */
  predicate DriftOk(d: Drift, roadWidth: int)
  {
    && 0 <= d.steps <= 3
    && d.offset % 2 == 0
    && -4 <= d.offset <= WobbleMax(roadWidth)
    && (!d.goesRight ==> d.offset - 2 * d.steps >= -4)
    && (d.goesRight ==> d.offset + 2 * d.steps <= WobbleMax(roadWidth))
  }

  lemma InitialDriftOk(roadWidth: int)
    ensures DriftOk(InitialDrift, roadWidth)
  {
  }

  /** An offset at or below a fifth of the width is at or below its integer fifth. */
  lemma AtMostFifth(offset: int, roadWidth: int)
    requires roadWidth >= 0 && !(offset as real > roadWidth as real / 5.0)
    ensures offset <= roadWidth / 5
  {
    assert 5 * offset <= roadWidth by {
      assert offset as real <= roadWidth as real / 5.0;
    }
  }

  /**
   * Every step keeps the invariant, whatever the coin: the road wobbles forever
   * between -4 and WobbleMax and never runs off to one side.
   */
  lemma DriftStepKeepsOk(d: Drift, roadWidth: int, r: real)
    requires roadWidth >= 0 && DriftOk(d, roadWidth)
    ensures DriftOk(DriftStep(d, roadWidth, r), roadWidth)
  {
    if d.steps == 0 && !(d.offset as real > roadWidth as real / 5.0) {
      AtMostFifth(d.offset, roadWidth);
    }
  }

  /**
   * The drift after n handleCurrentSegmentOffset calls from d, paired with the
   * index of the next Math.random value; `draw` is that index before the calls.
   */
  ghost function DriftAfter(d: Drift, roadWidth: int, random: nat -> real, draw: nat, n: nat): (Drift, nat)
  {
    if n == 0 then (d, draw)
    else
      var (e, k) := DriftAfter(d, roadWidth, random, draw, n - 1);
      (DriftStep(e, roadWidth, random(k)), k + (if NeedsCoin(e, roadWidth) then 1 else 0))
  }

  /** The offsets those n calls leave behind, one per call: generateRoad's marginLeft values. */
  ghost function DriftOffsets(d: Drift, roadWidth: int, random: nat -> real, draw: nat, n: nat): (offsets: seq<int>)
    ensures |offsets| == n
    ensures n > 0 ==> offsets[n - 1] == DriftAfter(d, roadWidth, random, draw, n).0.offset
  {
    if n == 0 then [] else DriftOffsets(d, roadWidth, random, draw, n - 1) + [DriftAfter(d, roadWidth, random, draw, n).0.offset]
  }

  /** Any number of drift steps keeps the drift invariant. */
  lemma {:induction false} DriftAfterOk(d: Drift, roadWidth: int, random: nat -> real, draw: nat, n: nat)
    requires roadWidth >= 0 && DriftOk(d, roadWidth)
    ensures DriftOk(DriftAfter(d, roadWidth, random, draw, n).0, roadWidth)
  {
    if n > 0 {
      DriftAfterOk(d, roadWidth, random, draw, n - 1);
      var (e, k) := DriftAfter(d, roadWidth, random, draw, n - 1);
      DriftStepKeepsOk(e, roadWidth, random(k));
    }
  }

  /** The k-th generated offset is the offset after k + 1 drift steps. */
  lemma {:induction false} DriftOffsetsAt(d: Drift, roadWidth: int, random: nat -> real, draw: nat, n: nat, k: nat)
    requires k < n
    ensures DriftOffsets(d, roadWidth, random, draw, n)[k] == DriftAfter(d, roadWidth, random, draw, k + 1).0.offset
  {
    if k < n - 1 {
      DriftOffsetsAt(d, roadWidth, random, draw, n - 1, k);
    }
  }

  /**
   * The generated offsets stay within the drift bounds, the first is within one
   * step of the starting offset, and neighbouring segments differ by at most 2.
   */
  lemma DriftOffsetsOk(d: Drift, roadWidth: int, random: nat -> real, draw: nat, n: nat)
    requires roadWidth >= 0 && DriftOk(d, roadWidth)
    ensures var o := DriftOffsets(d, roadWidth, random, draw, n);
      && (forall k :: 0 <= k < n ==> -4 <= o[k] <= WobbleMax(roadWidth))
      && (n > 0 ==> -2 <= o[0] - d.offset <= 2)
      && (forall k :: 0 < k < n ==> -2 <= o[k] - o[k - 1] <= 2)
  {
    var o := DriftOffsets(d, roadWidth, random, draw, n);
    forall k | 0 <= k < n
      ensures -4 <= o[k] <= WobbleMax(roadWidth)
    {
      DriftOffsetsAt(d, roadWidth, random, draw, n, k);
      DriftAfterOk(d, roadWidth, random, draw, k + 1);
    }
    if n > 0 {
      DriftOffsetsAt(d, roadWidth, random, draw, n, 0);
      assert DriftAfter(d, roadWidth, random, draw, 0) == (d, draw);
    }
    forall k | 0 < k < n
      ensures -2 <= o[k] - o[k - 1] <= 2
    {
      DriftOffsetsAt(d, roadWidth, random, draw, n, k);
      DriftOffsetsAt(d, roadWidth, random, draw, n, k - 1);
    }
  }

  /** setRoadSegmentWidth: the width of every segment for a road of width areaWidth. */
  function SegmentWidthFor(areaWidth: int): (w: int)
    ensures w in {300, 400, 550}
    ensures w == 300 <==> areaWidth <= 380
    ensures w == 550 <==> areaWidth > 600
  {
    if areaWidth <= 380 then 300
    else if areaWidth <= 600 then 400
    else 550
  }

  /** A wider road never gets narrower segments. */
  lemma SegmentWidthMonotone(a: int, b: int)
    requires a <= b
    ensures SegmentWidthFor(a) <= SegmentWidthFor(b)
  {
  }

  /** segmentHeight: every road segment is 5 pixels high. */
  const SegmentHeight: int := 5

  /** The car width the boundary test of app.ts allows for. */
  const CarWidth: int := 40

  /**
   * The index checkIfPlayerIsWithinRoadBoundaries reads: the segment just above
   * the player, floor(y / segmentHeight) - 1. For a player in [5, roadHeight] it
   * names one of the roadHeight / 5 segments generateRoad made.
   */
  function SegmentIndex(y: real, roadHeight: int): (idx: int)
    requires 5.0 <= y <= roadHeight as real
    ensures 0 <= idx < roadHeight / SegmentHeight
  {
    var f := (y / SegmentHeight as real).Floor;
    assert 1 <= f;
    assert 5 * f <= roadHeight by {
      assert f as real <= y / 5.0;
    }
    f - 1
  }

  /** The player at x is off the road segment whose left margin is leftBoundary (edges count). */
  predicate OffRoad(x: real, leftBoundary: int, segmentWidth: int)
  {
    x <= leftBoundary as real || x >= (leftBoundary + segmentWidth - CarWidth) as real
  }

  /** On the road means the whole car lies strictly inside the segment. */
  lemma OnRoadMeansCarInside(x: real, leftBoundary: int, segmentWidth: int)
    ensures !OffRoad(x, leftBoundary, segmentWidth) <==>
              leftBoundary as real < x && x + CarWidth as real < (leftBoundary + segmentWidth) as real
  {
  }

  /** A child element of the road: the car, the segment roadSegments[index], or a box element. */
  datatype Child = CarNode | SegmentNode(index: nat) | BoxNode(id: nat)

  /** Elements of a DOM child list are distinct nodes. */
  ghost predicate Distinct<T>(s: seq<T>)
  {
    forall i, j :: 0 <= i < j < |s| ==> s[i] != s[j]
  }

  /**
   * Distinct, stated one head at a time: the first element is not repeated, nor
   * is any later one. The child-list operations peel the list from the front, so
   * the road invariant uses this form; the box loops index the list, so they use
   * the pairwise form. UniqueIsDistinct shows the two agree.
   */
  ghost predicate Unique<T>(s: seq<T>)
  {
    |s| == 0 || (s[0] !in s[1..] && Unique(s[1..]))
  }

  lemma {:induction false} UniqueIsDistinct<T>(s: seq<T>)
    ensures Unique(s) <==> Distinct(s)
  {
    if |s| > 0 {
      UniqueIsDistinct(s[1..]);
      if Distinct(s) {
        forall j | 0 <= j < |s| - 1
          ensures s[1..][j] != s[0]
        {
          assert s[1..][j] == s[j + 1];
        }
      }
      if s[0] !in s[1..] && Distinct(s[1..]) {
        DistinctCons(s[0], s[1..]);
        assert [s[0]] + s[1..] == s;
      }
    }
  }

  lemma DistinctCons<T>(x: T, s: seq<T>)
    requires x !in s && Distinct(s)
    ensures Distinct([x] + s)
  {
    forall i, j | 0 <= i < j < |[x] + s|
      ensures ([x] + s)[i] != ([x] + s)[j]
    {
      if i == 0 {
        assert ([x] + s)[j] == s[j - 1];
      }
    }
  }

  /**
   * parent.replaceChild(node, child) where node is c[i] and child is c[j]:
   * node leaves its place and takes child's, and child leaves the list.
   */
  function ReplaceChild<T>(c: seq<T>, i: nat, j: nat): (r: seq<T>)
    requires i < |c| && j < |c| && i != j
    ensures |r| == |c| - 1
  {
    var rest := c[..i] + c[i + 1..];
    var k := if j < i then j else j - 1;
    rest[..k] + [c[i]] + rest[k + 1..]
  }

  /** parent.insertBefore(x, ref) for an x that is not a child, ref being the child at index k. */
  function InsertBefore<T>(c: seq<T>, x: T, k: nat): (r: seq<T>)
    requires k <= |c|
    ensures |r| == |c| + 1 && r[k] == x
  {
    c[..k] + [x] + c[k..]
  }

  /**
   * The road scroll of moveObstacles: replaceChild(last, first), then
   * insertBefore(first, last), where last now stands at index 0. With a single
   * child both calls leave the list as it is.
   */
  function Scroll<T>(c: seq<T>): seq<T>
  {
    if |c| < 2 then c
    else InsertBefore(ReplaceChild(c, |c| - 1, 0), c[0], 0)
  }

  /** The scroll keeps the first child first and moves the last child to index 1. */
  lemma ScrollMovesLastToSecond<T>(c: seq<T>)
    requires |c| >= 2
    ensures Scroll(c) == [c[0], c[|c| - 1]] + c[1..|c| - 1]
  {
    var n := |c|;
    var rest := c[..n - 1] + c[n..];
    assert rest == c[..n - 1] by {
      assert c[n..] == [];
    }
    var r := ReplaceChild(c, n - 1, 0);
    assert r == rest[..0] + [c[n - 1]] + rest[1..];
    assert r == [c[n - 1]] + c[1..n - 1] by {
      assert rest[..0] == [];
      assert rest[1..] == c[1..n - 1];
    }
    assert Scroll(c) == r[..0] + [c[0]] + r[0..];
    assert r[..0] == [] && r[0..] == r;
    assert [c[0]] + ([c[n - 1]] + c[1..n - 1]) == [c[0], c[n - 1]] + c[1..n - 1];
  }

  /** Where each child of the scrolled list comes from. */
  function ScrollSource(n: nat, i: nat): nat
  {
    if n < 2 || i == 0 then i else if i == 1 then n - 1 else i - 1
  }

  /**
   * The list with the last child moved to index 1 reorders the children: the
   * same nodes, each once, the first one unmoved.
   */
  lemma LastToSecondPermutes<T>(c: seq<T>, s: seq<T>)
    requires |c| >= 2 && s == [c[0], c[|c| - 1]] + c[1..|c| - 1]
    ensures |s| == |c| && s[0] == c[0]
    ensures forall i :: 0 <= i < |c| ==> ScrollSource(|c|, i) < |c| && s[i] == c[ScrollSource(|c|, i)]
    ensures multiset(s) == multiset(c)
    ensures Distinct(c) ==> Distinct(s)
  {
    var n := |c|;
    forall i | 0 <= i < n
      ensures ScrollSource(n, i) < n && s[i] == c[ScrollSource(n, i)]
    {
      if i >= 2 {
        assert s[i] == c[1..n - 1][i - 2];
      }
    }
    calc {
      multiset(s);
      multiset([c[0]]) + multiset([c[n - 1]]) + multiset(c[1..n - 1]);
      { assert c == [c[0]] + c[1..n - 1] + [c[n - 1]]; }
      multiset(c);
    }
  }

  lemma ScrollAt<T>(c: seq<T>, i: nat)
    requires i < |c|
    ensures |Scroll(c)| == |c| && ScrollSource(|c|, i) < |c| && Scroll(c)[i] == c[ScrollSource(|c|, i)]
  {
    if |c| >= 2 {
      ScrollMovesLastToSecond(c);
      LastToSecondPermutes(c, Scroll(c));
    }
  }

  /** The scroll only reorders: the same nodes, each once, the first one unmoved. */
  lemma ScrollPermutes<T>(c: seq<T>)
    ensures |Scroll(c)| == |c|
    ensures multiset(Scroll(c)) == multiset(c)
    ensures |c| > 0 ==> Scroll(c)[0] == c[0]
    ensures Distinct(c) ==> Distinct(Scroll(c))
    ensures forall x :: x in Scroll(c) <==> x in c
  {
    if |c| >= 2 {
      ScrollMovesLastToSecond(c);
      LastToSecondPermutes(c, Scroll(c));
    }
  }

  /** The ids of the box elements, in document order: what querySelectorAll(".box") returns. */
  function BoxIds(c: seq<Child>): (ids: seq<nat>)
    ensures |ids| <= |c|
  {
    if c == [] then [] else (if c[0].BoxNode? then [c[0].id] else []) + BoxIds(c[1..])
  }

  lemma {:induction false} BoxIdsAppend(a: seq<Child>, b: seq<Child>)
    ensures BoxIds(a + b) == BoxIds(a) + BoxIds(b)
  {
    if a == [] {
      assert a + b == b;
    } else {
      var ab := a + b;
      assert ab[0] == a[0];
      assert ab[1..] == a[1..] + b;
      BoxIdsAppend(a[1..], b);
      var head := if a[0].BoxNode? then [a[0].id] else [];
      calc {
        BoxIds(ab);
        head + BoxIds(ab[1..]);
        head + (BoxIds(a[1..]) + BoxIds(b));
        (head + BoxIds(a[1..])) + BoxIds(b);
        BoxIds(a) + BoxIds(b);
      }
    }
  }

  lemma {:induction false} BoxIdsMembership(c: seq<Child>, id: nat)
    ensures id in BoxIds(c) <==> BoxNode(id) in c
  {
    if c != [] {
      BoxIdsMembership(c[1..], id);
      assert c == [c[0]] + c[1..];
    }
  }

  /** Distinct box elements have distinct ids. */
  lemma {:induction false} BoxIdsDistinct(c: seq<Child>)
    requires Distinct(c)
    ensures Distinct(BoxIds(c))
  {
    if c != [] {
      assert Distinct(c[1..]);
      BoxIdsDistinct(c[1..]);
      if c[0].BoxNode? {
        BoxIdsMembership(c[1..], c[0].id);
        assert c[0] !in c[1..];
        DistinctCons(c[0].id, BoxIds(c[1..]));
      }
    }
  }

  lemma DistinctSnoc<T>(s: seq<T>, x: T)
    requires Distinct(s) && x !in s
    ensures Distinct(s + [x])
  {
  }

  /** Appending a new element keeps a list free of repeats. */
  lemma UniqueSnoc<T>(s: seq<T>, x: T)
    requires Unique(s) && x !in s
    ensures Unique(s + [x])
  {
    UniqueIsDistinct(s);
    DistinctSnoc(s, x);
    UniqueIsDistinct(s + [x]);
  }

  /** The box ids of a list whose box elements are all in a store are all in that store. */
  lemma BoxIdsStored<V>(c: seq<Child>, store: map<nat, V>)
    requires forall x :: x in c && x.BoxNode? ==> x.id in store
    ensures forall id :: id in BoxIds(c) ==> id in store
  {
    forall id | id in BoxIds(c)
      ensures id in store
    {
      BoxIdsMembership(c, id);
    }
  }

  /** The elements createBox appends, one per call, with consecutive ids from `start`. */
  function NewBoxNodes(start: nat, n: nat): (r: seq<Child>)
    ensures |r| == n
  {
    seq(n, k requires 0 <= k < n => BoxNode(start + k))
  }

  /** The ids those elements get: start, start + 1, ..., start + n - 1. */
  function IdRange(start: nat, n: nat): (r: seq<nat>)
    ensures |r| == n
  {
    seq(n, k requires 0 <= k < n => start + k)
  }

  /** The box elements createBox appends carry exactly those ids. */
  lemma {:induction false} NewBoxNodesIds(start: nat, n: nat)
    ensures BoxIds(NewBoxNodes(start, n)) == IdRange(start, n)
  {
    if n > 0 {
      NewBoxNodesIds(start, n - 1);
      assert NewBoxNodes(start, n) == NewBoxNodes(start, n - 1) + [BoxNode(start + n - 1)];
      assert IdRange(start, n) == IdRange(start, n - 1) + [start + n - 1];
      BoxIdsAppend(NewBoxNodes(start, n - 1), [BoxNode(start + n - 1)]);
      BoxIdsSingle(BoxNode(start + n - 1));
    } else {
      assert NewBoxNodes(start, n) == [];
    }
  }

  /** The children left after every box element has been removed. */
  function WithoutBoxes(c: seq<Child>): (r: seq<Child>)
    ensures forall x :: x in r <==> x in c && !x.BoxNode?
    ensures |c| > 0 && !c[0].BoxNode? ==> |r| > 0 && r[0] == c[0]
  {
    if c == [] then []
    else (if c[0].BoxNode? then [] else [c[0]]) + WithoutBoxes(c[1..])
  }

  /**
   * Removing the boxes works child by child: on a split list it is the removal
   * on each part, so the children that remain keep their relative order.
   */
  lemma {:induction false} WithoutBoxesAppend(a: seq<Child>, b: seq<Child>)
    ensures WithoutBoxes(a + b) == WithoutBoxes(a) + WithoutBoxes(b)
  {
    if a == [] {
      assert a + b == b;
    } else {
      assert (a + b)[1..] == a[1..] + b;
      WithoutBoxesAppend(a[1..], b);
    }
  }

  lemma {:induction false} WithoutBoxesProps(c: seq<Child>)
    ensures BoxIds(WithoutBoxes(c)) == []
    ensures Distinct(c) ==> Distinct(WithoutBoxes(c))
  {
    if c != [] {
      WithoutBoxesProps(c[1..]);
      var head := if c[0].BoxNode? then [] else [c[0]];
      BoxIdsAppend(head, WithoutBoxes(c[1..]));
      if Distinct(c) {
        assert Distinct(c[1..]);
        if !c[0].BoxNode? {
          assert c[0] !in c[1..];
          DistinctCons(c[0], WithoutBoxes(c[1..]));
        }
      }
    }
  }

  lemma BoxIdsSingle(x: Child)
    ensures BoxIds([x]) == if x.BoxNode? then [x.id] else []
  {
    assert [x][1..] == [];
  }

  /** Box ids of a list put together from a first child, a middle part and a last child. */
  lemma BoxIdsThree(first: Child, middle: seq<Child>, last: Child)
    ensures BoxIds([first] + ([last] + middle)) == BoxIds([first]) + (BoxIds([last]) + BoxIds(middle))
    ensures BoxIds([first] + (middle + [last])) == BoxIds([first]) + (BoxIds(middle) + BoxIds([last]))
  {
    BoxIdsAppend([first], [last] + middle);
    BoxIdsAppend([last], middle);
    BoxIdsAppend([first], middle + [last]);
    BoxIdsAppend(middle, [last]);
  }

  /** Box ids of two lists built from the same three parts. */
  lemma BoxIdsRearranged(c: seq<Child>, s: seq<Child>, first: Child, middle: seq<Child>, last: Child)
    requires s == [first] + ([last] + middle)
    requires c == [first] + (middle + [last])
    ensures BoxIds(s) == BoxIds([first]) + (BoxIds([last]) + BoxIds(middle))
    ensures BoxIds(c) == BoxIds([first]) + (BoxIds(middle) + BoxIds([last]))
  {
    BoxIdsThree(first, middle, last);
  }

  /** Box ids before and after moving the last child to index 1. */
  lemma LastToSecondBoxIds(c: seq<Child>, s: seq<Child>)
    requires |c| >= 2 && s == [c[0], c[|c| - 1]] + c[1..|c| - 1]
    ensures BoxIds(s) == BoxIds([c[0]]) + (BoxIds([c[|c| - 1]]) + BoxIds(c[1..|c| - 1]))
    ensures BoxIds(c) == BoxIds([c[0]]) + (BoxIds(c[1..|c| - 1]) + BoxIds([c[|c| - 1]]))
  {
    var n := |c|;
    var first, middle, last := c[0], c[1..n - 1], c[n - 1];
    assert s == [first] + ([last] + middle) by {
      assert [first, last] + middle == [first] + ([last] + middle);
    }
    assert c == [first] + (middle + [last]);
    BoxIdsRearranged(c, s, first, middle, last);
  }

  /** The box ids before and after the scroll, from the first, middle and last children. */
  lemma ScrollBoxIds(c: seq<Child>)
    requires |c| >= 2
    ensures BoxIds(Scroll(c)) == BoxIds([c[0]]) + (BoxIds([c[|c| - 1]]) + BoxIds(c[1..|c| - 1]))
    ensures BoxIds(c) == BoxIds([c[0]]) + (BoxIds(c[1..|c| - 1]) + BoxIds([c[|c| - 1]]))
  {
    ScrollMovesLastToSecond(c);
    LastToSecondBoxIds(c, Scroll(c));
  }

  /** The scroll keeps the number of boxes. */
  lemma ScrollKeepsBoxCount(c: seq<Child>)
    ensures |BoxIds(Scroll(c))| == |BoxIds(c)|
  {
    if |c| >= 2 {
      ScrollBoxIds(c);
    }
  }

  /**
   * When the last child is a box and the first is not, the scroll makes that box
   * the first in document order: the boxes' order rotates by one.
   */
  lemma ScrollRotatesBoxes(c: seq<Child>)
    requires |c| >= 2 && !c[0].BoxNode? && c[|c| - 1].BoxNode?
    ensures BoxIds(Scroll(c)) == [c[|c| - 1].id] + BoxIds(c[1..|c| - 1])
    ensures BoxIds(c) == BoxIds(c[1..|c| - 1]) + [c[|c| - 1].id]
  {
    ScrollBoxIds(c);
    BoxIdsSingle(c[0]);
    BoxIdsSingle(c[|c| - 1]);
  }

  /** The scroll keeps the same box elements on the road. */
  lemma ScrollKeepsBoxes(c: seq<Child>)
    ensures forall id :: id in BoxIds(Scroll(c)) <==> id in BoxIds(c)
  {
    ScrollPermutes(c);
    forall id: nat
      ensures id in BoxIds(Scroll(c)) <==> id in BoxIds(c)
    {
      BoxIdsMembership(c, id);
      BoxIdsMembership(Scroll(c), id);
    }
  }

  /** When neither the first nor the last child is a box, the scroll keeps the boxes' order. */
  lemma ScrollKeepsBoxOrder(c: seq<Child>)
    requires |c| >= 2 && !c[0].BoxNode? && !c[|c| - 1].BoxNode?
    ensures BoxIds(Scroll(c)) == BoxIds(c)
  {
    ScrollBoxIds(c);
    BoxIdsSingle(c[0]);
    BoxIdsSingle(c[|c| - 1]);
  }

  /** The segments generateRoad appends after the car: segment 0 to segment n - 1, in order. */
  function SegmentNodes(n: nat): (r: seq<Child>)
    ensures |r| == n
  {
    seq(n, k requires 0 <= k < n => SegmentNode(k))
  }

  /**
   * A well-formed road for n segment rows: the car first, every child once, and
   * every segment child one of the n rows.
   */
  ghost predicate ChildrenOk(c: seq<Child>, n: nat)
  {
    && |c| > 0 && c[0] == CarNode && Unique(c)
    && forall x :: x in c && x.SegmentNode? ==> x.index < n
  }

  /** The children init leaves are well formed and hold no box. */
  lemma InitialChildren(n: nat)
    ensures ChildrenOk([CarNode] + SegmentNodes(n), n)
    ensures BoxIds([CarNode] + SegmentNodes(n)) == []
  {
    var c := [CarNode] + SegmentNodes(n);
    forall i, j | 0 <= i < j < |c|
      ensures c[i] != c[j]
    {
      if i > 0 {
        assert c[i] == SegmentNode(i - 1) && c[j] == SegmentNode(j - 1);
      }
    }
    forall x | x in c
      ensures !x.BoxNode?
    {
    }
    BoxIdsNone(c);
    UniqueIsDistinct(c);
  }

  lemma {:induction false} BoxIdsNone(c: seq<Child>)
    requires forall x :: x in c ==> !x.BoxNode?
    ensures BoxIds(c) == []
  {
    if c != [] {
      assert c[0] in c;
      assert forall x :: x in c[1..] ==> x in c;
      BoxIdsNone(c[1..]);
    }
  }

  /** The scroll keeps a road well formed and keeps its set of boxes. */
  lemma ScrollKeepsChildrenOk(c: seq<Child>, n: nat)
    requires ChildrenOk(c, n)
    ensures ChildrenOk(Scroll(c), n)
    ensures forall id :: id in BoxIds(Scroll(c)) <==> id in BoxIds(c)
  {
    UniqueIsDistinct(c);
    UniqueIsDistinct(Scroll(c));
    ScrollPermutes(c);
    ScrollKeepsBoxes(c);
  }

  /** Removing the boxes keeps a road well formed, and none is left. */
  lemma WithoutBoxesKeepsChildrenOk(c: seq<Child>, n: nat)
    requires ChildrenOk(c, n)
    ensures ChildrenOk(WithoutBoxes(c), n)
    ensures BoxIds(WithoutBoxes(c)) == []
  {
    UniqueIsDistinct(c);
    UniqueIsDistinct(WithoutBoxes(c));
    WithoutBoxesProps(c);
  }

  /** Appending a box that is not on the road yet keeps it well formed; it becomes the last box. */
  lemma AppendBoxKeepsChildrenOk(c: seq<Child>, n: nat, id: nat)
    requires ChildrenOk(c, n) && id !in BoxIds(c)
    ensures ChildrenOk(c + [BoxNode(id)], n)
    ensures BoxIds(c + [BoxNode(id)]) == BoxIds(c) + [id]
  {
    BoxIdsMembership(c, id);
    UniqueIsDistinct(c);
    UniqueIsDistinct(c + [BoxNode(id)]);
    DistinctSnoc(c, BoxNode(id));
    BoxIdsAppend(c, [BoxNode(id)]);
    BoxIdsSingle(BoxNode(id));
  }
}
