/**
 * The leader board of both versions: the score history is copied, sorted in
 * descending order, and the best entries are listed with ranks from 1 until
 * the rank reaches leaderBoardSize (4), so at most three are shown.
 */
module Board {

  datatype Option<T> = None | Some(value: T)

  /** One line of the board: "<rank>. <score>". */
  datatype Entry = Entry(rank: int, score: int)

  /** leaderBoardSize: the rank at which listing stops, so the board holds three entries. */
  const LeaderBoardSize: int := 4

  predicate Descending(s: seq<int>)
  {
    forall i, j :: 0 <= i < j < |s| ==> s[i] >= s[j]
  }

  lemma DescendingCons(h: int, t: seq<int>)
    requires Descending(t) && (t == [] || h >= t[0])
    ensures Descending([h] + t)
  {
    var r := [h] + t;
    forall i, j | 0 <= i < j < |r|
      ensures r[i] >= r[j]
    {
      if i == 0 {
        assert r[j] == t[j - 1];
        assert t[0] >= t[j - 1];
      } else {
        assert r[i] == t[i - 1] && r[j] == t[j - 1];
      }
    }
  }

  /** Insert x into a descending list, before the first element it is not below. */
  function Insert(x: int, s: seq<int>): (r: seq<int>)
    requires Descending(s)
    ensures |r| == |s| + 1
    ensures r[0] == x || (s != [] && r[0] == s[0])
    ensures Descending(r)
    ensures multiset(r) == multiset(s) + multiset{x}
  {
    if s == [] || x >= s[0] then
      DescendingCons(x, s);
      [x] + s
    else
      assert s == [s[0]] + s[1..];
      assert Descending(s[1..]) by {
        forall i, j | 0 <= i < j < |s[1..]|
          ensures s[1..][i] >= s[1..][j]
        {
          assert s[1..][i] == s[i + 1] && s[1..][j] == s[j + 1];
        }
      }
      var tail := Insert(x, s[1..]);
      assert tail[0] == x || tail[0] == s[1];
      DescendingCons(s[0], tail);
      [s[0]] + tail
  }

  /** The array sort with comparator (a, b) => b - a: the same scores, largest first. */
  function SortDescending(s: seq<int>): (r: seq<int>)
    ensures |r| == |s|
    ensures Descending(r)
    ensures multiset(r) == multiset(s)
  {
    if s == [] then []
    else
      assert s == [s[0]] + s[1..];
      Insert(s[0], SortDescending(s[1..]))
  }

  /** How many entries a history of n scores lists: min(n, leaderBoardSize - 1). */
  function Shown(n: nat): (m: nat)
    ensures m <= n && m <= LeaderBoardSize - 1
    ensures m == n || m == LeaderBoardSize - 1
  {
    if n < LeaderBoardSize - 1 then n else LeaderBoardSize - 1
  }

  /** The scores of a list of entries, in order. */
  function ScoresOf(board: seq<Entry>): (s: seq<int>)
    ensures |s| == |board|
  {
    seq(|board|, k requires 0 <= k < |board| => board[k].score)
  }

  /** The entries app.ts lists: rank k + 1 holds the k-th best score. */
  function Best(scores: seq<int>): (board: seq<Entry>)
    ensures |board| == Shown(|scores|)
    ensures forall k :: 0 <= k < |board| ==> board[k] == Entry(k + 1, SortDescending(scores)[k])
  {
    var sorted := SortDescending(scores);
    seq(Shown(|scores|), k requires 0 <= k < Shown(|scores|) => Entry(k + 1, sorted[k]))
  }

  lemma BestScores(scores: seq<int>)
    ensures ScoresOf(Best(scores)) == SortDescending(scores)[..Shown(|scores|)]
  {
    var sorted := SortDescending(scores);
    var board := Best(scores);
    var m := Shown(|scores|);
    var listed := ScoresOf(board);
    assert |listed| == m;
    forall k | 0 <= k < m
      ensures listed[k] == sorted[..m][k]
    {
      assert board[k] == Entry(k + 1, sorted[k]);
    }
  }

  /** A prefix of a descending list is descending and holds its largest elements. */
  lemma PrefixOfDescending(sorted: seq<int>, m: nat)
    requires Descending(sorted) && 0 < m <= |sorted|
    ensures Descending(sorted[..m])
    ensures forall x :: x in sorted ==> x <= sorted[0]
    ensures forall x :: x in sorted[m..] ==> x <= sorted[m - 1]
  {
    forall x | x in sorted
      ensures x <= sorted[0]
    {
      var j :| 0 <= j < |sorted| && sorted[j] == x;
    }
    forall x | x in sorted[m..]
      ensures x <= sorted[m - 1]
    {
      var j :| 0 <= j < |sorted[m..]| && sorted[m..][j] == x;
      assert sorted[m + j] == x;
    }
  }

  /** Splitting a sorted permutation of the history after m elements. */
  lemma SplitSorted(scores: seq<int>, sorted: seq<int>, m: nat)
    requires Descending(sorted) && multiset(sorted) == multiset(scores) && m <= |sorted|
    ensures multiset(sorted[..m]) <= multiset(scores)
    ensures multiset(scores) - multiset(sorted[..m]) == multiset(sorted[m..])
    ensures m > 0 ==> forall x :: x in scores ==> x <= sorted[0]
    ensures m > 0 ==> forall x :: x in multiset(scores) - multiset(sorted[..m]) ==> x <= sorted[m - 1]
  {
    assert sorted == sorted[..m] + sorted[m..];
    assert multiset(sorted) == multiset(sorted[..m]) + multiset(sorted[m..]);
    if m > 0 {
      PrefixOfDescending(sorted, m);
      forall x | x in scores
        ensures x in sorted
      {
        assert x in multiset(sorted);
      }
      forall x | x in multiset(scores) - multiset(sorted[..m])
        ensures x in sorted[m..]
      {
        assert x in multiset(sorted[m..]);
      }
    }
  }

  /**
   * The board is a correct top three: ranks 1, 2, 3 in order, scores descending,
   * taken from the history, the first at least every score, and every score left
   * off at most the last one listed.
   */
  lemma BestIsTopThree(scores: seq<int>)
    ensures |Best(scores)| == Shown(|scores|)
    ensures forall k :: 0 <= k < |Best(scores)| ==> Best(scores)[k].rank == k + 1
    ensures Descending(ScoresOf(Best(scores)))
    ensures multiset(ScoresOf(Best(scores))) <= multiset(scores)
    ensures |Best(scores)| > 0 ==> forall x :: x in scores ==> x <= Best(scores)[0].score
    ensures |Best(scores)| > 0 ==>
              forall x :: x in multiset(scores) - multiset(ScoresOf(Best(scores))) ==>
                x <= Best(scores)[|Best(scores)| - 1].score
  {
    var board := Best(scores);
    var sorted := SortDescending(scores);
    var m := |board|;
    BestScores(scores);
    SplitSorted(scores, sorted, m);
    if m > 0 {
      PrefixOfDescending(sorted, m);
      assert board[0].score == sorted[0] && board[m - 1].score == sorted[m - 1];
    }
  }

  /**
   * updateLeaderBoard of app.ts: walk the sorted copy, appending "<i>. <result>"
   * and counting i up, and skip every result once i has reached leaderBoardSize.
   */
  method ListBest(scores: seq<int>) returns (board: seq<Entry>)
    ensures board == Best(scores)
  {
    var resultsSorted := SortDescending(scores);
    board := [];
    var i := 1;
    var k := 0;
    while k < |resultsSorted|
      invariant 0 <= k <= |resultsSorted|
      invariant i == 1 + Shown(k) && |board| == i - 1
      invariant forall j :: 0 <= j < |board| ==> board[j] == Entry(j + 1, resultsSorted[j])
    {
      var result := resultsSorted[k];
      if i != LeaderBoardSize {
        board := board + [Entry(i, result)];
        i := i + 1;
      }
      k := k + 1;
    }
  }

  /** The last entry of a board, if it has one. */
  function LastOf(board: seq<Entry>): (last: Option<Entry>)
    ensures last.None? <==> board == []
  {
    if board == [] then None else Some(board[|board| - 1])
  }

  /**
   * updateLeaderBoard of app.js: the same walk, but every line is written into
   * one reused element, so the board ends up holding only the last line written.
   */
  method ListBestJs(scores: seq<int>) returns (node: Option<Entry>)
    ensures node == LastOf(Best(scores))
  {
    var resultsSorted := SortDescending(scores);
    node := None;
    var i := 1;
    var k := 0;
    while k < |resultsSorted|
      invariant 0 <= k <= |resultsSorted|
      invariant i == 1 + Shown(k)
      invariant node == (if i == 1 then None else Some(Entry(i - 1, resultsSorted[i - 2])))
    {
      var result := resultsSorted[k];
      if i != LeaderBoardSize {
        node := Some(Entry(i, result));
        i := i + 1;
      }
      k := k + 1;
    }
  }

  /**
   * What the app.js board shows: nothing for an empty history, otherwise only
   * the lowest of the top three, under its rank (3 once three games were played).
   */
  lemma JsBoardShowsOneLine(scores: seq<int>)
    ensures |scores| == 0 ==> LastOf(Best(scores)) == None
    ensures |scores| > 0 ==>
              LastOf(Best(scores)) == Some(Entry(Shown(|scores|), SortDescending(scores)[Shown(|scores|) - 1]))
    ensures |scores| >= 3 ==> LastOf(Best(scores)).value.rank == 3
  {
  }
}
