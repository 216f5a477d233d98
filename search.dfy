/**
 * The evaluation and search specifications behind `calculateScore` and
 * `suggestMove` (Board.cpp): scores in integer half-points (every value
 * the C++ `double` holds is a multiple of 0.5), the candidate moves in
 * the order the four nested loops of `suggestMove` and `isCheckmate` meet
 * them, and the best-scoring moves.
 */
module Search {
  import opened Pieces
  import opened Rules

  /** Point value of a kind: Pawn 1, Knight 3, Bishop 3, Rook 5, Queen 9; King and Empty add nothing. */
  function Value(t: PieceType): nat {
    match t
    case Pawn => 1
    case Knight => 3
    case Bishop => 3
    case Rook => 5
    case Queen => 9
    case King => 0
    case Empty => 0
  }

  /** 500.0 points for an attacked King, in half-points. */
  const KingPenalty: int := 1000

  /** `INT_MIN` (the starting `highestScore`) in half-points. */
  const IntMinHalfPoints: int := -2 * 2147483648

  /**
   * One square's half-point contribution to the score of `color`: an own
   * non-King piece counts 2v when no opponent can take it and v when one
   * can; an attacked own King costs `KingPenalty`; everything else is 0.
   */
  ghost function SquareScore(g: Grid, color: int, row: int, col: int): (s: int)
    requires InBounds(row, col)
    ensures -KingPenalty <= s <= 18
  {
    var p := g[row][col];
    if p.color != color || p.kind == Empty then 0
    else if p.kind == King then (if Attacked(g, row, col, color) then -KingPenalty else 0)
    else if Attacked(g, row, col, color) then Value(p.kind)
    else 2 * Value(p.kind)
  }

  /** The squares (row, 0..m-1), summed. */
  ghost function RowScore(g: Grid, color: int, row: int, m: int): (s: int)
    requires 0 <= row < 8 && 0 <= m <= 8
    ensures -1000 * m <= s <= 18 * m
  {
    if m == 0 then 0 else RowScore(g, color, row, m - 1) + SquareScore(g, color, row, m - 1)
  }

  /** Rows 0..k-1, summed. */
  ghost function RowsScore(g: Grid, color: int, k: int): (s: int)
    requires 0 <= k <= 8
    ensures -8000 * k <= s <= 144 * k
  {
    if k == 0 then 0 else RowsScore(g, color, k - 1) + RowScore(g, color, k - 1, 8)
  }

  /** `calculateScore(color)` in half-points: the sum over all 64 squares. */
  ghost function Score(g: Grid, color: int): (s: int)
    ensures -64000 <= s <= 1152
    ensures IntMinHalfPoints < s
  {
    RowsScore(g, color, 8)
  }

  /** Lexicographic (row-major) order on moves: old row, old column, new row, new column. */
  predicate Precedes(a: Move, b: Move) {
    a.oldRow < b.oldRow
    || (a.oldRow == b.oldRow && a.oldCol < b.oldCol)
    || (a.oldRow == b.oldRow && a.oldCol == b.oldCol && a.newRow < b.newRow)
    || (a.oldRow == b.oldRow && a.oldCol == b.oldCol && a.newRow == b.newRow && a.newCol < b.newCol)
  }

  predicate Ascending(ms: seq<Move>) {
    forall a, b :: 0 <= a < b < |ms| ==> Precedes(ms[a], ms[b])
  }

  lemma AscendingConcat(xs: seq<Move>, ys: seq<Move>)
    requires Ascending(xs) && Ascending(ys)
    requires forall x, y :: x in xs && y in ys ==> Precedes(x, y)
    ensures Ascending(xs + ys)
  {
    forall a, b | 0 <= a < b < |xs + ys|
      ensures Precedes((xs + ys)[a], (xs + ys)[b])
    {
      if b < |xs| {
      } else if a >= |xs| {
        assert (xs + ys)[a] == ys[a - |xs|] && (xs + ys)[b] == ys[b - |xs|];
      } else {
        assert (xs + ys)[a] in xs && (xs + ys)[b] in ys;
      }
    }
  }

  /** The legal moves from (i, j) onto row k, columns 0..m-1, in column order. */
  function MovesOntoRow(g: Grid, i: Coord, j: Coord, k: Coord, m: int): seq<Move>
    requires 0 <= m <= 8
  {
    if m == 0 then []
    else MovesOntoRow(g, i, j, k, m - 1) + (if LegalMove(g, i, j, k, m - 1) then [Move(i, j, k, m - 1)] else [])
  }

  /** The legal moves from (i, j) onto rows 0..k-1, in row-major order. */
  function MovesFromSquare(g: Grid, i: Coord, j: Coord, k: int): seq<Move>
    requires 0 <= k <= 8
  {
    if k == 0 then [] else MovesFromSquare(g, i, j, k - 1) + MovesOntoRow(g, i, j, k - 1, 8)
  }

  /** The candidate moves of `color` from squares (i, 0..j-1), in the order the loops try them. */
  function MovesFromRow(g: Grid, color: int, i: Coord, j: int): seq<Move>
    requires 0 <= j <= 8
  {
    if j == 0 then []
    else
      var p := g[i][j - 1];
      MovesFromRow(g, color, i, j - 1) + (if p.kind != Empty && p.color == color then MovesFromSquare(g, i, j - 1, 8) else [])
  }

  /** The candidate moves of `color` from rows 0..i-1. */
  function MovesFromRows(g: Grid, color: int, i: int): seq<Move>
    requires 0 <= i <= 8
  {
    if i == 0 then [] else MovesFromRows(g, color, i - 1) + MovesFromRow(g, color, i - 1, 8)
  }

  /** Every candidate move of `color`, in row-major (i, j, k, m) order: the order both search loops try them. */
  function CandidateMoves(g: Grid, color: int): seq<Move> {
    MovesFromRows(g, color, 8)
  }

  /** The moves onto row k: exactly the legal ones from (i, j) to a column below m, in ascending order. */
  lemma {:induction false} MovesOntoRowMembers(g: Grid, i: Coord, j: Coord, k: Coord, m: int)
    requires 0 <= m <= 8
    ensures forall mv :: mv in MovesOntoRow(g, i, j, k, m) <==>
      mv.oldRow == i && mv.oldCol == j && mv.newRow == k && mv.newCol < m && Legal(g, mv)
    ensures Ascending(MovesOntoRow(g, i, j, k, m))
  {
    if m > 0 {
      MovesOntoRowMembers(g, i, j, k, m - 1);
      var prefix := MovesOntoRow(g, i, j, k, m - 1);
      var last := if LegalMove(g, i, j, k, m - 1) then [Move(i, j, k, m - 1)] else [];
      assert MovesOntoRow(g, i, j, k, m) == prefix + last;
      assert forall mv :: mv in last <==> mv == Move(i, j, k, m - 1) && Legal(g, mv);
      AscendingConcat(prefix, last);
    }
  }

  /** The moves from (i, j): exactly the legal ones onto a row below k, in ascending order. */
  lemma {:induction false} MovesFromSquareMembers(g: Grid, i: Coord, j: Coord, k: int)
    requires 0 <= k <= 8
    ensures forall mv :: mv in MovesFromSquare(g, i, j, k) <==>
      mv.oldRow == i && mv.oldCol == j && mv.newRow < k && Legal(g, mv)
    ensures Ascending(MovesFromSquare(g, i, j, k))
  {
    if k > 0 {
      MovesFromSquareMembers(g, i, j, k - 1);
      MovesOntoRowMembers(g, i, j, k - 1, 8);
      AscendingConcat(MovesFromSquare(g, i, j, k - 1), MovesOntoRow(g, i, j, k - 1, 8));
    }
  }

  /** The moves from row i: exactly the candidates from a column below j, in ascending order. */
  lemma {:induction false} MovesFromRowMembers(g: Grid, color: int, i: Coord, j: int)
    requires 0 <= j <= 8
    ensures forall mv :: mv in MovesFromRow(g, color, i, j) <==>
      mv.oldRow == i && mv.oldCol < j && IsCandidate(g, color, mv)
    ensures Ascending(MovesFromRow(g, color, i, j))
  {
    if j > 0 {
      MovesFromRowMembers(g, color, i, j - 1);
      MovesFromSquareMembers(g, i, j - 1, 8);
      var p := g[i][j - 1];
      var last := if p.kind != Empty && p.color == color then MovesFromSquare(g, i, j - 1, 8) else [];
      AscendingConcat(MovesFromRow(g, color, i, j - 1), last);
    }
  }

  /** The moves from rows 0..i-1: exactly the candidates from those rows, in ascending order. */
  lemma {:induction false} MovesFromRowsMembers(g: Grid, color: int, i: int)
    requires 0 <= i <= 8
    ensures forall mv :: mv in MovesFromRows(g, color, i) <==> mv.oldRow < i && IsCandidate(g, color, mv)
    ensures Ascending(MovesFromRows(g, color, i))
  {
    if i > 0 {
      MovesFromRowsMembers(g, color, i - 1);
      MovesFromRowMembers(g, color, i - 1, 8);
      AscendingConcat(MovesFromRows(g, color, i - 1), MovesFromRow(g, color, i - 1, 8));
    }
  }

  /** Every candidate move appears in the list, nothing else does, and the list is in ascending order. */
  lemma CandidateMovesMembers(g: Grid, color: int)
    ensures forall mv :: mv in CandidateMoves(g, color) <==> IsCandidate(g, color, mv)
    ensures Ascending(CandidateMoves(g, color))
  {
    MovesFromRowsMembers(g, color, 8);
  }

  /** The score of `color` once the move is made. */
  ghost function ScoreAfter(g: Grid, color: int, mv: Move): int
  {
    Score(Apply(g, mv), color)
  }

  /** The score after each move of ms, in the order of ms. */
  ghost function Scores(g: Grid, color: int, ms: seq<Move>): (s: seq<int>)
    ensures |s| == |ms|
  {
    seq(|ms|, n requires 0 <= n < |ms| => ScoreAfter(g, color, ms[n]))
  }

  /**
   * `highestScore` after a run of scores: it starts at `INT_MIN` and each
   * score at least as high as it replaces it.
   */
  function Highest(scores: seq<int>): int
  {
    if scores == [] then IntMinHalfPoints
    else
      var before := Highest(scores[..|scores| - 1]);
      var s := scores[|scores| - 1];
      if s >= before then s else before
  }

  /** The moves of ms whose score (at the same position of scores) is exactly h, in their order in ms. */
  function Keep(ms: seq<Move>, scores: seq<int>, h: int): seq<Move>
    requires |ms| == |scores|
  {
    if ms == [] then []
    else
      var n := |ms| - 1;
      Keep(ms[..n], scores[..n], h) + (if scores[n] == h then [ms[n]] else [])
  }

  /** `highestScore` after trying the moves of ms in order. */
  ghost function HighestScore(g: Grid, color: int, ms: seq<Move>): int
  {
    Highest(Scores(g, color, ms))
  }

  /** The moves of ms whose score is exactly h, in their order in ms. */
  ghost function WithScore(g: Grid, color: int, ms: seq<Move>, h: int): seq<Move>
  {
    Keep(ms, Scores(g, color, ms), h)
  }

  /** The `bestMoves` vector `suggestMove` ends with: the candidates reaching the highest score, in loop order. */
  ghost function BestMoves(g: Grid, color: int): seq<Move> {
    var ms := CandidateMoves(g, color);
    WithScore(g, color, ms, HighestScore(g, color, ms))
  }

  /**
   * For scores no lower than `INT_MIN`, the running maximum is `INT_MIN`
   * when there are none, bounds every score, and is one of them otherwise.
   */
  lemma {:induction false} HighestIsMaximum(scores: seq<int>)
    requires forall n :: 0 <= n < |scores| ==> IntMinHalfPoints <= scores[n]
    ensures scores == [] ==> Highest(scores) == IntMinHalfPoints
    ensures forall n :: 0 <= n < |scores| ==> scores[n] <= Highest(scores)
    ensures scores != [] ==> exists n :: 0 <= n < |scores| && scores[n] == Highest(scores)
  {
    if scores != [] {
      var init := scores[..|scores| - 1];
      HighestIsMaximum(init);
      assert forall n :: 0 <= n < |init| ==> init[n] == scores[n];
      var last := |scores| - 1;
      if scores[last] < Highest(init) {
        var w :| 0 <= w < |init| && init[w] == Highest(init);
        assert scores[w] == Highest(scores);
      } else {
        assert scores[last] == Highest(scores);
      }
    }
  }

  /** A move is kept for h exactly when it sits at a position of ms whose score is h. */
  lemma {:induction false} KeepMembers(ms: seq<Move>, scores: seq<int>, h: int)
    requires |ms| == |scores|
    ensures forall mv :: mv in Keep(ms, scores, h) <==> exists n :: 0 <= n < |ms| && ms[n] == mv && scores[n] == h
  {
    if ms != [] {
      var n := |ms| - 1;
      KeepMembers(ms[..n], scores[..n], h);
      forall mv
        ensures mv in Keep(ms, scores, h) <==> exists p :: 0 <= p < |ms| && ms[p] == mv && scores[p] == h
      {
        if mv in Keep(ms[..n], scores[..n], h) {
          var p :| 0 <= p < n && ms[..n][p] == mv && scores[..n][p] == h;
          assert ms[p] == mv && scores[p] == h;
        }
        if exists p :: 0 <= p < |ms| && ms[p] == mv && scores[p] == h {
          var p :| 0 <= p < |ms| && ms[p] == mv && scores[p] == h;
          if p < n {
            assert ms[..n][p] == mv && scores[..n][p] == h;
          }
        }
      }
    }
  }

  /** The running maximum over moves is `INT_MIN` for none, and otherwise the largest score a move of ms reaches. */
  lemma HighestScoreIsMaximum(g: Grid, color: int, ms: seq<Move>)
    ensures ms == [] ==> HighestScore(g, color, ms) == IntMinHalfPoints
    ensures forall mv :: mv in ms ==> ScoreAfter(g, color, mv) <= HighestScore(g, color, ms)
    ensures ms != [] ==> exists mv :: mv in ms && ScoreAfter(g, color, mv) == HighestScore(g, color, ms)
  {
    var scores := Scores(g, color, ms);
    assert forall n :: 0 <= n < |scores| ==> scores[n] == Score(Apply(g, ms[n]), color);
    HighestIsMaximum(scores);
    forall mv | mv in ms
      ensures ScoreAfter(g, color, mv) <= HighestScore(g, color, ms)
    {
      var n :| 0 <= n < |ms| && ms[n] == mv;
      assert scores[n] == ScoreAfter(g, color, mv);
    }
    if ms != [] {
      var n :| 0 <= n < |scores| && scores[n] == Highest(scores);
      assert ms[n] in ms;
    }
  }

  /** The moves kept for h are exactly the moves of ms that score h. */
  lemma WithScoreMembers(g: Grid, color: int, ms: seq<Move>, h: int)
    ensures forall mv :: mv in WithScore(g, color, ms, h) <==> mv in ms && ScoreAfter(g, color, mv) == h
  {
    var scores := Scores(g, color, ms);
    KeepMembers(ms, scores, h);
    forall mv | mv in ms && ScoreAfter(g, color, mv) == h
      ensures mv in WithScore(g, color, ms, h)
    {
      var n :| 0 <= n < |ms| && ms[n] == mv;
      assert scores[n] == h;
    }
  }

  /** Among any moves, those scoring the running maximum are exactly those no other move beats. */
  lemma WithHighestScoreIsOptimal(g: Grid, color: int, ms: seq<Move>)
    ensures forall mv :: mv in WithScore(g, color, ms, HighestScore(g, color, ms)) <==>
      mv in ms && forall other :: other in ms ==> ScoreAfter(g, color, other) <= ScoreAfter(g, color, mv)
  {
    var h := HighestScore(g, color, ms);
    HighestScoreIsMaximum(g, color, ms);
    WithScoreMembers(g, color, ms, h);
    forall mv | mv in ms && forall other :: other in ms ==> ScoreAfter(g, color, other) <= ScoreAfter(g, color, mv)
      ensures ScoreAfter(g, color, mv) == h
    {
      var w :| w in ms && ScoreAfter(g, color, w) == h;
    }
  }

  /**
   * A move is among the best exactly when it is a candidate whose score no
   * other candidate beats.
   */
  lemma BestMovesAreOptimal(g: Grid, color: int)
    ensures forall mv :: mv in BestMoves(g, color) <==>
      IsCandidate(g, color, mv)
      && forall other :: IsCandidate(g, color, other) ==> ScoreAfter(g, color, other) <= ScoreAfter(g, color, mv)
  {
    var ms := CandidateMoves(g, color);
    CandidateMovesMembers(g, color);
    WithHighestScoreIsOptimal(g, color, ms);
  }

  /** `bestMoves` is empty exactly when `color` has no candidate move at all. */
  lemma BestMovesEmptyIffNoMove(g: Grid, color: int)
    ensures BestMoves(g, color) == [] <==> forall mv :: !IsCandidate(g, color, mv)
  {
    var ms := CandidateMoves(g, color);
    var h := HighestScore(g, color, ms);
    CandidateMovesMembers(g, color);
    HighestScoreIsMaximum(g, color, ms);
    WithScoreMembers(g, color, ms, h);
    if ms != [] {
      assert IsCandidate(g, color, ms[0]);
      var w :| w in ms && ScoreAfter(g, color, w) == h;
      assert w in BestMoves(g, color);
    }
  }

  /**
   * The pick of `suggestMove` as written: the random value r modulo the
   * number of best moves. C++ leaves a remainder by zero undefined, so the
   * pick exists only for a non-empty list.
   */
  function SuggestionIndexAsWritten(r: nat, count: nat): (n: nat)
    requires count != 0
    ensures n < count
  {
    r % count
  }

  /**
   * The pick with the empty list handled: no suggestion when there is no
   * best move, otherwise the best move at r modulo their number.
   */
  function Suggestion(bestMoves: seq<Move>, r: nat): (s: Option<Move>)
    ensures s.Some? <==> bestMoves != []
    ensures s.Some? ==> s.value in bestMoves
  {
    if bestMoves == [] then None else Some(bestMoves[SuggestionIndexAsWritten(r, |bestMoves|)])
  }

  /**
   * Whatever the random value, the suggested move is a candidate no other
   * candidate outscores, and there is no suggestion exactly when the colour
   * has no candidate move.
   */
  lemma SuggestionIsBest(g: Grid, color: int, r: nat)
    ensures Suggestion(BestMoves(g, color), r) == None <==> forall mv :: !IsCandidate(g, color, mv)
    ensures Suggestion(BestMoves(g, color), r).Some? ==>
      var mv := Suggestion(BestMoves(g, color), r).value;
      IsCandidate(g, color, mv)
      && forall other :: IsCandidate(g, color, other) ==> ScoreAfter(g, color, other) <= ScoreAfter(g, color, mv)
  {
    BestMovesEmptyIffNoMove(g, color);
    BestMovesAreOptimal(g, color);
  }

  /** A board without pieces has no best move, so the as-written pick is a remainder by zero there. */
  lemma NoBestMoveOnEmptyBoard(color: int)
    ensures BestMoves(EmptyGrid(), color) == []
  {
    BestMovesEmptyIffNoMove(EmptyGrid(), color);
  }

  /**
   * One iteration of `suggestMove`'s innermost loop on a tried legal move
   * scoring s: a score above `highestScore` raises it and restarts
   * `bestMoves` with the move, an equal score appends the move, a lower
   * one changes nothing.
   */
  function Step(state: (int, seq<Move>), mv: Move, s: int): (int, seq<Move>) {
    if s > state.0 then (s, [mv])
    else if s == state.0 then (state.0, state.1 + [mv])
    else state
  }

  /**
   * The (`highestScore`, `bestMoves`) pair after the loop steps over the
   * moves of ms in order, starting from `state`, each move scoring
   * `scoreOf(mv)`.
   */
  function Run(state: (int, seq<Move>), ms: seq<Move>, scoreOf: Move -> int): (int, seq<Move>) {
    if ms == [] then state
    else
      var mv := ms[|ms| - 1];
      Step(Run(state, ms[..|ms| - 1], scoreOf), mv, scoreOf(mv))
  }

  /** Stepping over one more move. */
  lemma RunSnoc(state: (int, seq<Move>), ms: seq<Move>, mv: Move, scoreOf: Move -> int)
    ensures Run(state, ms + [mv], scoreOf) == Step(Run(state, ms, scoreOf), mv, scoreOf(mv))
  {
    assert (ms + [mv])[..|ms|] == ms;
  }

  /** Stepping over xs and then ys is stepping over xs + ys. */
  lemma {:induction false} RunConcat(state: (int, seq<Move>), xs: seq<Move>, ys: seq<Move>, scoreOf: Move -> int)
    ensures Run(state, xs + ys, scoreOf) == Run(Run(state, xs, scoreOf), ys, scoreOf)
  {
    if ys == [] {
      assert xs + ys == xs;
    } else {
      var init := ys[..|ys| - 1];
      RunConcat(state, xs, init, scoreOf);
      assert (xs + ys)[..|xs + ys| - 1] == xs + init;
      assert (xs + ys)[|xs + ys| - 1] == ys[|ys| - 1];
    }
  }

  /**
   * scoreOf gives every move the score of the position it leaves. The
   * trigger keeps the verifier from expanding a score wherever scoreOf is
   * applied.
   */
  ghost predicate ScoresBy(g: Grid, color: int, scoreOf: Move -> int) {
    forall mv {:trigger ScoreAfter(g, color, mv)} :: scoreOf(mv) == ScoreAfter(g, color, mv)
  }

  /**
   * Scoring each move by the position it leaves and starting from
   * (`INT_MIN`, empty), the loop ends with the highest score over ms and
   * the moves of ms reaching it, in their order in ms.
   */
  lemma {:induction false} RunFindsBest(g: Grid, color: int, ms: seq<Move>, scoreOf: Move -> int)
    requires ScoresBy(g, color, scoreOf)
    ensures Run((IntMinHalfPoints, []), ms, scoreOf) == (HighestScore(g, color, ms), WithScore(g, color, ms, HighestScore(g, color, ms)))
  {
    if ms != [] {
      var init, mv := ms[..|ms| - 1], ms[|ms| - 1];
      assert ms == init + [mv];
      RunFindsBest(g, color, init, scoreOf);
      var scores, s := Scores(g, color, init), ScoreAfter(g, color, mv);
      assert scoreOf(mv) == s;
      var h := Highest(scores);
      var h' := if s >= h then s else h;
      ScoresSnoc(g, color, init, mv);
      HighestSnoc(scores, s);
      assert HighestScore(g, color, ms) == h';
      KeepSnoc(init, scores, mv, s, h');
      assert WithScore(g, color, ms, h') == Keep(init, scores, h') + (if s == h' then [mv] else []);
      var before := Run((IntMinHalfPoints, []), init, scoreOf);
      assert before == (h, Keep(init, scores, h));
      RunSnoc((IntMinHalfPoints, []), init, mv, scoreOf);
      if s > h {
        KeepAboveHighest(init, scores, s);
        assert Keep(init, scores, s) + [mv] == [mv];
      } else if s < h {
        assert Keep(init, scores, h) + [] == Keep(init, scores, h);
      }
    }
  }

  /** Scoring one more move appends its score. */
  lemma ScoresSnoc(g: Grid, color: int, ms: seq<Move>, mv: Move)
    ensures Scores(g, color, ms + [mv]) == Scores(g, color, ms) + [ScoreAfter(g, color, mv)]
  {
    var l, r := Scores(g, color, ms + [mv]), Scores(g, color, ms) + [ScoreAfter(g, color, mv)];
    forall n | 0 <= n < |l|
      ensures l[n] == r[n]
    {
      if n < |ms| {
        assert (ms + [mv])[n] == ms[n];
      }
    }
  }

  /** One more score: the running maximum rises to it exactly when it is at least as high. */
  lemma HighestSnoc(scores: seq<int>, s: int)
    ensures Highest(scores + [s]) == if s >= Highest(scores) then s else Highest(scores)
  {
    assert (scores + [s])[..|scores|] == scores;
  }

  /** One more move and score: the move is kept for h exactly when its score is h. */
  lemma KeepSnoc(ms: seq<Move>, scores: seq<int>, mv: Move, s: int, h: int)
    requires |ms| == |scores|
    ensures Keep(ms + [mv], scores + [s], h) == Keep(ms, scores, h) + (if s == h then [mv] else [])
  {
    assert (ms + [mv])[..|ms|] == ms;
    assert (scores + [s])[..|scores|] == scores;
  }

  /** No score reaches a value above the running maximum, so no move is kept for it. */
  lemma {:induction false} KeepAboveHighest(ms: seq<Move>, scores: seq<int>, h: int)
    requires |ms| == |scores|
    requires h > Highest(scores)
    ensures Keep(ms, scores, h) == []
  {
    if ms != [] {
      var n := |ms| - 1;
      KeepAboveHighest(ms[..n], scores[..n], h);
    }
  }
}
