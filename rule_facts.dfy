/**
 * What the rules of Board.cpp mean: closed-form statements of the pawn,
 * knight and straight-line rules, the checks every piece kind shares,
 * the meaning of the king-safety and checkmate codes, and scenarios from
 * the starting position.
 */
module RuleFacts {
  import opened Pieces
  import opened Rules

  function Max(a: int, b: int): int {
    if a < b then b else a
  }

  /** On a rank, file or diagonal the walk of `isPathEmpty` ends exactly on the destination. */
  lemma LineWalkReachesDestination(oldRow: int, oldCol: int, newRow: int, newCol: int)
    requires RookShape(oldRow - newRow, oldCol - newCol) || BishopShape(oldRow - newRow, oldCol - newCol)
    ensures WalkLength(oldRow, oldCol, newRow, newCol) == Max(Abs(oldRow - newRow), Abs(oldCol - newCol))
    ensures WalkSquare(oldRow, oldCol, newRow, newCol, WalkLength(oldRow, oldCol, newRow, newCol)) == (newRow, newCol)
  {
  }

  /** Every square the walk passes before its last one is empty. */
  predicate InteriorEmpty(g: Grid, oldRow: int, oldCol: int, newRow: int, newCol: int)
    requires InBounds(oldRow, oldCol) && InBounds(newRow, newCol)
  {
    forall k :: 1 <= k < WalkLength(oldRow, oldCol, newRow, newCol) ==>
      var sq := WalkSquare(oldRow, oldCol, newRow, newCol, k); IsEmptyAt(g, sq.0, sq.1)
  }

  /** The destination is empty or holds a piece whose colour differs from the mover's. */
  predicate EmptyOrOpposing(g: Grid, oldRow: int, oldCol: int, newRow: int, newCol: int)
    requires InBounds(oldRow, oldCol) && InBounds(newRow, newCol)
  {
    g[newRow][newCol].kind == Empty || g[newRow][newCol].color != g[oldRow][oldCol].color
  }

  /** The geometry each straight-line kind needs. */
  predicate LineShape(t: PieceType, dr: int, dc: int) {
    match t
    case Rook => RookShape(dr, dc)
    case Bishop => BishopShape(dr, dc)
    case Queen => RookShape(dr, dc) || BishopShape(dr, dc)
    case King => Max(Abs(dr), Abs(dc)) == 1
    case _ => false
  }

  /**
   * Rook, Bishop, Queen and King: a move is legal exactly when its geometry
   * fits the kind, every square strictly between is empty, and the
   * destination is empty or opposing.
   */
  lemma StraightLineRule(g: Grid, oldRow: int, oldCol: int, newRow: int, newCol: int)
    requires InBounds(oldRow, oldCol) && InBounds(newRow, newCol)
    requires g[oldRow][oldCol].kind in {Rook, Bishop, Queen, King}
    ensures LegalMove(g, oldRow, oldCol, newRow, newCol) <==>
      LineShape(g[oldRow][oldCol].kind, oldRow - newRow, oldCol - newCol)
      && InteriorEmpty(g, oldRow, oldCol, newRow, newCol)
      && EmptyOrOpposing(g, oldRow, oldCol, newRow, newCol)
  {
    var dr, dc := oldRow - newRow, oldCol - newCol;
    assert KingShape(dr, dc) <==> Max(Abs(dr), Abs(dc)) == 1;
    if RookShape(dr, dc) || BishopShape(dr, dc) {
      LineWalkReachesDestination(oldRow, oldCol, newRow, newCol);
    }
  }

  /**
   * Pawn: one step forward onto an empty square; two steps forward from an
   * unmoved pawn over an empty square onto an empty square; or one step
   * diagonally forward onto a piece of the opposite colour.
   */
  lemma PawnRule(g: Grid, oldRow: int, oldCol: int, newRow: int, newCol: int)
    requires InBounds(oldRow, oldCol) && InBounds(newRow, newCol)
    requires g[oldRow][oldCol].kind == Pawn
    ensures var p, dest, f := g[oldRow][oldCol], g[newRow][newCol], Forward(g[oldRow][oldCol].color);
      LegalMove(g, oldRow, oldCol, newRow, newCol) <==>
        (newCol == oldCol && newRow == oldRow + f && dest.kind == Empty)
        || (newCol == oldCol && newRow == oldRow + 2 * f && dest.kind == Empty
            && p.hasMoved == 0 && g[oldRow + f][oldCol].kind == Empty)
        || (Abs(newCol - oldCol) == 1 && newRow == oldRow + f
            && dest.kind != Empty && dest.color == Opponent(p.color))
  {
  }

  /** Knight: an L-shaped jump onto an empty or opposing square; nothing in between is looked at. */
  lemma KnightRule(g: Grid, oldRow: int, oldCol: int, newRow: int, newCol: int)
    requires InBounds(oldRow, oldCol) && InBounds(newRow, newCol)
    requires g[oldRow][oldCol].kind == Knight
    ensures LegalMove(g, oldRow, oldCol, newRow, newCol) <==>
      KnightShape(oldRow - newRow, oldCol - newCol) && EmptyOrOpposing(g, oldRow, oldCol, newRow, newCol)
  {
  }

  /**
   * For every piece kind: moving from an empty square, moving onto the
   * square itself and moving onto a piece of the mover's own colour are
   * all illegal.
   */
  lemma IllegalForEveryKind(g: Grid, oldRow: int, oldCol: int, newRow: int, newCol: int)
    requires InBounds(oldRow, oldCol) && InBounds(newRow, newCol)
    ensures g[oldRow][oldCol].kind == Empty ==> !LegalMove(g, oldRow, oldCol, newRow, newCol)
    ensures (oldRow, oldCol) == (newRow, newCol) ==> !LegalMove(g, oldRow, oldCol, newRow, newCol)
    ensures g[newRow][newCol].kind != Empty && g[newRow][newCol].color == g[oldRow][oldCol].color
      ==> !LegalMove(g, oldRow, oldCol, newRow, newCol)
  {
    var t := g[oldRow][oldCol].kind;
    if t in {Rook, Bishop, Queen, King} {
      StraightLineRule(g, oldRow, oldCol, newRow, newCol);
    }
  }

  /**
   * `isKingSafe`'s codes: -2 exactly when no King of the colour is on the
   * board, 0 exactly when the King it settles on is attacked, else 1.
   */
  lemma KingSafetyCodes(g: Grid, color: int)
    ensures KingSafety(g, color) in {-2, 0, 1}
    ensures KingSafety(g, color) == -2 <==> forall r, c :: InBounds(r, c) ==> !IsKingOf(g[r][c], color)
    ensures KingSafety(g, color) == 0 <==>
      exists r, c :: InBounds(r, c) && KingLocation(g, color) == Some((r, c)) && Attacked(g, r, c, color)
  {
    match KingLocation(g, color)
    case None =>
    case Some(sq) =>
      assert InBounds(sq.0, sq.1) && IsKingOf(g[sq.0][sq.1], color);
  }

  /** With exactly one King of the colour on the board, the scan settles on it. */
  lemma SingleKingIsLocated(g: Grid, color: int, row: int, col: int)
    requires InBounds(row, col) && IsKingOf(g[row][col], color)
    requires forall r, c :: InBounds(r, c) && IsKingOf(g[r][c], color) ==> (r, c) == (row, col)
    ensures KingLocation(g, color) == Some((row, col))
  {
  }

  /**
   * `isCheckmate` never reports -2: it is 1 whenever `isKingSafe` is not 0
   * (a missing King included), -1 exactly when the King is attacked and
   * no candidate move leaves `isKingSafe` nonzero, and 0 otherwise.
   */
  lemma CheckmateCodes(g: Grid, color: int)
    ensures CheckmateStatus(g, color) in {1, 0, -1}
    ensures CheckmateStatus(g, color) == 1 <==> KingSafety(g, color) != 0
    ensures CheckmateStatus(g, color) == -1 <==>
      KingSafety(g, color) == 0 && forall mv :: IsCandidate(g, color, mv) ==> KingSafety(Apply(g, mv), color) == 0
  {
  }

  /** The attack on the King that `isCheckmate` starts from implies the King is on the board. */
  lemma AttackedKingExists(g: Grid, color: int)
    requires KingSafety(g, color) == 0
    ensures KingLocation(g, color).Some?
  {
  }

  /** From the starting position e2e4 is legal; after e2e3 the pawn can no longer advance two squares. */
  lemma PawnDoubleStepScenario()
    ensures LegalMove(InitialGrid(), 6, 4, 4, 4)
    ensures var g := Apply(InitialGrid(), Move(6, 4, 5, 4));
      LegalMove(InitialGrid(), 6, 4, 5, 4) && g[5][4] == Piece(Pawn, 0, 1) && !LegalMove(g, 5, 4, 3, 4)
  {
    var g0 := InitialGrid();
    assert g0[6][4] == Piece(Pawn, 0, 0) && g0[5][4] == DefaultPiece && g0[4][4] == DefaultPiece;
    var g := Apply(g0, Move(6, 4, 5, 4));
    assert g[5][4] == Piece(Pawn, 0, 1);
  }

  /** From the starting position the a1 rook cannot pass the a2 pawn, whatever lies beyond it. */
  lemma RookBlockedScenario(g: Grid, newRow: int)
    requires g[7][0] == Piece(Rook, 0, 0) && g[6][0].kind != Empty
    requires 0 <= newRow < 6
    ensures !LegalMove(g, 7, 0, newRow, 0)
  {
    StraightLineRule(g, 7, 0, newRow, 0);
    assert WalkSquare(7, 0, newRow, 0, 1) == (6, 0);
  }

  /** The geometry a piece of its kind needs for a move that changes the row by -dr and the column by -dc. */
  predicate Reaches(p: Piece, dr: int, dc: int) {
    match p.kind
    case Pawn => (dc == 0 && (-dr == Forward(p.color) || -dr == 2 * Forward(p.color))) || (Abs(dc) == 1 && -dr == Forward(p.color))
    case Rook => RookShape(dr, dc)
    case Bishop => BishopShape(dr, dc)
    case Queen => RookShape(dr, dc) || BishopShape(dr, dc)
    case King => KingShape(dr, dc)
    case Knight => KnightShape(dr, dc)
    case Empty => false
  }

  /** A legal move has its kind's geometry, whatever the squares in between hold. */
  lemma LegalNeedsShape(g: Grid, oldRow: int, oldCol: int, newRow: int, newCol: int)
    requires InBounds(oldRow, oldCol) && InBounds(newRow, newCol)
    requires LegalMove(g, oldRow, oldCol, newRow, newCol)
    ensures Reaches(g[oldRow][oldCol], oldRow - newRow, oldCol - newCol)
  {
  }

  /** No piece of the starting position other than the King's own side has the geometry to reach (row, 4). */
  lemma HomeKingOutOfReach(row: int, color: int)
    requires (row, color) == (7, 0) || (row, color) == (0, 1)
    ensures forall i, j :: InBounds(i, j) && InitialPiece(i, j).color != color ==>
      !Reaches(InitialPiece(i, j), i - row, j - 4)
  {
  }

  /** Of the starting position's pieces, no opposing one attacks the King's home square (row, 4). */
  lemma HomeUnattacked(row: int, color: int)
    requires (row, color) == (7, 0) || (row, color) == (0, 1)
    ensures !Attacked(InitialGrid(), row, 4, color)
  {
    var g := InitialGrid();
    HomeKingOutOfReach(row, color);
    forall i, j | InBounds(i, j)
      ensures !AttackerAt(g, i, j, row, 4, color)
    {
      assert g[i][j] == InitialPiece(i, j);
      if LegalMove(g, i, j, row, 4) {
        LegalNeedsShape(g, i, j, row, 4);
      }
    }
  }

  /**
   * In the starting position each King is found on its home square and is
   * not attacked: no opposing piece has the geometry to reach it.
   */
  lemma StartingKingsSafe()
    ensures KingLocation(InitialGrid(), 0) == Some((7, 4)) && KingSafety(InitialGrid(), 0) == 1
    ensures KingLocation(InitialGrid(), 1) == Some((0, 4)) && KingSafety(InitialGrid(), 1) == 1
  {
    var g := InitialGrid();
    forall r, c | InBounds(r, c) && (IsKingOf(g[r][c], 0) || IsKingOf(g[r][c], 1))
      ensures (r, c) == (7, 4) || (r, c) == (0, 4)
    {
      assert g[r][c] == InitialPiece(r, c);
    }
    SingleKingIsLocated(g, 0, 7, 4);
    SingleKingIsLocated(g, 1, 0, 4);
    HomeUnattacked(7, 0);
    HomeUnattacked(0, 1);
  }

  /** The moves of the fool's mate, 1. f3 e5 2. g4 Qh4, as (row, column) pairs: rank 8 is row 0 and file a column 0. */
  function FoolsMateMoves(): seq<Move> {
    [Move(6, 5, 5, 5), Move(1, 4, 3, 4), Move(6, 6, 4, 6), Move(0, 3, 4, 7)]
  }

  /** The squares of the position after the fool's mate: the moved pieces are marked as moved, their origins emptied. */
  function FoolsMatePiece(row: int, col: int): Piece
    requires InBounds(row, col)
  {
    if (row, col) == (5, 5) || (row, col) == (4, 6) then Piece(Pawn, 0, 1)
    else if (row, col) == (3, 4) then Piece(Pawn, 1, 1)
    else if (row, col) == (4, 7) then Piece(Queen, 1, 1)
    else if (row, col) == (6, 5) || (row, col) == (6, 6) || (row, col) == (1, 4) || (row, col) == (0, 3) then DefaultPiece
    else InitialPiece(row, col)
  }

  /** The grid after playing the moves from the starting position. */
  function PlayAll(g: Grid, moves: seq<Move>): Grid
    decreases moves
  {
    if moves == [] then g else PlayAll(Apply(g, moves[0]), moves[1..])
  }

  /** Each move is legal where it is played. */
  predicate AllLegal(g: Grid, moves: seq<Move>)
    decreases moves
  {
    moves == [] || (Legal(g, moves[0]) && AllLegal(Apply(g, moves[0]), moves[1..]))
  }

  /** The grid after the first n moves of the fool's mate. */
  function FoolsMateAfter(n: nat): Grid
    requires n <= 4
  {
    if n == 0 then InitialGrid() else Apply(FoolsMateAfter(n - 1), FoolsMateMoves()[n - 1])
  }

  /** Playing the whole sequence is playing the moves one by one; it is legal when each move is. */
  lemma FoolsMateInTurn()
    ensures PlayAll(InitialGrid(), FoolsMateMoves()) == FoolsMateAfter(4)
    ensures AllLegal(InitialGrid(), FoolsMateMoves()) <==>
      forall n :: 0 <= n < 4 ==> Legal(FoolsMateAfter(n), FoolsMateMoves()[n])
  {
    var ms := FoolsMateMoves();
    assert ms[1..] == ms[1..4] && ms[1..4][1..] == ms[2..4] && ms[2..4][1..] == ms[3..4] && ms[3..4][1..] == [];
    assert PlayAll(FoolsMateAfter(3), ms[3..4]) == FoolsMateAfter(4);
    assert PlayAll(FoolsMateAfter(2), ms[2..4]) == FoolsMateAfter(4);
    assert PlayAll(FoolsMateAfter(1), ms[1..4]) == FoolsMateAfter(4);
    assert AllLegal(FoolsMateAfter(3), ms[3..4]) == Legal(FoolsMateAfter(3), ms[3]);
    assert AllLegal(FoolsMateAfter(2), ms[2..4]) == (Legal(FoolsMateAfter(2), ms[2]) && Legal(FoolsMateAfter(3), ms[3]));
    assert AllLegal(FoolsMateAfter(1), ms[1..4]) ==
      (Legal(FoolsMateAfter(1), ms[1]) && Legal(FoolsMateAfter(2), ms[2]) && Legal(FoolsMateAfter(3), ms[3]));
  }

  /** The three pawn moves, f3, e5 and g4, are legal in turn. */
  lemma FoolsMatePawnMovesLegal()
    ensures forall n :: 0 <= n < 3 ==> Legal(FoolsMateAfter(n), FoolsMateMoves()[n])
  {
    var ms := FoolsMateMoves();
    var g0, g1, g2 := FoolsMateAfter(0), FoolsMateAfter(1), FoolsMateAfter(2);
    assert g0[6][5] == Piece(Pawn, 0, 0) && g0[5][5] == DefaultPiece;
    assert Legal(g0, ms[0]);
    assert g1[1][4] == Piece(Pawn, 1, 0) && g1[2][4] == DefaultPiece && g1[3][4] == DefaultPiece;
    assert Legal(g1, ms[1]);
    assert g2[6][6] == Piece(Pawn, 0, 0) && g2[5][6] == DefaultPiece && g2[4][6] == DefaultPiece;
    assert Legal(g2, ms[2]);
  }

  /** Then Qh4 is legal: d8 to h4 is a diagonal over e7, f6 and g5, all empty. */
  lemma FoolsMateQueenMoveLegal()
    ensures Legal(FoolsMateAfter(3), FoolsMateMoves()[3])
  {
    var g3 := FoolsMateAfter(3);
    assert g3[0][3] == Piece(Queen, 1, 0);
    assert g3[1][4] == DefaultPiece && g3[2][5] == DefaultPiece && g3[3][6] == DefaultPiece && g3[4][7] == DefaultPiece;
    StraightLineRule(g3, 0, 3, 4, 7);
    assert forall k :: 1 <= k < 4 ==> WalkSquare(0, 3, 4, 7, k) == (k, 3 + k);
  }

  /** The four moves of the fool's mate are legal in turn and lead to the position `FoolsMatePiece` describes. */
  lemma FoolsMatePosition()
    ensures AllLegal(InitialGrid(), FoolsMateMoves())
    ensures forall r, c :: InBounds(r, c) ==> PlayAll(InitialGrid(), FoolsMateMoves())[r][c] == FoolsMatePiece(r, c)
  {
    FoolsMateInTurn();
    FoolsMatePawnMovesLegal();
    FoolsMateQueenMoveLegal();
    forall r, c | InBounds(r, c)
      ensures FoolsMateAfter(4)[r][c] == FoolsMatePiece(r, c)
    {
      assert FoolsMateAfter(0)[r][c] == InitialPiece(r, c);
    }
  }

  predicate IsFoolsMate(g: Grid) {
    forall r, c :: 0 <= r < 8 && 0 <= c < 8 ==> g[r][c] == FoolsMatePiece(r, c)
  }

  /**
   * A Black Queen on h4 gives check to a White King on e1 when f2 and g3
   * are empty, and to one on f2 when g3 is empty.
   */
  lemma QueenChecksKing(h: Grid, kingRow: int, kingCol: int)
    requires h[4][7].kind == Queen && h[4][7].color == 1 && h[5][6].kind == Empty
    requires (kingRow, kingCol) == (6, 5) || ((kingRow, kingCol) == (7, 4) && h[6][5].kind == Empty)
    requires h[kingRow][kingCol].kind == King && h[kingRow][kingCol].color == 0
    ensures Attacked(h, kingRow, kingCol, 0)
  {
    StraightLineRule(h, 4, 7, kingRow, kingCol);
    assert WalkSquare(4, 7, kingRow, kingCol, 1) == (5, 6);
    assert WalkSquare(4, 7, kingRow, kingCol, 2) == (6, 5);
    assert AttackerAt(h, 4, 7, kingRow, kingCol, 0);
  }

  /**
   * The geometry of the fool's mate position around the check: of the
   * White pieces only the King has the shape to reach f2, only the h2 pawn
   * to reach g3, and only the h2 pawn and the h1 rook to reach h4.
   */
  lemma ShapesTowardsCheck()
    ensures forall i, j :: InBounds(i, j) && FoolsMatePiece(i, j).color == 0 ==>
      && (Reaches(FoolsMatePiece(i, j), i - 6, j - 5) ==> (i, j) == (7, 4))
      && (Reaches(FoolsMatePiece(i, j), i - 5, j - 6) ==> (i, j) == (6, 7))
      && (Reaches(FoolsMatePiece(i, j), i - 4, j - 7) ==> (i, j) == (6, 7) || (i, j) == (7, 7))
  {
  }

  /** The White King on e1 has no square in reach but f2 that is empty or opposing. */
  lemma KingHasOnlyF2()
    ensures forall r, c :: InBounds(r, c) && KingShape(7 - r, 4 - c) && FoolsMatePiece(r, c).color != 0 ==> false
    ensures forall r, c :: InBounds(r, c) && KingShape(7 - r, 4 - c) && FoolsMatePiece(r, c).kind == Empty ==> (r, c) == (6, 5)
  {
  }

  /** In the fool's mate position only the King can move to f2. */
  lemma OnlyKingOntoF2(g: Grid, i: int, j: int)
    requires IsFoolsMate(g) && InBounds(i, j) && g[i][j].color == 0 && (i, j) != (7, 4)
    ensures !LegalMove(g, i, j, 6, 5)
  {
    if LegalMove(g, i, j, 6, 5) {
      LegalNeedsShape(g, i, j, 6, 5);
      assert g[i][j] == FoolsMatePiece(i, j);
      ShapesTowardsCheck();
    }
  }

  /** In the fool's mate position no White piece can move to g3: the h2 pawn has nothing there to capture. */
  lemma NoneOntoG3(g: Grid, i: int, j: int)
    requires IsFoolsMate(g) && InBounds(i, j) && g[i][j].color == 0
    ensures !LegalMove(g, i, j, 5, 6)
  {
    if LegalMove(g, i, j, 5, 6) {
      LegalNeedsShape(g, i, j, 5, 6);
      assert g[i][j] == FoolsMatePiece(i, j);
      ShapesTowardsCheck();
    }
  }

  /**
   * In the fool's mate position no White piece can capture the Queen on
   * h4: the h2 pawn cannot capture straight ahead, and the h1 rook is
   * blocked by it.
   */
  lemma NoneOntoH4(g: Grid, i: int, j: int)
    requires IsFoolsMate(g) && InBounds(i, j) && g[i][j].color == 0
    ensures !LegalMove(g, i, j, 4, 7)
  {
    RookH1Blocked(g);
    assert g[4][7] == FoolsMatePiece(4, 7) && g[6][7] == FoolsMatePiece(6, 7);
    if LegalMove(g, i, j, 4, 7) {
      LegalNeedsShape(g, i, j, 4, 7);
      assert g[i][j] == FoolsMatePiece(i, j);
      ShapesTowardsCheck();
    }
  }

  /** In the fool's mate position the h2 pawn keeps the h1 rook from h4. */
  lemma RookH1Blocked(g: Grid)
    requires IsFoolsMate(g)
    ensures !LegalMove(g, 7, 7, 4, 7)
  {
    assert g[7][7] == FoolsMatePiece(7, 7) && g[6][7] == FoolsMatePiece(6, 7);
    StraightLineRule(g, 7, 7, 4, 7);
    assert WalkSquare(7, 7, 4, 7, 1) == (6, 7);
  }

  /** In the fool's mate position the White King's only move is to f2. */
  lemma KingOnlyToF2(g: Grid, r: int, c: int)
    requires IsFoolsMate(g) && InBounds(r, c)
    ensures LegalMove(g, 7, 4, r, c) ==> (r, c) == (6, 5)
  {
    if LegalMove(g, 7, 4, r, c) {
      LegalNeedsShape(g, 7, 4, r, c);
      IllegalForEveryKind(g, 7, 4, r, c);
      assert g[7][4] == FoolsMatePiece(7, 4) && g[r][c] == FoolsMatePiece(r, c);
      KingHasOnlyF2();
    }
  }

  /**
   * In the fool's mate position no White move lands on f2 or g3, between
   * the Queen and the King, or captures the Queen on h4, except the King's
   * own step to f2, its only move.
   */
  lemma NoInterposition(g: Grid, mv: Move)
    requires IsFoolsMate(g) && IsCandidate(g, 0, mv)
    ensures (mv.oldRow, mv.oldCol) == (7, 4) ==> (mv.newRow, mv.newCol) == (6, 5)
    ensures (mv.oldRow, mv.oldCol) != (7, 4) ==> (mv.newRow, mv.newCol) != (6, 5)
    ensures (mv.newRow, mv.newCol) != (5, 6)
    ensures (mv.newRow, mv.newCol) != (4, 7)
  {
    var i, j, r, c := mv.oldRow, mv.oldCol, mv.newRow, mv.newCol;
    if (i, j) != (7, 4) {
      OnlyKingOntoF2(g, i, j);
    }
    NoneOntoG3(g, i, j);
    NoneOntoH4(g, i, j);
    if (i, j) == (7, 4) {
      KingOnlyToF2(g, r, c);
    }
  }

  /** In the fool's mate position the only King of either colour stands on its home square. */
  lemma FoolsMateKingSquares()
    ensures forall r, c :: InBounds(r, c) && IsKingOf(FoolsMatePiece(r, c), 0) ==> (r, c) == (7, 4)
    ensures forall r, c :: InBounds(r, c) && IsKingOf(FoolsMatePiece(r, c), 1) ==> (r, c) == (0, 4)
  {
  }

  /** After a White move from the fool's mate position the scan settles on the White King where it now stands. */
  lemma KingAfterMove(g: Grid, mv: Move)
    requires IsFoolsMate(g)
    requires (mv.oldRow, mv.oldCol) != (mv.newRow, mv.newCol) && (mv.newRow, mv.newCol) != (7, 4)
    ensures KingLocation(Apply(g, mv), 0) ==
      Some(if (mv.oldRow, mv.oldCol) == (7, 4) then (mv.newRow, mv.newCol) else (7, 4))
  {
    var h := Apply(g, mv);
    var k := if (mv.oldRow, mv.oldCol) == (7, 4) then (mv.newRow, mv.newCol) else (7, 4);
    FoolsMateKingSquares();
    assert g[mv.oldRow][mv.oldCol] == FoolsMatePiece(mv.oldRow, mv.oldCol);
    forall r, c | InBounds(r, c) && IsKingOf(h[r][c], 0)
      ensures (r, c) == k
    {
      if (r, c) != (mv.newRow, mv.newCol) {
        assert h[r][c] == g[r][c] == FoolsMatePiece(r, c);
      }
    }
    assert g[7][4] == FoolsMatePiece(7, 4);
    SingleKingIsLocated(h, 0, k.0, k.1);
  }

  /**
   * A White move from the fool's mate position that neither blocks nor
   * captures the Queen, and takes the King to f2 if it moves the King,
   * leaves the White King attacked.
   */
  lemma KingStillChecked(g: Grid, mv: Move)
    requires IsFoolsMate(g)
    requires g[mv.oldRow][mv.oldCol].kind != Empty && g[mv.oldRow][mv.oldCol].color == 0
    requires (mv.oldRow, mv.oldCol) != (mv.newRow, mv.newCol) && (mv.newRow, mv.newCol) != (7, 4)
    requires (mv.newRow, mv.newCol) != (5, 6) && (mv.newRow, mv.newCol) != (4, 7)
    requires (mv.oldRow, mv.oldCol) == (7, 4) <==> (mv.newRow, mv.newCol) == (6, 5)
    ensures KingSafety(Apply(g, mv), 0) == 0
  {
    KingAfterMove(g, mv);
    var k := if (mv.oldRow, mv.oldCol) == (7, 4) then (mv.newRow, mv.newCol) else (7, 4);
    SquaresAfterMove(g, mv, k);
    QueenChecksKing(Apply(g, mv), k.0, k.1);
  }

  /** The squares `KingStillChecked` needs after such a move: the Queen, g3 and f2, and the King's square k. */
  lemma SquaresAfterMove(g: Grid, mv: Move, k: (int, int))
    requires IsFoolsMate(g)
    requires g[mv.oldRow][mv.oldCol].kind != Empty && g[mv.oldRow][mv.oldCol].color == 0
    requires (mv.oldRow, mv.oldCol) != (mv.newRow, mv.newCol) && (mv.newRow, mv.newCol) != (7, 4)
    requires (mv.newRow, mv.newCol) != (5, 6) && (mv.newRow, mv.newCol) != (4, 7)
    requires (mv.oldRow, mv.oldCol) == (7, 4) <==> (mv.newRow, mv.newCol) == (6, 5)
    requires k == if (mv.oldRow, mv.oldCol) == (7, 4) then (mv.newRow, mv.newCol) else (7, 4)
    ensures var h := Apply(g, mv);
      && h[4][7].kind == Queen && h[4][7].color == 1 && h[5][6].kind == Empty
      && ((k.0, k.1) == (6, 5) || ((k.0, k.1) == (7, 4) && h[6][5].kind == Empty))
      && InBounds(k.0, k.1) && h[k.0][k.1].kind == King && h[k.0][k.1].color == 0
  {
    assert g[mv.oldRow][mv.oldCol] == FoolsMatePiece(mv.oldRow, mv.oldCol);
    assert g[7][4] == FoolsMatePiece(7, 4);
    assert g[4][7] == FoolsMatePiece(4, 7) && g[5][6] == FoolsMatePiece(5, 6) && g[6][5] == FoolsMatePiece(6, 5);
  }

  /** Every White move from the fool's mate position leaves the White King attacked. */
  lemma MoveKeepsCheck(g: Grid, mv: Move)
    requires IsFoolsMate(g) && IsCandidate(g, 0, mv)
    ensures KingSafety(Apply(g, mv), 0) == 0
  {
    NoInterposition(g, mv);
    IllegalForEveryKind(g, mv.oldRow, mv.oldCol, mv.newRow, mv.newCol);
    assert g[7][4] == FoolsMatePiece(7, 4);
    KingStillChecked(g, mv);
  }

  /** In the fool's mate position White's King is attacked. */
  lemma WhiteInCheck(g: Grid)
    requires IsFoolsMate(g)
    ensures KingSafety(g, 0) == 0
  {
    assert g[7][4] == FoolsMatePiece(7, 4);
    assert g[4][7] == FoolsMatePiece(4, 7) && g[5][6] == FoolsMatePiece(5, 6) && g[6][5] == FoolsMatePiece(6, 5);
    forall r, c | InBounds(r, c) && IsKingOf(g[r][c], 0)
      ensures (r, c) == (7, 4)
    {
      assert g[r][c] == FoolsMatePiece(r, c);
    }
    SingleKingIsLocated(g, 0, 7, 4);
    QueenChecksKing(g, 7, 4);
  }

  /** No White piece of the fool's mate position has the geometry to reach e8. */
  lemma BlackKingOutOfReach()
    ensures forall i, j :: InBounds(i, j) && FoolsMatePiece(i, j).color == 0 ==> !Reaches(FoolsMatePiece(i, j), i, j - 4)
  {
  }

  /** In the fool's mate position no White piece can reach Black's King on e8. */
  lemma BlackKingSafe(g: Grid)
    requires IsFoolsMate(g)
    ensures KingSafety(g, 1) == 1
  {
    assert g[0][4] == FoolsMatePiece(0, 4);
    forall r, c | InBounds(r, c) && IsKingOf(g[r][c], 1)
      ensures (r, c) == (0, 4)
    {
      assert g[r][c] == FoolsMatePiece(r, c);
    }
    SingleKingIsLocated(g, 1, 0, 4);
    E8Unattacked(g);
  }

  /** In the fool's mate position no White piece attacks e8. */
  lemma E8Unattacked(g: Grid)
    requires IsFoolsMate(g)
    ensures !Attacked(g, 0, 4, 1)
  {
    BlackKingOutOfReach();
    forall i, j | InBounds(i, j)
      ensures !AttackerAt(g, i, j, 0, 4, 1)
    {
      assert g[i][j] == FoolsMatePiece(i, j);
      if LegalMove(g, i, j, 0, 4) {
        LegalNeedsShape(g, i, j, 0, 4);
      }
    }
  }

  /**
   * The fool's mate: after 1. f3 e5 2. g4 Qh4 White, to move, is mated
   * (`isCheckmate` gives -1), and Black's King is safe.
   */
  lemma FoolsMateScenario()
    ensures var g := PlayAll(InitialGrid(), FoolsMateMoves());
      CheckmateStatus(g, 0) == -1 && KingSafety(g, 1) == 1
  {
    var g := PlayAll(InitialGrid(), FoolsMateMoves());
    FoolsMatePosition();
    WhiteInCheck(g);
    BlackKingSafe(g);
    forall mv | IsCandidate(g, 0, mv)
      ensures KingSafety(Apply(g, mv), 0) == 0
    {
      MoveKeepsCheck(g, mv);
    }
    CheckmateCodes(g, 0);
  }
}
