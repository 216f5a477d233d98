/**
 * The stand-alone `ChessBoard` of a.cpp: its own piece kinds and colours, a
 * board of `ChessPiece` values indexed [y][x] with row 0 at rank 8, a move
 * validator that checks only the start and end squares, and the in-place
 * set-up and move of the board.
 */
module SimpleChess {
  /** a.cpp's `PieceType`; `None` marks an empty square. */
  datatype Kind = Pawn | Rook | Knight | Bishop | Queen | King | None

  /** a.cpp's `PieceColor`. */
  datatype Side = White | Black

  datatype ChessPiece = ChessPiece(kind: Kind, color: Side)

  /** What an empty square holds after `resize` and after a move: (None, White). */
  const Vacant := ChessPiece(None, White)

  /** The `board` vector once `initializeBoard` has sized it: eight rows of eight squares. */
  type Layout = b: seq<seq<ChessPiece>> | |b| == 8 && forall y :: 0 <= y < |b| ==> |b[y]| == 8
    witness seq(8, y => seq(8, x => Vacant))

  function Abs(n: int): nat {
    if n < 0 then -n else n
  }

  /** Column x and row y are both on the board. */
  predicate OnBoard(x: int, y: int) {
    0 <= x < 8 && 0 <= y < 8
  }

  /** The string form's squares: file letter minus 'a' and '8' minus the rank digit. */
  function ParseMove(move: string): (int, int, int, int)
    requires |move| == 4
  {
    (move[0] as int - 'a' as int, '8' as int - move[1] as int, move[2] as int - 'a' as int, '8' as int - move[3] as int)
  }

  /** The kinds `initializePieces` puts on a back rank, from column 0 to 7: R N B Q K B N R. */
  function BackRankKind(x: int): Kind {
    if x == 0 || x == 7 then Rook
    else if x == 1 || x == 6 then Knight
    else if x == 2 || x == 5 then Bishop
    else if x == 3 then Queen
    else King
  }

  /** The square (x, y) of the starting position: Black on rows 0 and 1, White on rows 6 and 7. */
  function InitialPiece(x: int, y: int): ChessPiece {
    if y == 0 then ChessPiece(BackRankKind(x), Black)
    else if y == 1 then ChessPiece(Pawn, Black)
    else if y == 6 then ChessPiece(Pawn, White)
    else if y == 7 then ChessPiece(BackRankKind(x), White)
    else Vacant
  }

  function InitialLayout(): (b: Layout)
    ensures forall x, y :: 0 <= x < 8 && 0 <= y < 8 ==> b[y][x] == InitialPiece(x, y)
  {
    seq(8, y => seq(8, x => InitialPiece(x, y)))
  }

  /** The row step a.cpp:211 gives a pawn: +1 for White, -1 for Black. */
  function DirectionAsWritten(color: Side): int {
    if color == White then 1 else -1
  }

  /** The row a.cpp:219 allows a double step from: 1 for White, 6 for Black. */
  function DoubleStepRowAsWritten(color: Side): int {
    if color == White then 1 else 6
  }

  /**
   * `isValidPawnMove` (a.cpp:210-232) as written: White moves towards
   * higher rows and double-steps from row 1, Black the other way from row
   * 6, although `initializeBoard` puts White's pawns on row 6 and Black's
   * on row 1.
   */
  function PawnMoveAsWritten(b: Layout, startX: int, startY: int, endX: int, endY: int, color: Side): bool
    requires OnBoard(startX, startY) && OnBoard(endX, endY)
  {
    var direction := DirectionAsWritten(color);
    (startX == endX && startY + direction == endY && b[endY][endX].kind == None)
    || (startX == endX && startY + 2 * direction == endY && startY == DoubleStepRowAsWritten(color)
        && b[startY + direction][startX].kind == None && b[endY][endX].kind == None)
    || (Abs(startX - endX) == 1 && startY + direction == endY
        && b[endY][endX].kind != None && b[endY][endX].color != color)
  }

  /** The row step of a pawn that advances towards the opponent's side of the starting position. */
  function Forward(color: Side): int {
    if color == White then -1 else 1
  }

  /** The row a pawn of the colour starts on in `initializeBoard`'s layout. */
  function PawnRow(color: Side): int {
    if color == White then 6 else 1
  }

  /**
   * The pawn rule with the direction matching the layout: one step forward
   * onto an empty square, two from the starting row over two empty
   * squares, or one diagonal step forward onto a piece of the other colour.
   */
  function PawnMove(b: Layout, startX: int, startY: int, endX: int, endY: int, color: Side): bool
    requires OnBoard(startX, startY) && OnBoard(endX, endY)
  {
    var direction := Forward(color);
    (startX == endX && startY + direction == endY && b[endY][endX].kind == None)
    || (startX == endX && startY + 2 * direction == endY && startY == PawnRow(color)
        && b[startY + direction][startX].kind == None && b[endY][endX].kind == None)
    || (Abs(startX - endX) == 1 && startY + direction == endY
        && b[endY][endX].kind != None && b[endY][endX].color != color)
  }

  /** `isValidRookMove`: exactly one of row and column changes. */
  predicate RookMove(startX: int, startY: int, endX: int, endY: int) {
    (startY == endY && startX != endX) || (startY != endY && startX == endX)
  }

  /** `isValidKnightMove`: two rows and one column, or one row and two columns. */
  predicate KnightMove(startX: int, startY: int, endX: int, endY: int) {
    (Abs(startY - endY) == 2 && Abs(startX - endX) == 1) || (Abs(startY - endY) == 1 && Abs(startX - endX) == 2)
  }

  /** `isValidBishopMove`: as many rows as columns. */
  predicate BishopMove(startX: int, startY: int, endX: int, endY: int) {
    Abs(startY - endY) == Abs(startX - endX)
  }

  /** `isValidKingMove`: at most one row and one column. */
  predicate KingMove(startX: int, startY: int, endX: int, endY: int) {
    Abs(startY - endY) <= 1 && Abs(startX - endX) <= 1
  }

  /**
   * The checks `isValidMove(int, int, int, int)` makes before the kind's
   * rule: both squares on the board, a piece on the start square and no
   * piece of its colour on the end square. a.cpp reads both squares before
   * its bounds check; here the check comes first.
   */
  predicate Screened(b: Layout, startX: int, startY: int, endX: int, endY: int) {
    OnBoard(startX, startY) && OnBoard(endX, endY)
    && b[startY][startX].kind != None
    && (b[endY][endX].kind == None || b[endY][endX].color != b[startY][startX].color)
  }

  /** The rule of every kind but the pawn, which needs the board: a.cpp:184-197. */
  predicate KindMove(k: Kind, startX: int, startY: int, endX: int, endY: int) {
    match k
    case Rook => RookMove(startX, startY, endX, endY)
    case Knight => KnightMove(startX, startY, endX, endY)
    case Bishop => BishopMove(startX, startY, endX, endY)
    case Queen => RookMove(startX, startY, endX, endY) || BishopMove(startX, startY, endX, endY)
    case King => KingMove(startX, startY, endX, endY)
    case _ => false
  }

  /**
   * `isValidMove(int, int, int, int)` as written: the screening checks and
   * the kind's own rule, with a.cpp's pawn direction; no square in between
   * is looked at.
   */
  function ValidMove(b: Layout, startX: int, startY: int, endX: int, endY: int): (ok: bool)
    ensures ok ==> Screened(b, startX, startY, endX, endY)
    ensures ok ==> (startX, startY) != (endX, endY)
  {
    Screened(b, startX, startY, endX, endY)
    && if b[startY][startX].kind == Pawn then PawnMoveAsWritten(b, startX, startY, endX, endY, b[startY][startX].color)
       else KindMove(b[startY][startX].kind, startX, startY, endX, endY)
  }

  /** The same validator with the pawn direction that matches the layout: the corrected program. */
  function ValidMoveCorrected(b: Layout, startX: int, startY: int, endX: int, endY: int): (ok: bool)
    ensures ok ==> Screened(b, startX, startY, endX, endY)
    ensures ok ==> (startX, startY) != (endX, endY)
  {
    Screened(b, startX, startY, endX, endY)
    && if b[startY][startX].kind == Pawn then PawnMove(b, startX, startY, endX, endY, b[startY][startX].color)
       else KindMove(b[startY][startX].kind, startX, startY, endX, endY)
  }

  /**
   * `isValidMove(string)`: four characters whose squares `ValidMove`
   * accepts; only strings naming two squares a1..h8 can pass.
   */
  function ValidMoveString(b: Layout, move: string): (ok: bool)
    ensures ok ==> |move| == 4 && 'a' <= move[0] <= 'h' && '1' <= move[1] <= '8' && 'a' <= move[2] <= 'h' && '1' <= move[3] <= '8'
  {
    if |move| != 4 then false
    else
      var (startX, startY, endX, endY) := ParseMove(move);
      ValidMove(b, startX, startY, endX, endY)
  }

  /** `isValidMove(string)` over the corrected validator. */
  function ValidMoveStringCorrected(b: Layout, move: string): (ok: bool)
    ensures ok ==> |move| == 4 && 'a' <= move[0] <= 'h' && '1' <= move[1] <= '8' && 'a' <= move[2] <= 'h' && '1' <= move[3] <= '8'
  {
    if |move| != 4 then false
    else
      var (startX, startY, endX, endY) := ParseMove(move);
      ValidMoveCorrected(b, startX, startY, endX, endY)
  }

  /** The board after `movePiece(int, …)`: the start piece copied to the end square, then the start square vacated. */
  function Moved(b: Layout, startX: int, startY: int, endX: int, endY: int): (r: Layout)
    requires OnBoard(startX, startY) && OnBoard(endX, endY)
    ensures r[startY][startX] == Vacant
    ensures (endX, endY) != (startX, startY) ==> r[endY][endX] == b[startY][startX]
    ensures forall x, y :: 0 <= x < 8 && 0 <= y < 8 && (x, y) != (startX, startY) && (x, y) != (endX, endY) ==> r[y][x] == b[y][x]
  {
    var copied := b[endY := b[endY][endX := b[startY][startX]]];
    copied[startY := copied[startY][startX := Vacant]]
  }

  class ChessBoard {
    var board: Layout

    /** The constructor runs `initializeBoard`. */
    constructor()
      ensures board == InitialLayout()
    {
      board := seq(8, y => seq(8, x => Vacant));
      new;
      InitializeBoard();
    }

    /**
     * `initializeBoard` (a.cpp:107-119) on a board whose `resize` leaves
     * eight vacant rows: pawns on rows 1 and 6, then both back ranks.
     */
    method InitializeBoard()
      modifies this
      ensures board == InitialLayout()
    {
      board := seq(8, y => seq(8, x => Vacant));
      for file := 0 to 8
        invariant forall x, y :: 0 <= x < 8 && 0 <= y < 8 ==>
          board[y][x] == if (y == 1 || y == 6) && x < file then InitialPiece(x, y) else Vacant
      {
        board := board[1 := board[1][file := ChessPiece(Pawn, Black)]];
        board := board[6 := board[6][file := ChessPiece(Pawn, White)]];
      }
      ghost var pawns := board;
      InitializePieces(0, Black);
      ghost var blackRank := board;
      InitializePieces(7, White);
      forall y | 0 <= y < 8
        ensures board[y] == InitialLayout()[y]
      {
        forall x | 0 <= x < 8
          ensures board[y][x] == InitialLayout()[y][x]
        {
          assert board[y][x] == if y == 7 then ChessPiece(BackRankKind(x), White) else blackRank[y][x];
          assert blackRank[y][x] == if y == 0 then ChessPiece(BackRankKind(x), Black) else pawns[y][x];
        }
      }
    }

    /** `initializePieces(rank, color)`: R N B Q K B N R of the colour across row `rank`, nothing else changed. */
    method InitializePieces(rank: int, color: Side)
      requires 0 <= rank < 8
      modifies this
      ensures forall x, y {:trigger board[y][x]} :: 0 <= x < 8 && 0 <= y < 8 ==>
        board[y][x] == if y == rank then ChessPiece(BackRankKind(x), color) else old(board)[y][x]
    {
      var row := board[rank];
      row := row[0 := ChessPiece(Rook, color)];
      row := row[1 := ChessPiece(Knight, color)];
      row := row[2 := ChessPiece(Bishop, color)];
      row := row[3 := ChessPiece(Queen, color)];
      row := row[4 := ChessPiece(King, color)];
      row := row[5 := ChessPiece(Bishop, color)];
      row := row[6 := ChessPiece(Knight, color)];
      row := row[7 := ChessPiece(Rook, color)];
      board := board[rank := row];
    }

    /** `movePiece(int, …)`, which trusts its caller to have validated the move. */
    method MoveSquares(startX: int, startY: int, endX: int, endY: int)
      requires OnBoard(startX, startY) && OnBoard(endX, endY)
      modifies this
      ensures board == Moved(old(board), startX, startY, endX, endY)
    {
      board := board[endY := board[endY][endX := board[startY][startX]]];
      board := board[startY := board[startY][startX := Vacant]];
    }

    /** `movePiece(string)`: the move is made when `isValidMove` accepts it and the board is left alone otherwise. */
    method MovePiece(move: string) returns (moved: bool)
      modifies this
      ensures moved == ValidMoveString(old(board), move)
      ensures moved ==> var (startX, startY, endX, endY) := ParseMove(move);
        board == Moved(old(board), startX, startY, endX, endY)
      ensures !moved ==> board == old(board)
    {
      moved := ValidMoveString(board, move);
      if moved {
        var (startX, startY, endX, endY) := ParseMove(move);
        MoveSquares(startX, startY, endX, endY);
      }
    }

    /** `movePiece(string)` in the corrected program, where pawns advance towards the opponent. */
    method MovePieceCorrected(move: string) returns (moved: bool)
      modifies this
      ensures moved == ValidMoveStringCorrected(old(board), move)
      ensures moved ==> var (startX, startY, endX, endY) := ParseMove(move);
        board == Moved(old(board), startX, startY, endX, endY)
      ensures !moved ==> board == old(board)
    {
      moved := ValidMoveStringCorrected(board, move);
      if moved {
        var (startX, startY, endX, endY) := ParseMove(move);
        MoveSquares(startX, startY, endX, endY);
      }
    }
  }

  /**
   * Apart from pawns, whether a move is valid depends only on the start and
   * end squares: no piece standing in between blocks a Rook, Bishop or
   * Queen.
   */
  lemma NoPathCheck(b1: Layout, b2: Layout, startX: int, startY: int, endX: int, endY: int)
    requires OnBoard(startX, startY) && OnBoard(endX, endY)
    requires b1[startY][startX] == b2[startY][startX] && b1[endY][endX] == b2[endY][endX]
    requires b1[startY][startX].kind != Pawn
    ensures ValidMove(b1, startX, startY, endX, endY) == ValidMove(b2, startX, startY, endX, endY)
  {
  }

  /**
   * Each kind's geometry once the start holds a piece and the end no piece
   * of its colour: a Rook changes exactly one coordinate, a Bishop as many
   * rows as columns, a Queen either, a King at most one of each, and a
   * Knight one and two in some order.
   */
  lemma KindRules(b: Layout, startX: int, startY: int, endX: int, endY: int)
    requires OnBoard(startX, startY) && OnBoard(endX, endY)
    requires b[endY][endX].kind == None || b[endY][endX].color != b[startY][startX].color
    ensures var dx, dy, k := Abs(startX - endX), Abs(startY - endY), b[startY][startX].kind;
      && (k == Rook ==> (ValidMove(b, startX, startY, endX, endY) <==> (dx == 0) != (dy == 0)))
      && (k == Bishop ==> (ValidMove(b, startX, startY, endX, endY) <==> dx == dy))
      && (k == Queen ==> (ValidMove(b, startX, startY, endX, endY) <==> (dx == 0) != (dy == 0) || dx == dy))
      && (k == King ==> (ValidMove(b, startX, startY, endX, endY) <==> dx <= 1 && dy <= 1))
      && (k == Knight ==> (ValidMove(b, startX, startY, endX, endY) <==> {dx, dy} == {1, 2}))
      && (k == None ==> !ValidMove(b, startX, startY, endX, endY))
  {
    var dx, dy := Abs(startX - endX), Abs(startY - endY);
    if {dx, dy} == {1, 2} {
      assert dx in {1, 2} && dy in {1, 2} && dx != dy by {
        assert dx in {dx, dy} && dy in {dx, dy};
        assert 1 in {dx, dy} && 2 in {dx, dy};
      }
    }
  }

  /** The correction changes only the pawn rule: every other move is valid in both programs or in neither. */
  lemma CorrectionOnlyChangesPawns(b: Layout, startX: int, startY: int, endX: int, endY: int)
    requires OnBoard(startX, startY) && b[startY][startX].kind != Pawn
    ensures ValidMoveCorrected(b, startX, startY, endX, endY) == ValidMove(b, startX, startY, endX, endY)
  {
  }

  /**
   * A pawn move a.cpp accepts, in closed form: one row in a.cpp's direction
   * (+1 for White), straight onto an empty square or one column aside onto
   * a piece of the other colour, or two rows straight over an empty square
   * from row 1 for White and row 6 for Black; and every such move is
   * accepted.
   */
  lemma PawnAdvances(b: Layout, startX: int, startY: int, endX: int, endY: int)
    requires OnBoard(startX, startY) && OnBoard(endX, endY) && b[startY][startX].kind == Pawn
    ensures var p, f := b[startY][startX], DirectionAsWritten(b[startY][startX].color);
      ValidMove(b, startX, startY, endX, endY) <==>
        && (endY == startY + f
            || (endY == startY + 2 * f && startY == DoubleStepRowAsWritten(p.color) && endX == startX
                && b[startY + f][startX].kind == None))
        && Abs(startX - endX) <= 1
        && (endX == startX ==> b[endY][endX].kind == None)
        && (endX != startX ==> b[endY][endX].kind != None && b[endY][endX].color != p.color)
  {
  }

  /**
   * The same closed form for the corrected program, with the direction
   * towards the opponent's side (-1 for White) and the double step from
   * the rows the pawns start on, 6 for White and 1 for Black.
   */
  lemma PawnAdvancesCorrected(b: Layout, startX: int, startY: int, endX: int, endY: int)
    requires OnBoard(startX, startY) && OnBoard(endX, endY) && b[startY][startX].kind == Pawn
    ensures var p, f := b[startY][startX], Forward(b[startY][startX].color);
      ValidMoveCorrected(b, startX, startY, endX, endY) <==>
        && (endY == startY + f
            || (endY == startY + 2 * f && startY == PawnRow(p.color) && endX == startX
                && b[startY + f][startX].kind == None))
        && Abs(startX - endX) <= 1
        && (endX == startX ==> b[endY][endX].kind == None)
        && (endX != startX ==> b[endY][endX].kind != None && b[endY][endX].color != p.color)
  {
  }

  /** In the corrected program every pawn of the starting position may step one or two squares forward. */
  lemma OpeningPawnMoves(x: int)
    requires 0 <= x < 8
    ensures ValidMoveCorrected(InitialLayout(), x, 6, x, 5) && ValidMoveCorrected(InitialLayout(), x, 6, x, 4)
    ensures ValidMoveCorrected(InitialLayout(), x, 1, x, 2) && ValidMoveCorrected(InitialLayout(), x, 1, x, 3)
  {
    var b := InitialLayout();
    assert b[6][x] == ChessPiece(Pawn, White) && b[1][x] == ChessPiece(Pawn, Black);
    assert b[5][x] == Vacant && b[4][x] == Vacant && b[2][x] == Vacant && b[3][x] == Vacant;
  }

  /**
   * In the corrected program the example moves main's prompts suggest,
   * e2e4 for White and then e7e5 for Black, are valid.
   */
  lemma PromptExamplesAccepted()
    ensures ValidMoveStringCorrected(InitialLayout(), "e2e4")
    ensures ValidMoveStringCorrected(Moved(InitialLayout(), 4, 6, 4, 4), "e7e5")
  {
    OpeningPawnMoves(4);
    assert ParseMove("e2e4") == (4, 6, 4, 4);
    assert ParseMove("e7e5") == (4, 1, 4, 3);
    var b := Moved(InitialLayout(), 4, 6, 4, 4);
    assert b[1][4] == ChessPiece(Pawn, Black) && b[2][4] == Vacant && b[3][4] == Vacant;
  }

  /**
   * As written, no pawn on the starting position has a move: a White pawn
   * on row 6 is sent towards row 7, held by its own pieces, and may only
   * double-step from row 1; the mirror image holds for Black. In
   * particular `isValidMove` rejects e2e4, main's own example, and
   * `movePiece` leaves the board as it is.
   */
  lemma NoOpeningPawnMoveAsWritten(x: int, endX: int, endY: int)
    requires 0 <= x < 8 && OnBoard(endX, endY)
    ensures !ValidMove(InitialLayout(), x, 6, endX, endY)
    ensures !ValidMove(InitialLayout(), x, 1, endX, endY)
    ensures !ValidMoveString(InitialLayout(), "e2e4")
  {
    var b := InitialLayout();
    assert b[6][x] == ChessPiece(Pawn, White) && b[1][x] == ChessPiece(Pawn, Black);
    assert b[7][endX].kind != None && b[7][endX].color == White;
    assert b[0][endX].kind != None && b[0][endX].color == Black;
    assert ParseMove("e2e4") == (4, 6, 4, 4);
    assert b[6][4] == ChessPiece(Pawn, White) && b[7][4] == ChessPiece(King, White);
  }
}
