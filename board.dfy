/**
 * The `Board` class of Board.h / Board.cpp: the current grid and the one
 * snapshot kept for undo, with every member that reads or rewrites them.
 * Each read-only member is proved to compute the function of Rules or
 * Search that states its meaning; each mutating member states its whole
 * new state.
 */
module Boards {
  import opened Pieces
  import opened Rules
  import opened Search
  import opened SaveFormat

  /** A walk stopped by the first occupied square it meets: clear only when that square is the opposing destination. */
  lemma BlockedWalk(g: Grid, oldRow: int, oldCol: int, newRow: int, newCol: int, k: int)
    requires InBounds(oldRow, oldCol) && InBounds(newRow, newCol)
    requires 1 <= k <= WalkLength(oldRow, oldCol, newRow, newCol)
    requires forall i :: 1 <= i < k ==>
      var sq := WalkSquare(oldRow, oldCol, newRow, newCol, i); IsEmptyAt(g, sq.0, sq.1)
    requires var sq := WalkSquare(oldRow, oldCol, newRow, newCol, k); !IsEmptyAt(g, sq.0, sq.1)
    ensures PathClear(g, oldRow, oldCol, newRow, newCol) <==>
      k == WalkLength(oldRow, oldCol, newRow, newCol)
      && WalkSquare(oldRow, oldCol, newRow, newCol, k) == (newRow, newCol)
      && g[oldRow][oldCol].color != g[newRow][newCol].color
  {
  }

  /** ASCII `tolower`: 'A'..'Z' become 'a'..'z', every other character is kept. */
  function LowerChar(c: char): (d: char)
    ensures 'A' <= c <= 'Z' ==> 'a' <= d <= 'z' && d as int == c as int + 32
    ensures !('A' <= c <= 'Z') ==> d == c
  {
    if 'A' <= c <= 'Z' then (c as int + 32) as char else c
  }

  predicate IsFileLetter(c: char) {
    'a' <= c <= 'h'
  }

  /** `isalpha` on ASCII letters. */
  predicate IsAlpha(c: char) {
    ('a' <= c <= 'z') || ('A' <= c <= 'Z')
  }

  predicate IsDigit(c: char) {
    '0' <= c <= '9'
  }

  /** The row of a rank character: '8' is row 0, '1' is row 7. */
  function RankRow(c: char): int {
    '8' as int - c as int
  }

  /** The column of a file letter: 'a' is column 0. */
  function FileCol(c: char): int {
    c as int - 'a' as int
  }

  /** `input` after the in-place `tolower` loop of `inputMove`. */
  function Lower(input: string): (lowered: string)
    ensures |lowered| == |input|
    ensures forall i :: 0 <= i < |input| ==> lowered[i] == LowerChar(input[i])
  {
    if input == [] then [] else Lower(input[..|input| - 1]) + [LowerChar(input[|input| - 1])]
  }

  /** A four-character string of the shape file letter, digit, file letter, digit. */
  predicate MoveShaped(s: string) {
    |s| == 4 && IsFileLetter(s[0]) && IsFileLetter(s[2]) && IsDigit(s[1]) && IsDigit(s[3])
  }

  /**
   * The code `inputMove` returns for the lowered input: 2, 3, 4 and -1 for
   * the commands suggest, save, load and exit, 1 for a move inside the
   * board from a square of colour `status`, 0 for everything else.
   */
  function InputCode(s: string, g: Grid, status: int): (code: int)
    ensures code in {-1, 0, 1, 2, 3, 4}
    ensures code == 2 <==> s == "suggest"
    ensures code == 3 <==> s == "save"
    ensures code == 4 <==> s == "load"
    ensures code == -1 <==> s == "exit"
    ensures code == 1 <==>
      |s| == 4 && IsFileLetter(s[0]) && IsFileLetter(s[2]) && '1' <= s[1] <= '8' && '1' <= s[3] <= '8'
      && g[RankRow(s[1])][FileCol(s[0])].color == status
  {
    if s == "suggest" then 2
    else if s == "save" then 3
    else if s == "load" then 4
    else if s == "exit" then -1
    else if MoveShaped(s) && InBounds(RankRow(s[1]), FileCol(s[0])) && InBounds(RankRow(s[3]), FileCol(s[2]))
      && g[RankRow(s[1])][FileCol(s[0])].color == status
    then 1
    else 0
  }

  /**
   * The four reference parameters after `inputMove`: the decoded squares
   * once the characters have the shape of a move, the prior values otherwise.
   */
  function MoveCoordinates(s: string, prior: (int, int, int, int)): (int, int, int, int) {
    if MoveShaped(s) then (RankRow(s[1]), FileCol(s[0]), RankRow(s[3]), FileCol(s[2])) else prior
  }

  class Board {
    /** The current position. */
    var board: Grid
    /** The position before the last successful `movePiece` (or the last create or load). */
    var previousBoard: Grid

    /** `Board()` / `createBoard`: the starting position, also as the snapshot. */
    constructor()
      ensures board == InitialGrid()
      ensures previousBoard == InitialGrid()
    {
      var g: Grid := EmptyGrid();
      for x := 0 to 8
        invariant forall r, c :: InBounds(r, c) ==>
          g[r][c] == if (r == 1 || r == 6) && c < x then InitialPiece(r, c) else DefaultPiece
      {
        g := Put(g, 1, x, Piece(Pawn, 1, 0));
        g := Put(g, 6, x, Piece(Pawn, 0, 0));
      }
      g := Put(g, 7, 0, Piece(Rook, 0, 0));
      g := Put(g, 7, 7, Piece(Rook, 0, 0));
      g := Put(g, 7, 1, Piece(Knight, 0, 0));
      g := Put(g, 7, 6, Piece(Knight, 0, 0));
      g := Put(g, 7, 2, Piece(Bishop, 0, 0));
      g := Put(g, 7, 5, Piece(Bishop, 0, 0));
      g := Put(g, 7, 3, Piece(Queen, 0, 0));
      g := Put(g, 7, 4, Piece(King, 0, 0));
      g := Put(g, 0, 0, Piece(Rook, 1, 0));
      g := Put(g, 0, 7, Piece(Rook, 1, 0));
      g := Put(g, 0, 1, Piece(Knight, 1, 0));
      g := Put(g, 0, 6, Piece(Knight, 1, 0));
      g := Put(g, 0, 2, Piece(Bishop, 1, 0));
      g := Put(g, 0, 5, Piece(Bishop, 1, 0));
      g := Put(g, 0, 3, Piece(Queen, 1, 0));
      g := Put(g, 0, 4, Piece(King, 1, 0));
      GridExtensionality(g, InitialGrid());
      board := g;
      previousBoard := g;
    }

    /** `clearBoard`: every square becomes a default Piece; the snapshot is untouched. */
    method ClearBoard()
      modifies this
      ensures board == EmptyGrid()
      ensures previousBoard == old(previousBoard)
    {
      board := EmptyGrid();
    }

    /**
     * `isPathEmpty`: walks from the origin toward the destination one unit
     * step at a time (diagonally while both coordinates differ, otherwise
     * along the changing one), never leaving the board. Each of the three
     * walks of the source is one helper below.
     */
    method IsPathEmpty(oldRow: int, oldCol: int, newRow: int, newCol: int) returns (clear: bool)
      requires InBounds(oldRow, oldCol) && InBounds(newRow, newCol)
      ensures clear == PathClear(board, oldRow, oldCol, newRow, newCol)
    {
      var rowDifference := oldRow - newRow;
      var colDifference := oldCol - newCol;
      var rowChangeDirection := 0;
      var colChangeDirection := 0;
      if rowDifference > 0 { rowChangeDirection := -1; } else if rowDifference < 0 { rowChangeDirection := 1; }
      if colDifference > 0 { colChangeDirection := -1; } else if colDifference < 0 { colChangeDirection := 1; }

      if rowDifference != 0 && colDifference != 0 {
        clear := WalkDiagonal(oldRow, oldCol, newRow, newCol, rowChangeDirection, colChangeDirection);
      } else if rowDifference != 0 {
        clear := WalkRows(oldRow, oldCol, newRow, newCol, rowChangeDirection);
      } else if colDifference != 0 {
        clear := WalkColumns(oldRow, oldCol, newRow, newCol, colChangeDirection);
      } else {
        clear := true;
      }
    }

    /** The diagonal walk: both coordinates step until either reaches its target. */
    method WalkDiagonal(oldRow: int, oldCol: int, newRow: int, newCol: int, rowChangeDirection: int, colChangeDirection: int)
      returns (clear: bool)
      requires InBounds(oldRow, oldCol) && InBounds(newRow, newCol)
      requires oldRow != newRow && oldCol != newCol
      requires rowChangeDirection == Direction(oldRow, newRow) && colChangeDirection == Direction(oldCol, newCol)
      ensures clear == PathClear(board, oldRow, oldCol, newRow, newCol)
    {
      var oldColor := board[oldRow][oldCol].color;
      var newColor := board[newRow][newCol].color;
      ghost var n := WalkLength(oldRow, oldCol, newRow, newCol);
      ghost var k := 0;
      var row, col := oldRow, oldCol;
      while row != newRow && col != newCol
        invariant 0 <= k <= n
        invariant (row, col) == WalkSquare(oldRow, oldCol, newRow, newCol, k)
        invariant (row != newRow && col != newCol) <==> k < n
        invariant forall i :: 1 <= i <= k ==>
          var sq := WalkSquare(oldRow, oldCol, newRow, newCol, i); IsEmptyAt(board, sq.0, sq.1)
        decreases n - k
      {
        row := row + rowChangeDirection;
        col := col + colChangeDirection;
        k := k + 1;
        if board[row][col].kind != Empty {
          assert k < n ==> row != newRow && col != newCol;
          BlockedWalk(board, oldRow, oldCol, newRow, newCol, k);
          clear := row == newRow && col == newCol && oldColor != newColor;
          return;
        }
      }
      clear := true;
    }

    /** The walk along a file: only the row steps. */
    method WalkRows(oldRow: int, oldCol: int, newRow: int, newCol: int, rowChangeDirection: int) returns (clear: bool)
      requires InBounds(oldRow, oldCol) && InBounds(newRow, newCol)
      requires oldRow != newRow && oldCol == newCol
      requires rowChangeDirection == Direction(oldRow, newRow)
      ensures clear == PathClear(board, oldRow, oldCol, newRow, newCol)
    {
      var oldColor := board[oldRow][oldCol].color;
      var newColor := board[newRow][newCol].color;
      ghost var n := WalkLength(oldRow, oldCol, newRow, newCol);
      ghost var k := 0;
      var row := oldRow;
      while row != newRow
        invariant 0 <= k <= n
        invariant (row, oldCol) == WalkSquare(oldRow, oldCol, newRow, newCol, k)
        invariant row != newRow <==> k < n
        invariant forall i :: 1 <= i <= k ==>
          var sq := WalkSquare(oldRow, oldCol, newRow, newCol, i); IsEmptyAt(board, sq.0, sq.1)
        decreases n - k
      {
        row := row + rowChangeDirection;
        k := k + 1;
        if board[row][oldCol].kind != Empty {
          BlockedWalk(board, oldRow, oldCol, newRow, newCol, k);
          clear := row == newRow && oldColor != newColor;
          return;
        }
      }
      clear := true;
    }

    /** The walk along a rank: only the column steps. */
    method WalkColumns(oldRow: int, oldCol: int, newRow: int, newCol: int, colChangeDirection: int) returns (clear: bool)
      requires InBounds(oldRow, oldCol) && InBounds(newRow, newCol)
      requires oldRow == newRow && oldCol != newCol
      requires colChangeDirection == Direction(oldCol, newCol)
      ensures clear == PathClear(board, oldRow, oldCol, newRow, newCol)
    {
      var oldColor := board[oldRow][oldCol].color;
      var newColor := board[newRow][newCol].color;
      ghost var n := WalkLength(oldRow, oldCol, newRow, newCol);
      ghost var k := 0;
      var col := oldCol;
      while col != newCol
        invariant 0 <= k <= n
        invariant (oldRow, col) == WalkSquare(oldRow, oldCol, newRow, newCol, k)
        invariant col != newCol <==> k < n
        invariant forall i :: 1 <= i <= k ==>
          var sq := WalkSquare(oldRow, oldCol, newRow, newCol, i); IsEmptyAt(board, sq.0, sq.1)
        decreases n - k
      {
        col := col + colChangeDirection;
        k := k + 1;
        if board[oldRow][col].kind != Empty {
          BlockedWalk(board, oldRow, oldCol, newRow, newCol, k);
          clear := col == newCol && oldColor != newColor;
          return;
        }
      }
      clear := true;
    }

    /** `isLegalMove`: the per-kind switch, with `isPathEmpty` for Rook, Bishop, Queen and King. */
    method IsLegalMove(oldRow: int, oldCol: int, newRow: int, newCol: int) returns (legal: bool)
      requires InBounds(oldRow, oldCol) && InBounds(newRow, newCol)
      ensures legal == LegalMove(board, oldRow, oldCol, newRow, newCol)
    {
      var p := board[oldRow][oldCol];
      var color := p.color;
      var rowChange := oldRow - newRow;
      var colChange := oldCol - newCol;
      match p.kind {
        case Empty =>
          legal := false;
        case Pawn =>
          var f := if color == 0 then -1 else 1;
          var newSlotType := board[newRow][newCol].kind;
          if newSlotType == Empty && oldCol == newCol {
            if newRow == oldRow + 2 * f {
              legal := p.hasMoved == 0 && board[oldRow + f][oldCol].kind == Empty;
            } else {
              legal := newRow == oldRow + f;
            }
          } else {
            legal := newSlotType != Empty && board[newRow][newCol].color == (if color == 0 then 1 else 0)
              && (newCol == oldCol + 1 || newCol == oldCol - 1)
              && newRow == oldRow + f;
          }
        case Rook =>
          var clear := IsPathEmpty(oldRow, oldCol, newRow, newCol);
          legal := clear && ((rowChange == 0 && colChange != 0) || (rowChange != 0 && colChange == 0));
        case Bishop =>
          var clear := IsPathEmpty(oldRow, oldCol, newRow, newCol);
          legal := clear && Abs(rowChange) == Abs(colChange) && rowChange != 0;
        case Queen =>
          var clear := IsPathEmpty(oldRow, oldCol, newRow, newCol);
          legal := clear && ((Abs(rowChange) == Abs(colChange) && rowChange != 0)
            || (rowChange == 0 && colChange != 0) || (rowChange != 0 && colChange == 0));
        case King =>
          var clear := IsPathEmpty(oldRow, oldCol, newRow, newCol);
          var r, c := Abs(rowChange), Abs(colChange);
          legal := clear && ((r == 1 && c == 1) || (r == 1 && c == 0) || (r == 0 && c == 1));
        case Knight =>
          var r, c := Abs(rowChange), Abs(colChange);
          legal := ((r == 2 && c == 1) || (r == 1 && c == 2))
            && (board[newRow][newCol].kind == Empty || board[newRow][newCol].color != color);
      }
    }

    /**
     * `movePiece`: a legal move snapshots the board, relocates the origin
     * piece marked as moved and empties the origin; an illegal one
     * changes nothing.
     */
    method MovePiece(oldRow: int, oldCol: int, newRow: int, newCol: int) returns (moved: bool)
      requires InBounds(oldRow, oldCol) && InBounds(newRow, newCol)
      modifies this
      ensures moved == LegalMove(old(board), oldRow, oldCol, newRow, newCol)
      ensures moved ==> previousBoard == old(board) && board == Apply(old(board), Move(oldRow, oldCol, newRow, newCol))
      ensures !moved ==> previousBoard == old(previousBoard) && board == old(board)
    {
      var legal := IsLegalMove(oldRow, oldCol, newRow, newCol);
      if legal {
        previousBoard := board;
        board := Put(board, newRow, newCol, board[oldRow][oldCol]);
        board := Put(board, newRow, newCol, board[newRow][newCol].SetMoved(1));
        board := Put(board, oldRow, oldCol, board[oldRow][oldCol].MakeEmpty());
        GridExtensionality(board, Apply(previousBoard, Move(oldRow, oldCol, newRow, newCol)));
      } else {
        return false;
      }
      return true;
    }

    /** `revertMove`: the board becomes the snapshot. */
    method RevertMove()
      modifies this
      ensures board == old(previousBoard)
      ensures previousBoard == old(previousBoard)
    {
      board := previousBoard;
    }

    /**
     * `saveToFile(turn)` without its file handling: `slotFree` says whether
     * the randomly named file could be created (it did not exist and opened
     * for writing); the result is what is written to it, or None when the
     * save was abandoned.
     */
    method SaveToFile(turn: int, slotFree: bool) returns (file: Option<SaveFile>)
      ensures !slotFree ==> file == None
      ensures slotFree ==> file == Some(Encode(board, turn))
    {
      if !slotFree {
        return None;
      }
      var records: seq<Record> := [];
      for i := 0 to 8
        invariant records == EncodeSquares(board, 8 * i)
      {
        records := SaveRow(i, records);
      }
      return Some(SaveFile(turn, records));
    }

    /** The inner loop of `saveToFile`: the lines of row i, appended to those of the rows above. */
    method SaveRow(i: Coord, recordsIn: seq<Record>) returns (records: seq<Record>)
      requires recordsIn == EncodeSquares(board, 8 * i)
      ensures records == EncodeSquares(board, 8 * i + 8)
    {
      records := recordsIn;
      for j := 0 to 8
        invariant records == EncodeSquares(board, 8 * i + j)
      {
        EncodeNextSquare(board, i, j);
        var typeInt := TypeCode(board[i][j].kind);
        if typeInt != 6 {
          records := records + [Record(i, j, typeInt, board[i][j].color)];
        }
      }
    }

    /**
     * `loadFromFile` without its prompt and stream handling: `file` is the
     * parsed content of the file the player named, or None when it could
     * not be opened. A loaded file replaces both grids and gives back its
     * turn value; a missing one changes nothing and gives -1.
     */
    method LoadFromFile(file: Option<SaveFile>) returns (whoseTurn: int)
      modifies this
      ensures file == None ==> whoseTurn == -1 && board == old(board) && previousBoard == old(previousBoard)
      ensures file.Some? ==> whoseTurn == file.value.turn && board == Load(file.value) && previousBoard == board
    {
      if file == None {
        return -1;
      }
      ClearBoard();
      whoseTurn := -1;
      whoseTurn := file.value.turn;
      var records := file.value.records;
      for n := 0 to |records|
        invariant board == Decode(EmptyGrid(), records[..n])
      {
        var rec := records[n];
        board := Put(board, rec.row, rec.col, board[rec.row][rec.col].SetType(rec.typeCode));
        board := Put(board, rec.row, rec.col, board[rec.row][rec.col].SetColor(rec.color));
        assert records[..n + 1] == records[..n] + [rec];
        DecodeSnoc(EmptyGrid(), records[..n], rec);
        GridExtensionality(board, Restore(Decode(EmptyGrid(), records[..n]), rec));
      }
      assert records[..|records|] == records;
      previousBoard := board;
    }

    /**
     * `inputMove`: lowercases the input, recognises the four commands, and
     * otherwise accepts exactly a long-form coordinate move (file letter,
     * rank digit, file letter, rank digit) inside the board whose origin
     * holds colour `status`. The four coordinates are the source's
     * reference parameters: written once the characters are a..h and
     * digits, and left at their prior values otherwise.
     */
    method InputMove(input: string, prior: (int, int, int, int), status: int)
      returns (code: int, lowered: string, oldRow: int, oldCol: int, newRow: int, newCol: int)
      ensures lowered == Lower(input)
      ensures code == InputCode(lowered, board, status)
      ensures (oldRow, oldCol, newRow, newCol) == MoveCoordinates(lowered, prior)
      ensures code == 1 ==> InBounds(oldRow, oldCol) && InBounds(newRow, newCol)
    {
      lowered := input;
      oldRow, oldCol, newRow, newCol := prior.0, prior.1, prior.2, prior.3;
      for i := 0 to |lowered|
        invariant |lowered| == |input|
        invariant forall j :: 0 <= j < i ==> lowered[j] == LowerChar(input[j])
        invariant forall j :: i <= j < |input| ==> lowered[j] == input[j]
      {
        lowered := lowered[i := LowerChar(lowered[i])];
      }

      if lowered == "suggest" {
        return 2, lowered, oldRow, oldCol, newRow, newCol;
      } else if lowered == "save" {
        return 3, lowered, oldRow, oldCol, newRow, newCol;
      } else if lowered == "load" {
        return 4, lowered, oldRow, oldCol, newRow, newCol;
      } else if lowered == "exit" {
        return -1, lowered, oldRow, oldCol, newRow, newCol;
      }

      code := 0;
      if |lowered| != 4 {
        return;
      }
      if !IsAlpha(lowered[0]) || !IsAlpha(lowered[2]) {
        return;
      }
      if lowered[0] < 'a' || lowered[0] > 'h' || lowered[2] < 'a' || lowered[2] > 'h' {
        return;
      }
      if !IsDigit(lowered[1]) || !IsDigit(lowered[3]) {
        return;
      }

      oldCol := FileCol(lowered[0]);
      oldRow := RankRow(lowered[1]);
      newCol := FileCol(lowered[2]);
      newRow := RankRow(lowered[3]);
      if oldRow < 0 || oldCol < 0 || oldRow > 7 || oldCol > 7 || newRow < 0 || newCol < 0 || newRow > 7 || newCol > 7 {
        return;
      }
      var pieceToBeMovedColor := board[oldRow][oldCol].color;
      if status != pieceToBeMovedColor {
        return;
      }
      code := 1;
    }

    /**
     * `isPieceSafe`: true exactly when no opposing non-empty piece has a
     * legal move onto (row, col).
     */
    method IsPieceSafe(row: int, col: int, color: int) returns (safe: bool)
      requires InBounds(row, col)
      ensures safe == !Attacked(board, row, col, color)
    {
      for i := 0 to 8
        invariant forall r, c :: 0 <= r < i && 0 <= c < 8 ==> !AttackerAt(board, r, c, row, col, color)
      {
        for j := 0 to 8
          invariant forall r, c :: ((0 <= r < i && 0 <= c < 8) || (r == i && 0 <= c < j)) ==>
            !AttackerAt(board, r, c, row, col, color)
        {
          if board[i][j].color != color && board[i][j].kind != Empty {
            var legal := IsLegalMove(i, j, row, col);
            if legal {
              assert AttackerAt(board, i, j, row, col, color);
              return false;
            }
          }
        }
      }
      return true;
    }

    /**
     * `isKingSafe`: -2 when no King of the colour is on the board, 0 when
     * the King the scan settles on is attacked, 1 otherwise. The attack
     * scan of the source (Board.cpp:352-361) is the loop of `isPieceSafe`
     * with the King's square, so it is that call here.
     */
    method IsKingSafe(colorOfKing: int) returns (status: int)
      ensures status == KingSafety(board, colorOfKing)
    {
      var kingRow, kingCol := -1, -1;
      for i := 0 to 8
        invariant KingInRows(board, colorOfKing, i) == if kingRow == -1 then None else Some((kingRow, kingCol))
        invariant kingRow != -1 ==> InBounds(kingRow, kingCol)
      {
        for j := 0 to 8
          invariant forall c :: 0 <= c < j ==> !IsKingOf(board[i][c], colorOfKing)
        {
          if board[i][j].kind == King && board[i][j].color == colorOfKing {
            kingRow := i;
            kingCol := j;
            assert FirstKingInRow(board, colorOfKing, i, 0) == Some(j);
            break;
          }
        }
      }

      if kingRow == -1 || kingCol == -1 {
        return -2;
      }
      var safe := IsPieceSafe(kingRow, kingCol, colorOfKing);
      if !safe {
        return 0;
      }
      return 1;
    }

    /**
     * `calculateScore` in half-points: an own non-King piece adds 2v, less
     * v when it is attacked; an attacked own King subtracts 1000.
     */
    method CalculateScore(color: int) returns (score: int)
      ensures score == Score(board, color)
    {
      score := 0;
      for k := 0 to 8
        invariant score == RowsScore(board, color, k)
      {
        for m := 0 to 8
          invariant score == RowsScore(board, color, k) + RowScore(board, color, k, m)
        {
          var p := board[k][m];
          if p.color == color {
            match p.kind {
              case Empty =>
              case King =>
                var safe := IsPieceSafe(k, m, color);
                if !safe {
                  score := score - KingPenalty;
                }
              case _ =>
                score := score + 2 * Value(p.kind);
                var safe := IsPieceSafe(k, m, color);
                if !safe {
                  score := score - Value(p.kind);
                }
            }
          }
        }
      }
    }

    /**
     * `isCheckmate`: 1 unless `isKingSafe` says the King is attacked;
     * otherwise every legal move of the colour is tried on the live board
     * in row-major order and undone, giving 0 at the first one after which
     * `isKingSafe` is nonzero and -1 when there is none. The board ends as
     * it started; the snapshot ends as the start board once any move was
     * tried.
     *
     * The source repeats the King scan before trying moves (Board.cpp:376-392);
     * `isKingSafe` has just returned 0, so the King is on the board
     * (RuleFacts.AttackedKingExists) and that repeated scan cannot return -2.
     */
    method IsCheckmate(colorOfKing: int) returns (status: int)
      modifies this
      ensures status == CheckmateStatus(old(board), colorOfKing)
      ensures board == old(board)
      ensures status == 1 ==> previousBoard == old(previousBoard)
      ensures status == 0 ==> previousBoard == old(board)
      ensures status == -1 ==>
        previousBoard == if CandidateMoves(old(board), colorOfKing) == [] then old(previousBoard) else old(board)
    {
      var safety := IsKingSafe(colorOfKing);
      if safety != 0 {
        return 1;
      }
      ghost var g0 := board;
      ghost var safetyOf := mv => KingSafety(Apply(g0, mv), colorOfKing);
      assert SafetiesBy(g0, colorOfKing, safetyOf);
      var escape, escapeMove := TryAllMoves(colorOfKing, safetyOf);
      if escape {
        EscapeMeansCheck(g0, colorOfKing, escapeMove);
        return 0;
      }
      NoEscapeMeansCheckmate(g0, colorOfKing, safetyOf);
      return -1;
    }

    /**
     * The trial loops of `isCheckmate`: the moves of every own piece are
     * tried in row-major order, stopping at the first one after which the
     * King is no longer attacked.
     */
    method TryAllMoves(colorOfKing: int, ghost safetyOf: Move -> int) returns (escape: bool, ghost escapeMove: Move)
      requires SafetiesBy(board, colorOfKing, safetyOf)
      modifies this
      ensures board == old(board)
      ensures escape ==>
        IsCandidate(old(board), colorOfKing, escapeMove) && safetyOf(escapeMove) != 0 && previousBoard == old(board)
      ensures !escape ==>
        (forall mv :: mv in CandidateMoves(old(board), colorOfKing) ==> safetyOf(mv) == 0)
        && previousBoard == if CandidateMoves(old(board), colorOfKing) == [] then old(previousBoard) else old(board)
    {
      ghost var g0 := board;
      escapeMove := Move(0, 0, 0, 0);
      for i := 0 to 8
        invariant board == g0
        invariant forall mv :: mv in MovesFromRows(g0, colorOfKing, i) ==> safetyOf(mv) == 0
        invariant previousBoard == if MovesFromRows(g0, colorOfKing, i) == [] then old(previousBoard) else g0
      {
        escape, escapeMove := TryMovesFromRow(i, colorOfKing, safetyOf);
        if escape {
          return;
        }
      }
      escape := false;
    }

    /**
     * The second loop of `isCheckmate` for row i: the moves of every own
     * piece of the row are tried, stopping at the first one after which the
     * King is no longer attacked; safetyOf is what `isKingSafe` would say
     * after each move.
     */
    method TryMovesFromRow(i: Coord, colorOfKing: int, ghost safetyOf: Move -> int)
      returns (escape: bool, ghost escapeMove: Move)
      requires SafetiesBy(board, colorOfKing, safetyOf)
      modifies this
      ensures board == old(board)
      ensures escape ==>
        IsCandidate(old(board), colorOfKing, escapeMove) && safetyOf(escapeMove) != 0 && previousBoard == old(board)
      ensures !escape ==>
        (forall mv :: mv in MovesFromRow(old(board), colorOfKing, i, 8) ==> safetyOf(mv) == 0)
        && previousBoard == if MovesFromRow(old(board), colorOfKing, i, 8) == [] then old(previousBoard) else old(board)
    {
      ghost var g0 := board;
      escapeMove := Move(i, 0, i, 0);
      for j := 0 to 8
        invariant board == g0
        invariant forall mv :: mv in MovesFromRow(g0, colorOfKing, i, j) ==> safetyOf(mv) == 0
        invariant previousBoard == if MovesFromRow(g0, colorOfKing, i, j) == [] then old(previousBoard) else g0
      {
        if board[i][j].kind != Empty && board[i][j].color == colorOfKing {
          escape, escapeMove := TryMovesFrom(i, j, colorOfKing, safetyOf);
          if escape {
            return;
          }
        }
      }
      escape := false;
    }

    /**
     * The third loop of `isCheckmate` for the piece on (i, j): it stops
     * at the first destination row holding a move after which the King is
     * no longer attacked.
     */
    method TryMovesFrom(i: Coord, j: Coord, colorOfKing: int, ghost safetyOf: Move -> int)
      returns (escape: bool, ghost escapeMove: Move)
      requires SafetiesBy(board, colorOfKing, safetyOf)
      modifies this
      ensures board == old(board)
      ensures escape ==>
        escapeMove.oldRow == i && escapeMove.oldCol == j && Legal(old(board), escapeMove)
        && safetyOf(escapeMove) != 0 && previousBoard == old(board)
      ensures !escape ==>
        (forall mv :: mv in MovesFromSquare(old(board), i, j, 8) ==> safetyOf(mv) == 0)
        && previousBoard == if MovesFromSquare(old(board), i, j, 8) == [] then old(previousBoard) else old(board)
    {
      ghost var g0 := board;
      escapeMove := Move(i, j, i, j);
      for k := 0 to 8
        invariant board == g0
        invariant forall mv :: mv in MovesFromSquare(g0, i, j, k) ==> safetyOf(mv) == 0
        invariant previousBoard == if MovesFromSquare(g0, i, j, k) == [] then old(previousBoard) else g0
      {
        escape, escapeMove := TryMovesOnto(i, j, k, colorOfKing, safetyOf);
        if escape {
          return;
        }
      }
      escape := false;
    }

    /**
     * The innermost loop of `isCheckmate`: each legal move from (i, j) onto
     * row k is made, `isKingSafe` asked, and the move undone; it stops at
     * the first move after which the King is no longer attacked.
     */
    method TryMovesOnto(i: Coord, j: Coord, k: Coord, colorOfKing: int, ghost safetyOf: Move -> int)
      returns (escape: bool, ghost escapeMove: Move)
      requires SafetiesBy(board, colorOfKing, safetyOf)
      modifies this
      ensures board == old(board)
      ensures escape ==>
        escapeMove.oldRow == i && escapeMove.oldCol == j && Legal(old(board), escapeMove)
        && safetyOf(escapeMove) != 0 && previousBoard == old(board)
      ensures !escape ==>
        (forall mv :: mv in MovesOntoRow(old(board), i, j, k, 8) ==> safetyOf(mv) == 0)
        && previousBoard == if MovesOntoRow(old(board), i, j, k, 8) == [] then old(previousBoard) else old(board)
    {
      ghost var g0 := board;
      escapeMove := Move(i, j, i, j);
      for m := 0 to 8
        invariant board == g0
        invariant forall mv :: mv in MovesOntoRow(g0, i, j, k, m) ==> safetyOf(mv) == 0
        invariant previousBoard == if MovesOntoRow(g0, i, j, k, m) == [] then old(previousBoard) else g0
      {
        var mv := Move(i, j, k, m);
        var moved, safety := TryMove(mv, colorOfKing, safetyOf);
        if moved {
          assert MovesOntoRow(g0, i, j, k, m + 1) == MovesOntoRow(g0, i, j, k, m) + [mv];
          if safety != 0 {
            return true, mv;
          }
        } else {
          assert MovesOntoRow(g0, i, j, k, m + 1) == MovesOntoRow(g0, i, j, k, m);
        }
      }
      escape := false;
    }

    /**
     * One trial of `isCheckmate`'s innermost loop: the move is made, and
     * when it was legal `isKingSafe` is asked and the move undone.
     */
    method TryMove(mv: Move, colorOfKing: int, ghost safetyOf: Move -> int) returns (moved: bool, safety: int)
      requires SafetiesBy(board, colorOfKing, safetyOf)
      modifies this
      ensures board == old(board)
      ensures moved == Legal(old(board), mv)
      ensures moved ==> safety == safetyOf(mv)
      ensures previousBoard == if moved then old(board) else old(previousBoard)
    {
      ghost var g0 := board;
      moved := MovePiece(mv.oldRow, mv.oldCol, mv.newRow, mv.newCol);
      safety := 0;
      if moved {
        safety := IsKingSafe(colorOfKing);
        assert safety == KingSafety(Apply(g0, mv), colorOfKing);
        RevertMove();
      }
    }

    /**
     * `suggestMove` without its printout: every legal move of the colour is
     * tried on the live board in row-major order, scored with
     * `calculateScore` and undone; `bestMoves` holds the moves reaching the
     * highest score, in the order they were tried, and `suggestion` is the
     * one the random value r picks, or None when there is none to pick.
     */
    method SuggestMove(color: int, r: nat) returns (bestMoves: seq<Move>, suggestion: Option<Move>)
      modifies this
      ensures bestMoves == BestMoves(old(board), color)
      ensures suggestion == Suggestion(bestMoves, r)
      ensures board == old(board)
      ensures previousBoard == if CandidateMoves(old(board), color) == [] then old(previousBoard) else old(board)
    {
      ghost var g0 := board;
      ghost var scoreOf := mv => ScoreAfter(g0, color, mv);
      assert ScoresBy(g0, color, scoreOf);
      var highestScore := IntMinHalfPoints;
      bestMoves := [];
      for i := 0 to 8
        invariant board == g0
        invariant (highestScore, bestMoves) == Run((IntMinHalfPoints, []), MovesFromRows(g0, color, i), scoreOf)
        invariant previousBoard == if MovesFromRows(g0, color, i) == [] then old(previousBoard) else g0
      {
        RunConcat((IntMinHalfPoints, []), MovesFromRows(g0, color, i), MovesFromRow(g0, color, i, 8), scoreOf);
        highestScore, bestMoves := ScoreMovesFromRow(i, color, highestScore, bestMoves, scoreOf);
      }
      RunFindsBest(g0, color, CandidateMoves(g0, color), scoreOf);
      if bestMoves == [] {
        suggestion := None;
      } else {
        suggestion := Some(bestMoves[SuggestionIndexAsWritten(r, |bestMoves|)]);
      }
    }

    /**
     * The second loop of `suggestMove` for row i, continuing from the
     * running maximum and best list `highestIn` and `bestIn`; scoreOf is
     * the score each move would reach.
     */
    method ScoreMovesFromRow(i: Coord, color: int, highestIn: int, bestIn: seq<Move>, ghost scoreOf: Move -> int)
      returns (highestScore: int, bestMoves: seq<Move>)
      requires ScoresBy(board, color, scoreOf)
      modifies this
      ensures board == old(board)
      ensures (highestScore, bestMoves) == Run((highestIn, bestIn), MovesFromRow(old(board), color, i, 8), scoreOf)
      ensures previousBoard == if MovesFromRow(old(board), color, i, 8) == [] then old(previousBoard) else old(board)
    {
      ghost var g0 := board;
      highestScore, bestMoves := highestIn, bestIn;
      for j := 0 to 8
        invariant board == g0
        invariant (highestScore, bestMoves) == Run((highestIn, bestIn), MovesFromRow(g0, color, i, j), scoreOf)
        invariant previousBoard == if MovesFromRow(g0, color, i, j) == [] then old(previousBoard) else g0
      {
        if board[i][j].kind != Empty && board[i][j].color == color {
          RunConcat((highestIn, bestIn), MovesFromRow(g0, color, i, j), MovesFromSquare(g0, i, j, 8), scoreOf);
          highestScore, bestMoves := ScoreMovesFrom(i, j, color, highestScore, bestMoves, scoreOf);
        } else {
          assert MovesFromRow(g0, color, i, j + 1) == MovesFromRow(g0, color, i, j);
        }
      }
    }

    /** The third loop of `suggestMove` for the piece on (i, j). */
    method ScoreMovesFrom(i: Coord, j: Coord, color: int, highestIn: int, bestIn: seq<Move>, ghost scoreOf: Move -> int)
      returns (highestScore: int, bestMoves: seq<Move>)
      requires ScoresBy(board, color, scoreOf)
      modifies this
      ensures board == old(board)
      ensures (highestScore, bestMoves) == Run((highestIn, bestIn), MovesFromSquare(old(board), i, j, 8), scoreOf)
      ensures previousBoard == if MovesFromSquare(old(board), i, j, 8) == [] then old(previousBoard) else old(board)
    {
      ghost var g0 := board;
      highestScore, bestMoves := highestIn, bestIn;
      for k := 0 to 8
        invariant board == g0
        invariant (highestScore, bestMoves) == Run((highestIn, bestIn), MovesFromSquare(g0, i, j, k), scoreOf)
        invariant previousBoard == if MovesFromSquare(g0, i, j, k) == [] then old(previousBoard) else g0
      {
        RunConcat((highestIn, bestIn), MovesFromSquare(g0, i, j, k), MovesOntoRow(g0, i, j, k, 8), scoreOf);
        highestScore, bestMoves := ScoreMovesOnto(i, j, k, color, highestScore, bestMoves, scoreOf);
      }
    }

    /**
     * The innermost loop of `suggestMove`: each legal move from (i, j)
     * onto row k is made, scored and undone; a higher score restarts
     * `bestMoves`, an equal one joins it.
     */
    method ScoreMovesOnto(i: Coord, j: Coord, k: Coord, color: int, highestIn: int, bestIn: seq<Move>, ghost scoreOf: Move -> int)
      returns (highestScore: int, bestMoves: seq<Move>)
      requires ScoresBy(board, color, scoreOf)
      modifies this
      ensures board == old(board)
      ensures (highestScore, bestMoves) == Run((highestIn, bestIn), MovesOntoRow(old(board), i, j, k, 8), scoreOf)
      ensures previousBoard == if MovesOntoRow(old(board), i, j, k, 8) == [] then old(previousBoard) else old(board)
    {
      ghost var g0 := board;
      highestScore, bestMoves := highestIn, bestIn;
      for m := 0 to 8
        invariant board == g0
        invariant (highestScore, bestMoves) == Run((highestIn, bestIn), MovesOntoRow(g0, i, j, k, m), scoreOf)
        invariant previousBoard == if MovesOntoRow(g0, i, j, k, m) == [] then old(previousBoard) else g0
      {
        var mv := Move(i, j, k, m);
        var moved, currentScore := ScoreMove(mv, color, scoreOf);
        if moved {
          assert MovesOntoRow(g0, i, j, k, m + 1) == MovesOntoRow(g0, i, j, k, m) + [mv];
          RunSnoc((highestIn, bestIn), MovesOntoRow(g0, i, j, k, m), mv, scoreOf);
          assert [] + [mv] == [mv];
          if currentScore >= highestScore {
            if currentScore > highestScore {
              highestScore := currentScore;
              bestMoves := [];
            }
            bestMoves := bestMoves + [mv];
          }
        } else {
          assert MovesOntoRow(g0, i, j, k, m + 1) == MovesOntoRow(g0, i, j, k, m);
        }
      }
    }

    /**
     * One trial of `suggestMove`'s innermost loop: the move is made, and
     * when it was legal the position is scored with `calculateScore` and
     * the move undone.
     */
    method ScoreMove(mv: Move, color: int, ghost scoreOf: Move -> int) returns (moved: bool, score: int)
      requires ScoresBy(board, color, scoreOf)
      modifies this
      ensures board == old(board)
      ensures moved == Legal(old(board), mv)
      ensures moved ==> score == scoreOf(mv)
      ensures previousBoard == if moved then old(board) else old(previousBoard)
    {
      ghost var g0 := board;
      moved := MovePiece(mv.oldRow, mv.oldCol, mv.newRow, mv.newCol);
      score := 0;
      if moved {
        score := CalculateScore(color);
        assert score == ScoreAfter(g0, color, mv);
        RevertMove();
      }
    }
  }

  /**
   * safetyOf gives every move what `isKingSafe` says once it is made. The
   * trigger keeps the verifier from expanding the safety check wherever
   * safetyOf is applied.
   */
  ghost predicate SafetiesBy(g: Grid, color: int, safetyOf: Move -> int) {
    forall mv {:trigger KingSafety(Apply(g, mv), color)} :: safetyOf(mv) == KingSafety(Apply(g, mv), color)
  }

  /** A candidate move after which the King is no longer reported attacked makes `isCheckmate` 0. */
  lemma EscapeMeansCheck(g: Grid, color: int, mv: Move)
    requires KingSafety(g, color) == 0
    requires IsCandidate(g, color, mv) && KingSafety(Apply(g, mv), color) != 0
    ensures CheckmateStatus(g, color) == 0
  {
  }

  /** When every candidate move leaves the attacked King attacked, `isCheckmate` is -1. */
  lemma NoEscapeMeansCheckmate(g: Grid, color: int, safetyOf: Move -> int)
    requires SafetiesBy(g, color, safetyOf)
    requires KingSafety(g, color) == 0
    requires forall mv :: mv in CandidateMoves(g, color) ==> safetyOf(mv) == 0
    ensures CheckmateStatus(g, color) == -1
  {
    CandidateMovesMembers(g, color);
    forall mv | IsCandidate(g, color, mv)
      ensures KingSafety(Apply(g, mv), color) == 0
    {
      assert mv in CandidateMoves(g, color);
    }
  }
}
