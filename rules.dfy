/**
 * The rules of Board.cpp as functions of the grid: path tracing, move
 * legality, attack detection, king location and safety, checkmate status
 * and the effect of a move. The imperative Board class in board.dfy is
 * proved to compute exactly these.
 */
module Rules {
  import opened Pieces

  datatype Option<T> = None | Some(value: T)

  predicate IsGrid(g: seq<seq<Piece>>) {
    |g| == 8 && forall i :: 0 <= i < 8 ==> |g[i]| == 8
  }

  /** A board: eight rows of eight squares; row 0 is Black's back rank, column 0 is file a. */
  type Grid = g: seq<seq<Piece>> | IsGrid(g) witness EmptyGrid()

  /** The grid of `clearBoard`: every square a default-constructed Piece. */
  function EmptyGrid(): (g: seq<seq<Piece>>)
    ensures IsGrid(g)
    ensures forall r, c :: 0 <= r < 8 && 0 <= c < 8 ==> g[r][c] == DefaultPiece
  {
    seq(8, _ => seq(8, _ => DefaultPiece))
  }

  /** Two grids agreeing on every square are equal. */
  lemma GridExtensionality(a: Grid, b: Grid)
    requires forall r, c :: 0 <= r < 8 && 0 <= c < 8 ==> a[r][c] == b[r][c]
    ensures a == b
  {
    forall r | 0 <= r < 8
      ensures a[r] == b[r]
    {
      assert forall c :: 0 <= c < 8 ==> a[r][c] == b[r][c];
    }
  }

  predicate InBounds(row: int, col: int) {
    0 <= row < 8 && 0 <= col < 8
  }

  /** A row or column index of the board. */
  type Coord = x: int | 0 <= x < 8

  /**
   * The `Move` record of Board.h: origin and destination squares. Every
   * `Move` the source builds comes from loop indices 0..7, so its fields
   * are board coordinates.
   */
  datatype Move = Move(oldRow: Coord, oldCol: Coord, newRow: Coord, newCol: Coord)

  predicate IsEmptyAt(g: Grid, row: int, col: int)
    requires InBounds(row, col)
  {
    g[row][col].kind == Empty
  }

  function Abs(x: int): nat {
    if x < 0 then -x else x
  }

  /** The unit step taken from a toward b (`rowChangeDirection` / `colChangeDirection`). */
  function Direction(a: int, b: int): int {
    if a > b then -1 else if a < b then 1 else 0
  }

  /** The coordinate k unit steps from a toward b. */
  function Advance(a: int, b: int, k: int): int {
    var d := Direction(a, b);
    if d > 0 then a + k else if d < 0 then a - k else a
  }

  /**
   * The number of squares the walk of `isPathEmpty` visits: a diagonal
   * walk stops as soon as either coordinate reaches its target, a
   * straight walk when the changing coordinate does.
   */
  function WalkLength(oldRow: int, oldCol: int, newRow: int, newCol: int): (n: nat)
    ensures n == 0 <==> oldRow == newRow && oldCol == newCol
  {
    var dr := Abs(newRow - oldRow);
    var dc := Abs(newCol - oldCol);
    if dr != 0 && dc != 0 then (if dr < dc then dr else dc)
    else if dr != 0 then dr
    else dc
  }

  /** The square visited after k steps; it never leaves the rectangle spanned by the two squares. */
  function WalkSquare(oldRow: int, oldCol: int, newRow: int, newCol: int, k: int): (sq: (int, int))
    requires 0 <= k <= WalkLength(oldRow, oldCol, newRow, newCol)
    ensures (oldRow <= sq.0 <= newRow) || (newRow <= sq.0 <= oldRow)
    ensures (oldCol <= sq.1 <= newCol) || (newCol <= sq.1 <= oldCol)
    ensures InBounds(oldRow, oldCol) && InBounds(newRow, newCol) ==> InBounds(sq.0, sq.1)
    ensures k == 0 <==> sq == (oldRow, oldCol)
  {
    (Advance(oldRow, newRow, k), Advance(oldCol, newCol, k))
  }

  /**
   * `isPathEmpty`: no occupied square among the first n - 1 visited, and the
   * last visited square is empty, or is the destination holding a piece
   * whose colour differs from the mover's.
   */
  predicate PathClear(g: Grid, oldRow: int, oldCol: int, newRow: int, newCol: int)
    requires InBounds(oldRow, oldCol) && InBounds(newRow, newCol)
  {
    var n := WalkLength(oldRow, oldCol, newRow, newCol);
    (forall k :: 1 <= k < n ==>
        var sq := WalkSquare(oldRow, oldCol, newRow, newCol, k); IsEmptyAt(g, sq.0, sq.1))
    && (n == 0 ||
        var last := WalkSquare(oldRow, oldCol, newRow, newCol, n);
        IsEmptyAt(g, last.0, last.1) ||
        (last == (newRow, newCol) && g[oldRow][oldCol].color != g[newRow][newCol].color))
  }

  /** The pawn's forward row step: colour 0 moves toward row 0, any other colour toward row 7. */
  function Forward(color: int): int {
    if color == 0 then -1 else 1
  }

  /** The colour a pawn may capture: 1 for colour 0, 0 for any other. */
  function Opponent(color: int): int {
    if color == 0 then 1 else 0
  }

  /** The pawn case of `isLegalMove`, branch for branch. */
  predicate PawnMove(g: Grid, oldRow: int, oldCol: int, newRow: int, newCol: int)
    requires InBounds(oldRow, oldCol) && InBounds(newRow, newCol)
  {
    var p := g[oldRow][oldCol];
    var dest := g[newRow][newCol];
    if dest.kind == Empty && oldCol == newCol then
      if newRow == oldRow + 2 * Forward(p.color) then
        p.hasMoved == 0 && g[oldRow + Forward(p.color)][oldCol].kind == Empty
      else
        newRow == oldRow + Forward(p.color)
    else
      dest.kind != Empty && dest.color == Opponent(p.color)
      && (newCol == oldCol + 1 || newCol == oldCol - 1)
      && newRow == oldRow + Forward(p.color)
  }

  /** Exactly one of the row and column changes. */
  predicate RookShape(dr: int, dc: int) {
    (dr == 0 && dc != 0) || (dr != 0 && dc == 0)
  }

  /** Equal, nonzero absolute row and column changes. */
  predicate BishopShape(dr: int, dc: int) {
    Abs(dr) == Abs(dc) && dr != 0
  }

  /** One square in any of the eight directions. */
  predicate KingShape(dr: int, dc: int) {
    (Abs(dr) == 1 && Abs(dc) == 1) || (Abs(dr) == 1 && dc == 0) || (dr == 0 && Abs(dc) == 1)
  }

  predicate KnightShape(dr: int, dc: int) {
    (Abs(dr) == 2 && Abs(dc) == 1) || (Abs(dr) == 1 && Abs(dc) == 2)
  }

  /** `Board::isLegalMove`: the per-kind switch on the origin square. */
  predicate LegalMove(g: Grid, oldRow: int, oldCol: int, newRow: int, newCol: int)
    requires InBounds(oldRow, oldCol) && InBounds(newRow, newCol)
  {
    var p := g[oldRow][oldCol];
    var dr := oldRow - newRow;
    var dc := oldCol - newCol;
    match p.kind
    case Empty => false
    case Pawn => PawnMove(g, oldRow, oldCol, newRow, newCol)
    case Rook => PathClear(g, oldRow, oldCol, newRow, newCol) && RookShape(dr, dc)
    case Bishop => PathClear(g, oldRow, oldCol, newRow, newCol) && BishopShape(dr, dc)
    case Queen => PathClear(g, oldRow, oldCol, newRow, newCol) && (BishopShape(dr, dc) || RookShape(dr, dc))
    case King => PathClear(g, oldRow, oldCol, newRow, newCol) && KingShape(dr, dc)
    case Knight =>
      KnightShape(dr, dc)
      && (g[newRow][newCol].kind == Empty || g[newRow][newCol].color != p.color)
  }

  predicate Legal(g: Grid, mv: Move) {
    LegalMove(g, mv.oldRow, mv.oldCol, mv.newRow, mv.newCol)
  }

  /** The piece on (row, col) can be taken by an opposing, non-empty piece on (i, j). */
  predicate AttackerAt(g: Grid, i: int, j: int, row: int, col: int, color: int)
    requires InBounds(i, j) && InBounds(row, col)
  {
    g[i][j].color != color && g[i][j].kind != Empty && LegalMove(g, i, j, row, col)
  }

  /** Some opposing non-empty piece has a legal move onto (row, col): the negation of `isPieceSafe`. */
  ghost predicate Attacked(g: Grid, row: int, col: int, color: int)
    requires InBounds(row, col)
  {
    exists i, j :: InBounds(i, j) && AttackerAt(g, i, j, row, col, color)
  }

  predicate IsKingOf(p: Piece, color: int) {
    p.kind == King && p.color == color
  }

  /** The first column at or after j in row `row` holding a King of `color`. */
  function FirstKingInRow(g: Grid, color: int, row: int, j: int): (r: Option<int>)
    requires 0 <= row < 8 && 0 <= j <= 8
    ensures r.Some? ==> (j <= r.value < 8 && IsKingOf(g[row][r.value], color)
      && forall c :: j <= c < r.value ==> !IsKingOf(g[row][c], color))
    ensures r.None? ==> forall c :: j <= c < 8 ==> !IsKingOf(g[row][c], color)
    decreases 8 - j
  {
    if j == 8 then None
    else if IsKingOf(g[row][j], color) then Some(j)
    else FirstKingInRow(g, color, row, j + 1)
  }

  /**
   * The square the king scan of `isKingSafe` settles on among rows 0..i-1:
   * its `break` leaves only the inner loop, so it is the first column of
   * the last row holding a King of that colour.
   */
  function KingInRows(g: Grid, color: int, i: int): (r: Option<(int, int)>)
    requires 0 <= i <= 8
    ensures r.Some? ==> (0 <= r.value.0 < i && 0 <= r.value.1 < 8
      && IsKingOf(g[r.value.0][r.value.1], color)
      && (forall c :: 0 <= c < r.value.1 ==> !IsKingOf(g[r.value.0][c], color))
      && (forall row, c :: r.value.0 < row < i && 0 <= c < 8 ==> !IsKingOf(g[row][c], color)))
    ensures r.None? <==> forall row, c :: 0 <= row < i && 0 <= c < 8 ==> !IsKingOf(g[row][c], color)
  {
    if i == 0 then None
    else match FirstKingInRow(g, color, i - 1, 0)
      case Some(c) => Some((i - 1, c))
      case None => KingInRows(g, color, i - 1)
  }

  function KingLocation(g: Grid, color: int): Option<(int, int)> {
    KingInRows(g, color, 8)
  }

  /** `isKingSafe`: -2 with no King of that colour, 0 when its King is attacked, 1 otherwise. */
  ghost function KingSafety(g: Grid, color: int): int {
    match KingLocation(g, color)
    case None => -2
    case Some(sq) => if Attacked(g, sq.0, sq.1, color) then 0 else 1
  }

  /** A move `isCheckmate` and `suggestMove` try: from a non-empty square of `color`, and legal. */
  predicate IsCandidate(g: Grid, color: int, mv: Move) {
    g[mv.oldRow][mv.oldCol].kind != Empty && g[mv.oldRow][mv.oldCol].color == color
    && Legal(g, mv)
  }

  /** The grid with square (row, col) replaced by p. */
  function Put(g: Grid, row: int, col: int, p: Piece): (r: Grid)
    requires InBounds(row, col)
    ensures r[row][col] == p
    ensures forall i, j :: InBounds(i, j) && (i, j) != (row, col) ==> r[i][j] == g[i][j]
  {
    g[row := g[row][col := p]]
  }

  /** The grid after `movePiece` relocates the origin piece, marking it moved, and empties the origin. */
  function Apply(g: Grid, mv: Move): (r: Grid)
    ensures (mv.oldRow, mv.oldCol) != (mv.newRow, mv.newCol) ==>
      r[mv.newRow][mv.newCol] == g[mv.oldRow][mv.oldCol].SetMoved(1)
    ensures r[mv.oldRow][mv.oldCol] == DefaultPiece
    ensures forall i, j ::
      InBounds(i, j) && (i, j) != (mv.oldRow, mv.oldCol) && (i, j) != (mv.newRow, mv.newCol) ==> r[i][j] == g[i][j]
  {
    var moved := g[mv.oldRow][mv.oldCol].SetMoved(1);
    var g1 := g[mv.newRow := g[mv.newRow][mv.newCol := moved]];
    g1[mv.oldRow := g1[mv.oldRow][mv.oldCol := g1[mv.oldRow][mv.oldCol].MakeEmpty()]]
  }

  /**
   * `isCheckmate`: 1 unless the King is attacked (also when it is
   * missing); otherwise 0 when some candidate move leaves `isKingSafe`
   * nonzero, and -1 when none does.
   */
  ghost function CheckmateStatus(g: Grid, color: int): int {
    if KingSafety(g, color) != 0 then 1
    else if exists mv :: IsCandidate(g, color, mv) && KingSafety(Apply(g, mv), color) != 0 then 0
    else -1
  }

  /** The back-rank order R N B Q K B N R used by `createBoard`. */
  function BackRank(col: int): PieceType
    requires 0 <= col < 8
  {
    if col == 0 || col == 7 then Rook
    else if col == 1 || col == 6 then Knight
    else if col == 2 || col == 5 then Bishop
    else if col == 3 then Queen
    else King
  }

  /** The square (row, col) of the starting position: Black (colour 1) on rows 0 and 1, White on rows 6 and 7. */
  function InitialPiece(row: int, col: int): Piece
    requires InBounds(row, col)
  {
    if row == 0 then Piece(BackRank(col), 1, 0)
    else if row == 1 then Piece(Pawn, 1, 0)
    else if row == 6 then Piece(Pawn, 0, 0)
    else if row == 7 then Piece(BackRank(col), 0, 0)
    else DefaultPiece
  }

  function InitialGrid(): (g: Grid)
    ensures forall r, c :: InBounds(r, c) ==> g[r][c] == InitialPiece(r, c)
  {
    seq(8, r requires 0 <= r < 8 => seq(8, c requires 0 <= c < 8 => InitialPiece(r, c)))
  }
}
