/**
 * The save-file layout of `saveToFile` and `loadFromFile` (Board.cpp): the
 * side to move on the first line, then one line "row,col,type,colour" per
 * non-empty square in row-major order. Loading applies the lines to a
 * cleared board, so a round trip keeps every piece's kind, colour and
 * square and resets its moved flag.
 */
module SaveFormat {
  import opened Pieces
  import opened Rules

  /**
   * One piece line: square, `static_cast<int>` of the kind, and colour.
   * Row and column are board coordinates: load indexes the grid with
   * them unchecked, so the file format promises nothing else.
   */
  datatype Record = Record(row: Coord, col: Coord, typeCode: int, color: int)

  /** A parsed save file: the turn value and the piece lines in file order. */
  datatype SaveFile = SaveFile(turn: int, records: seq<Record>)

  /** The line `saveToFile` writes for square (row, col): none for an Empty square. */
  function RecordOf(g: Grid, row: Coord, col: Coord): seq<Record> {
    var typeInt := TypeCode(g[row][col].kind);
    if typeInt != 6 then [Record(row, col, typeInt, g[row][col].color)] else []
  }

  /** The lines of the first n squares in row-major order (square 8 * row + col). */
  function EncodeSquares(g: Grid, n: int): seq<Record>
    requires 0 <= n <= 64
  {
    if n == 0 then [] else EncodeSquares(g, n - 1) + RecordOf(g, (n - 1) / 8, (n - 1) % 8)
  }

  /** The lines up to square 8 * row + col, then those of square (row, col); a row ends at the next row's start. */
  lemma EncodeNextSquare(g: Grid, row: Coord, col: Coord)
    ensures 8 * row + col + 1 <= 64
    ensures EncodeSquares(g, 8 * row + col + 1) == EncodeSquares(g, 8 * row + col) + RecordOf(g, row, col)
    ensures RecordOf(g, row, col) == [] ==> EncodeSquares(g, 8 * row + col + 1) == EncodeSquares(g, 8 * row + col)
    ensures 8 * row + col + 1 == 8 * (row + 1) + 0 <==> col == 7
  {
    assert (8 * row + col) / 8 == row && (8 * row + col) % 8 == col;
    assert EncodeSquares(g, 8 * row + col) + [] == EncodeSquares(g, 8 * row + col);
  }

  /** The whole file `saveToFile(turn)` writes. */
  function Encode(g: Grid, turn: int): SaveFile {
    SaveFile(turn, EncodeSquares(g, 64))
  }

  /** One iteration of load's parse loop: `setType` then `setColor` on the named square. */
  function Restore(g: Grid, rec: Record): (r: Grid)
    ensures r[rec.row][rec.col] == Piece(TypeFromCode(rec.typeCode), rec.color, g[rec.row][rec.col].hasMoved)
    ensures forall i, j :: InBounds(i, j) && (i, j) != (rec.row, rec.col) ==> r[i][j] == g[i][j]
  {
    Put(g, rec.row, rec.col, g[rec.row][rec.col].SetType(rec.typeCode).SetColor(rec.color))
  }

  /** The grid after the parse loop has applied `records`, in order, to g. */
  function Decode(g: Grid, records: seq<Record>): Grid {
    if records == [] then g
    else Restore(Decode(g, records[..|records| - 1]), records[|records| - 1])
  }

  /** The board `loadFromFile` builds from a file: the records applied to a cleared board. */
  function Load(file: SaveFile): Grid {
    Decode(EmptyGrid(), file.records)
  }

  /** A square after a save and a load: kind, colour and square survive, the moved flag is 0. */
  function Reloaded(p: Piece): (q: Piece)
    ensures q.kind == p.kind && q.hasMoved == 0
    ensures p.kind != Empty ==> q.color == p.color
    ensures p.kind == Empty ==> q == DefaultPiece
  {
    if p.kind == Empty then DefaultPiece else Piece(p.kind, p.color, 0)
  }

  /** A line is written for a square exactly when it holds a piece, and carries its code and colour. */
  lemma {:induction false} EncodeSquaresMembers(g: Grid, n: int)
    requires 0 <= n <= 64
    ensures forall rec :: rec in EncodeSquares(g, n) <==>
      8 * rec.row + rec.col < n && g[rec.row][rec.col].kind != Empty
      && rec == Record(rec.row, rec.col, TypeCode(g[rec.row][rec.col].kind), g[rec.row][rec.col].color)
  {
    if n > 0 {
      EncodeSquaresMembers(g, n - 1);
      var row: Coord, col: Coord := (n - 1) / 8, (n - 1) % 8;
      assert forall rec: Record :: 8 * rec.row + rec.col == n - 1 <==> rec.row == row && rec.col == col;
    }
  }

  /** Applying a line to the square it names leaves every earlier square alone. */
  lemma DecodeSnoc(g: Grid, records: seq<Record>, rec: Record)
    ensures Decode(g, records + [rec]) == Restore(Decode(g, records), rec)
  {
    assert (records + [rec])[..|records|] == records;
  }

  /**
   * Loading the first n squares' lines onto a cleared board restores those
   * squares (as `Reloaded`) and leaves the rest default.
   */
  lemma {:induction false} DecodeEncodeSquares(g: Grid, n: int)
    requires 0 <= n <= 64
    ensures forall r, c :: InBounds(r, c) ==>
      Decode(EmptyGrid(), EncodeSquares(g, n))[r][c] == if 8 * r + c < n then Reloaded(g[r][c]) else DefaultPiece
  {
    if n > 0 {
      DecodeEncodeSquares(g, n - 1);
      var row: Coord, col: Coord := (n - 1) / 8, (n - 1) % 8;
      assert forall r, c :: InBounds(r, c) ==> (8 * r + c == n - 1 <==> r == row && c == col);
      var prefix := EncodeSquares(g, n - 1);
      if g[row][col].kind == Empty {
        assert EncodeSquares(g, n) == prefix + [];
        assert prefix + [] == prefix;
      } else {
        var rec := Record(row, col, TypeCode(g[row][col].kind), g[row][col].color);
        assert EncodeSquares(g, n) == prefix + [rec];
        DecodeSnoc(EmptyGrid(), prefix, rec);
      }
    }
  }

  /** Save then load: the side to move comes back, and every square comes back as `Reloaded`. */
  lemma RoundTrip(g: Grid, turn: int)
    ensures Encode(g, turn).turn == turn
    ensures forall r, c :: InBounds(r, c) ==> Load(Encode(g, turn))[r][c] == Reloaded(g[r][c])
  {
    DecodeEncodeSquares(g, 64);
  }

  /**
   * A board whose empty squares are default pieces and whose pieces have
   * not moved, such as the starting position, survives a save and a load
   * unchanged.
   */
  lemma RoundTripIdentity(g: Grid, turn: int)
    requires forall r, c :: InBounds(r, c) ==> g[r][c].hasMoved == 0
    requires forall r, c :: InBounds(r, c) && g[r][c].kind == Empty ==> g[r][c] == DefaultPiece
    ensures Load(Encode(g, turn)) == g
  {
    RoundTrip(g, turn);
    GridExtensionality(Load(Encode(g, turn)), g);
  }

  lemma InitialGridRoundTrip()
    ensures Load(Encode(InitialGrid(), 0)) == InitialGrid()
  {
    RoundTripIdentity(InitialGrid(), 0);
  }

  /** A later line for the same square overrides an earlier one; a line with an unknown code empties its square. */
  lemma LaterLineWins(g: Grid, records: seq<Record>, rec: Record)
    ensures Decode(g, records + [rec])[rec.row][rec.col]
      == Piece(TypeFromCode(rec.typeCode), rec.color, Decode(g, records)[rec.row][rec.col].hasMoved)
    ensures !(0 <= rec.typeCode <= 5) ==> Decode(g, records + [rec])[rec.row][rec.col].kind == Empty
  {
    DecodeSnoc(g, records, rec);
  }
}
