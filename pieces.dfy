/**
 * The piece value type of the console chess game (Piece.h, Piece.cpp).
 *
 * A C++ `Piece` lives by value inside the board's vectors and is copied on
 * every assignment, so it is a datatype here; each setter is a member
 * function returning the updated value, which the board stores back.
 */
module Pieces {

  /** Piece kinds, in the order of the C++ enum (Pawn = 0 ... King = 5, Empty = 6). */
  datatype PieceType = Pawn | Rook | Knight | Bishop | Queen | King | Empty

  /** `static_cast<int>` of a kind: the type code written to save files. */
  function TypeCode(t: PieceType): (n: int)
    ensures 0 <= n <= 6
    ensures n == 6 <==> t == Empty
    ensures TypeFromCode(n) == t
  {
    match t
    case Pawn => 0
    case Rook => 1
    case Knight => 2
    case Bishop => 3
    case Queen => 4
    case King => 5
    case Empty => 6
  }

  /** The decoding of `Piece::setType(int)`: 0..5 pick a kind, 6 and every other int give Empty. */
  function TypeFromCode(n: int): (t: PieceType)
    ensures t == Empty <==> !(0 <= n <= 5)
    ensures n == 0 <==> t == Pawn
    ensures n == 5 <==> t == King
    ensures n == 1 <==> t == Rook
    ensures n == 2 <==> t == Knight
    ensures n == 3 <==> t == Bishop
    ensures n == 4 <==> t == Queen
  {
    match n
    case 0 => Pawn
    case 1 => Rook
    case 2 => Knight
    case 3 => Bishop
    case 4 => Queen
    case 5 => King
    case 6 => Empty
    case _ => Empty
  }

  /** Decoding then encoding a code in 0..5 gives the code back. */
  lemma CodeRoundTrip(n: int)
    requires 0 <= n <= 5
    ensures TypeCode(TypeFromCode(n)) == n
  {
  }

  /** The lower-case letter of a kind, as `getSymbol` prints Black pieces. */
  function Letter(t: PieceType): (ch: char)
    requires t != Empty
    ensures 'a' <= ch <= 'z'
  {
    match t
    case Pawn => 'p'
    case Rook => 'r'
    case Knight => 'n'
    case Bishop => 'b'
    case Queen => 'q'
    case King => 'k'
  }

  function Upper(ch: char): (u: char)
    requires 'a' <= ch <= 'z'
    ensures 'A' <= u <= 'Z'
  {
    (ch as int - 32) as char
  }

  /**
   * A square's content. `color` is 0 for White and 1 for Black (the load path
   * can store any int); `hasMoved` starts at 0 and becomes 1 once the piece moves.
   * The accessors `kind`, `color` and `hasMoved` are the three getters.
   */
  datatype Piece = Piece(kind: PieceType, color: int, hasMoved: int) {

    /** `setType(int)`: only the kind changes. */
    function SetType(code: int): (p: Piece)
      ensures p.kind == TypeFromCode(code)
      ensures p.color == color && p.hasMoved == hasMoved
    {
      this.(kind := TypeFromCode(code))
    }

    /** `setColor`: only the colour changes. */
    function SetColor(newColor: int): (p: Piece)
      ensures p.color == newColor
      ensures p.kind == kind && p.hasMoved == hasMoved
    {
      this.(color := newColor)
    }

    /** `setMoved`: only the moved flag changes. */
    function SetMoved(newStatus: int): (p: Piece)
      ensures p.hasMoved == newStatus
      ensures p.kind == kind && p.color == color
    {
      this.(hasMoved := newStatus)
    }

    /** `makeEmpty`: whatever the piece was, it becomes the default empty square. */
    function MakeEmpty(): (p: Piece)
      ensures p == DefaultPiece
      ensures p.kind == Empty && p.color == 0 && p.hasMoved == 0
    {
      Piece(Empty, 0, 0)
    }

    /** `getSymbol`: '.' for Empty, upper case for colour 0, lower case for any other colour. */
    function Symbol(): (ch: char)
      ensures kind == Empty ==> ch == '.'
      ensures kind != Empty && color == 0 ==> ch == Upper(Letter(kind))
      ensures kind != Empty && color != 0 ==> ch == Letter(kind)
      ensures ('A' <= ch <= 'Z') <==> (kind != Empty && color == 0)
    {
      match kind
      case Empty => '.'
      case _ => if color == 0 then Upper(Letter(kind)) else Letter(kind)
    }
  }

  /** The constructor with all its defaults: `Piece()` is an empty White unmoved square. */
  const DefaultPiece: Piece := Piece(Empty, 0, 0)

  /** Two non-empty pieces print the same symbol exactly when they have the same kind and side. */
  lemma SymbolIdentifiesPiece(p: Piece, q: Piece)
    requires p.kind != Empty && q.kind != Empty
    ensures p.Symbol() == q.Symbol() <==> p.kind == q.kind && (p.color == 0 <==> q.color == 0)
  {
  }
}
