# not-so-smart-chess, modelled in Dafny

A verified model of the console chess game's rules engine and turn loop.

The C++ `Board` class keeps the position in two 8×8 grids of `Piece`
values: `board` and the one-move snapshot `previousBoard`. A move is
legal when a per-kind switch accepts it (`isLegalMove`), using a ray walk
for the straight-line pieces (`isPathEmpty`). `movePiece` snapshots the
board and plays a legal move, and `revertMove` puts the snapshot back.
`isKingSafe`, `isPieceSafe` and `isCheckmate` brute-force scan for
attacks and escapes. `calculateScore` and `suggestMove` score every legal
move and keep the best ones. `inputMove` decodes long-form coordinate
input ("e2e4") and four commands. `saveToFile`/`loadFromFile` write and
read one line per piece.

`main` runs the turn loop around all this:

- it retries invalid input up to four prompts;
- it runs commands;
- it undoes a move that leaves the mover's King attacked;
- otherwise it hands the turn over and computes the opponent's status;
- it ends on checkmate.

`a.cpp` is a separate, smaller program with its own `ChessBoard` and a
validator without path checks.

Modules, one per file:

- `Pieces` (pieces.dfy): the `Piece` value type of Piece.h/Piece.cpp. The type codes, the setters as value updates, and `getSymbol`.
- `Rules` (rules.dfy): the rules as pure specifications. Grids, the walk, the per-kind legality (`LegalMove`), attacks, the King scan, `KingSafety`, `CheckmateStatus`, the effect of a move (`Apply`) and the starting position.
- `RuleFacts` (rule_facts.dfy): lemmas restating each kind's rule in closed form, the meaning of the status codes, and concrete scenarios: a pawn double step, a blocked rook, the starting position (both Kings safe) and the fool's mate (White mated).
- `Search` (search.dfy): the score in integer half-points, the candidate moves in loop order, the best moves, and the suggestion pick.
- `SaveFormat` (save_format.dfy): the save file as data, with `Encode`/`Load` and the round trip.
- `Boards` (board.dfy): the `Board` class. Its grids are `seq` fields. Every modelled loop of Board.cpp is a method proved against the `Rules`/`Search` specification (the exceptions are the second King search inside `isCheckmate`, Board.cpp:376-392, which is folded into the specification and covered by `RuleFacts.AttackedKingExists`, and `printBoard`, which is left out), and `movePiece`/`revertMove`/`isCheckmate`/`suggestMove`/`loadFromFile` update the fields in place.
- `Games` (game.dfy): `main`'s loop as the class `Game`. Its methods are proved equal to the state functions `ReadOf`, `AfterCommand`, `AfterMove` and `RoundOf`, and lemmas state what a round does.
- `SimpleChess` (simple_chess.dfy): a.cpp's `ChessBoard`. The validator is pure functions, and the board set-up and moves are methods on a `seq` grid field (a.cpp's `vector` of rows).

How the model represents the source:

- Scores are integer half-points. Every value the C++ `double` takes is a multiple of 0.5, so `score` in half-points is exact. `INT_MIN`, the starting best score, becomes `-2 * 2147483648` half-points, and every real score is proved to be above it.
- Input and environment are parameters. Each prompt of the turn loop is an `Entry`, which holds:
  - the line typed;
  - whether `save` finds its random file name free;
  - the parsed file `load` finds under the ID typed (or none);
  - the value `std::rand()` gives a `suggest`.
- The turn loop is specified by `RoundOf` (one pass of main's `do … while`) and `GameOf` (passes until one ends). `Game.Round` and `Game.Play` are stated over a ghost function parameter `round` that `IsRoundOf` ties to `RoundOf`. `RoundOfStandsIn` proves that `RoundOf` itself qualifies.
- Board.h's comments on `isKingSafe` and `isCheckmate` describe the code 0 as "there is at least one move to save it", and list -2 among `isCheckmate`'s results. The code returns 0 from `isKingSafe` whenever the King is attacked, and `isCheckmate` never returns -2 from its top level. The model follows the code (`RuleFacts.KingSafetyCodes`, `RuleFacts.CheckmateCodes`).

## Model

| member | source | states |
|---|---|---|
| Pieces.TypeCode | Piece.h:4-6 | The enum value of a kind is 0..6, 6 exactly for Empty, and decoding it gives the kind back. This is the code save writes and load reads. |
| Pieces.TypeFromCode | Piece.cpp:59-86 | `setType(int)` decoding: exactly the ints outside 0..5 give Empty, and each code 0..5 gives exactly its kind (0 Pawn, 1 Rook, 2 Knight, 3 Bishop, 4 Queen, 5 King). |
| Pieces.CodeRoundTrip | Piece.cpp:59-86 | Every code 0..5 comes back unchanged after a decode and an encode. |
| Pieces.Piece.SetType | Piece.cpp:59-86 | Only the kind changes, to the decoded code; colour and moved flag are kept. |
| Pieces.Piece.SetColor | Piece.cpp:88-90 | Only the colour changes. |
| Pieces.Piece.SetMoved | Piece.cpp:92-94 | Only the moved flag changes. |
| Pieces.Piece.MakeEmpty | Piece.cpp:96-100 | Whatever the piece was, the result is (Empty, 0, 0): the default piece of Piece.h:11. |
| Pieces.Piece.Symbol | Piece.cpp:19-53 | '.' for Empty; colour 0 gives the upper-case letter of the kind and any other colour the lower-case one; upper-case exactly for colour-0 pieces. |
| Pieces.SymbolIdentifiesPiece | Piece.cpp:19-53 | Two non-empty pieces show the same symbol exactly when they have the same kind and are both colour 0 or both not. |
| Rules.EmptyGrid | Board.cpp:43-48 | The cleared board: 8×8, every square the default piece. |
| Rules.WalkLength | Board.cpp:290-318 | The walk of `isPathEmpty` takes no step exactly when origin and destination coincide. |
| Rules.WalkSquare | Board.cpp:290-318 | Every square the walk visits lies in the rectangle between origin and destination, so on the board whenever both ends are. Step 0 is the origin. |
| Rules.FirstKingInRow | Board.cpp:338-344 | The inner scan with its `break` finds the first column of the row holding a King of that colour, or reports there is none. |
| Rules.KingInRows | Board.cpp:337-345 | The King scan keeps the last row holding a King of that colour, at that row's first such column. It finds none exactly when no such King exists. |
| Rules.Put | Board.cpp:152-156 | One square is replaced and every other square is kept. |
| Rules.Apply | Board.cpp:150-156 | A move puts the origin piece, marked as moved, on the destination, empties the origin, and keeps all other squares. |
| Rules.InitialGrid | Board.cpp:7-41 | Every square holds the piece of the starting position. |
| RuleFacts.LineWalkReachesDestination | Board.cpp:290-318 | On a rook or bishop line the walk takes max(abs(Δrow), abs(Δcol)) steps and ends on the destination. |
| RuleFacts.StraightLineRule | Board.cpp:206-251 | Rook, Bishop, Queen and King moves are legal exactly when the kind's geometry holds, every square strictly between is empty, and the destination is empty or of another colour. |
| RuleFacts.PawnRule | Board.cpp:179-205 | A pawn (colour 0 toward row−1, otherwise row+1) may take one step onto an empty square, two steps when unmoved with both squares empty, or one diagonal step onto an opposing piece, and nothing else. |
| RuleFacts.KnightRule | Board.cpp:252-267 | A knight move is legal exactly on the (1,2)/(2,1) shape onto an empty or differently coloured square, with no path test. |
| RuleFacts.IllegalForEveryKind | Board.cpp:170-272 | An empty origin, a null move, and a destination of the mover's own colour are illegal for every kind. |
| RuleFacts.KingSafetyCodes | Board.cpp:327-366 | `isKingSafe` gives -2, 0 or 1: -2 exactly when that colour has no King, 0 exactly when the located King is attacked. |
| RuleFacts.SingleKingIsLocated | Board.cpp:337-345 | With exactly one King of a colour, the scan locates it. |
| RuleFacts.CheckmateCodes | Board.cpp:368-424 | `isCheckmate` gives 1, 0 or -1, never -2. It gives 1 exactly when `isKingSafe` is not 0 (so also for a missing King), and -1 exactly when the King is attacked and every candidate move leaves it attacked. |
| RuleFacts.AttackedKingExists | Board.cpp:347-349 | An attacked status implies a located King, so the rescan of `isCheckmate` never reports a missing King. |
| RuleFacts.PawnDoubleStepScenario | Board.cpp:185-195 | e2e4 is legal from the starting position. After e2e3 the pawn is marked moved and may no longer step two squares. |
| RuleFacts.RookBlockedScenario | Board.cpp:301-309 | An unmoved rook on a1 with a piece on a2 cannot move up the a-file. |
| RuleFacts.LegalNeedsShape | Board.cpp:170-272 | A legal move has its kind's geometry: a pawn one row forward (straight or one column aside) or two straight, and the rook, bishop, queen, king and knight shapes. |
| RuleFacts.HomeUnattacked | Board.cpp:351-365 | In the starting position no opposing piece attacks e1 (for White) or e8 (for Black). |
| RuleFacts.StartingKingsSafe | Board.cpp:327-366 | In the starting position `isKingSafe` finds each King on its home square (e1, e8) and gives 1 for both colours. |
| RuleFacts.FoolsMatePawnMovesLegal | Board.cpp:179-205 | f3, e5 and g4 are legal pawn moves in turn: one step, and two steps over an empty square for unmoved pawns. |
| RuleFacts.FoolsMateQueenMoveLegal | Board.cpp:228-239 | Qh4 is then legal: the diagonal d8–h4 is empty. |
| RuleFacts.FoolsMatePosition | Board.cpp:141-160 | 1. f3 e5 2. g4 Qh4 are legal in turn from the starting position, and `movePiece` leaves exactly the fool's mate position, moved pieces marked as moved. |
| RuleFacts.QueenChecksKing | Board.cpp:351-362 | A Black Queen on h4 attacks a White King on e1 over empty f2 and g3, or on f2 over empty g3. |
| RuleFacts.NoInterposition | Board.cpp:170-272 | In the fool's mate position no White move lands on f2 or g3 or captures the Queen, except the King's step to f2, its only move. |
| RuleFacts.OnlyKingOntoF2 | Board.cpp:170-272 | In the fool's mate position no White piece but the King has a legal move to f2. |
| RuleFacts.NoneOntoG3 | Board.cpp:179-205 | In that position no White piece has a legal move to g3; the h2 pawn may not move diagonally onto an empty square. |
| RuleFacts.NoneOntoH4 | Board.cpp:170-272 | In that position no White piece can capture the Queen on h4. |
| RuleFacts.RookH1Blocked | Board.cpp:301-309 | The h2 pawn blocks the h1 rook's path to h4. |
| RuleFacts.KingOnlyToF2 | Board.cpp:240-251 | The White King's only legal move in that position is e1–f2. |
| RuleFacts.KingAfterMove | Board.cpp:337-345 | After a White move from that position the King scan settles on the White King where it now stands. |
| RuleFacts.KingStillChecked | Board.cpp:351-362 | A White move from that position that neither blocks nor captures the Queen leaves the White King attacked. |
| RuleFacts.MoveKeepsCheck | Board.cpp:398-416 | Every candidate White move from that position fails the trial of `isCheckmate`: `isKingSafe` gives 0 after it. |
| RuleFacts.WhiteInCheck | Board.cpp:327-366 | In the fool's mate position `isKingSafe` gives 0 for White. |
| RuleFacts.BlackKingSafe | Board.cpp:327-366 | In the fool's mate position `isKingSafe` gives 1 for Black. |
| RuleFacts.E8Unattacked | Board.cpp:351-365 | In that position no White piece attacks e8. |
| RuleFacts.FoolsMateScenario | Board.cpp:368-424 | After the fool's mate `isCheckmate` gives -1 for White, the side to move, and `isKingSafe` gives 1 for Black. |
| Search.SquareScore | Board.cpp:466-509 | One square adds between -1000 (an attacked own King, 500 points) and 18 half-points (an unattacked Queen). |
| Search.RowScore | Board.cpp:467-509 | A row prefix of m squares scores between -1000m and 18m half-points. |
| Search.RowsScore | Board.cpp:466-511 | k rows score between -8000k and 144k half-points. |
| Search.Score | Board.cpp:449-516 | The whole score lies between -64000 and 1152 half-points, strictly above `INT_MIN`, so the first legal move always replaces the starting best. |
| Search.MovesOntoRowMembers | Board.cpp:538-555 | The innermost loop tries exactly the legal moves from (i, j) onto row k, in column order. |
| Search.MovesFromSquareMembers | Board.cpp:537-556 | The two inner loops try exactly the legal moves from (i, j), in row-major order. |
| Search.MovesFromRowMembers | Board.cpp:533-557 | The moves tried from row i are exactly the candidate moves from that row's own pieces, in order. |
| Search.MovesFromRowsMembers | Board.cpp:532-559 | The moves tried from rows 0..i-1 are exactly their candidate moves, in order. |
| Search.CandidateMovesMembers | Board.cpp:532-559 | The four loops try every candidate move (own non-empty piece, legal move) once each, in ascending (i, j, k, m) order, and nothing else. |
| Search.HighestScoreIsMaximum | Board.cpp:542-547 | The running maximum ends at the highest score reached. It is reached by some move when there is one, and stays `INT_MIN` when there is none. |
| Search.WithScoreMembers | Board.cpp:542-549 | A move is kept for a score exactly when it is tried and reaches that score. |
| Search.WithHighestScoreIsOptimal | Board.cpp:542-549 | The moves kept at the highest score are exactly the tried moves that no tried move outscores. |
| Search.RunFindsBest | Board.cpp:540-550 | The clear-and-push loop over any move list ends with the highest score and exactly the moves reaching it, in order. |
| Search.BestMovesAreOptimal | Board.cpp:518-559 | `bestMoves` holds exactly the candidate moves whose score no other candidate beats. |
| Search.BestMovesEmptyIffNoMove | Board.cpp:526-561 | `bestMoves` is empty exactly when the colour has no candidate move. |
| Search.SuggestionIndexAsWritten | Board.cpp:561 | The pick `rand() % size` is an index into the list, but only for a non-empty list. |
| Search.Suggestion | Board.cpp:561-565 | The corrected pick: a suggestion exists exactly when there is a best move, and it is one of them. |
| Search.SuggestionIsBest | Board.cpp:518-565 | Whatever the random value, the suggestion is a candidate no other candidate outscores. There is none exactly when the colour has no candidate move. |
| Search.NoBestMoveOnEmptyBoard | Board.cpp:526-561 | A board without pieces gives no best move, so the pick as written divides by zero there. |
| SaveFormat.Restore | Board.cpp:657-661 | One piece line sets the named square's kind (decoded) and colour, keeps its moved flag, and keeps every other square. |
| SaveFormat.Reloaded | Board.cpp:611-614 | What a square becomes after save and load: same kind, moved flag 0, same colour for a piece, the default piece for Empty. |
| SaveFormat.EncodeSquaresMembers | Board.cpp:606-617 | A line is written for exactly the non-empty squares, with their square, type code and colour. |
| SaveFormat.DecodeEncodeSquares | Board.cpp:647-661 | Loading the lines of the first n squares onto the cleared board restores those squares as `Reloaded` and leaves the rest default. |
| SaveFormat.RoundTrip | Board.cpp:605-661 | Save then load gives back the turn, and every square as `Reloaded`. |
| SaveFormat.RoundTripIdentity | Board.cpp:605-661 | A board whose empty squares are default and whose pieces are unmoved survives save and load unchanged. |
| SaveFormat.InitialGridRoundTrip | Board.cpp:605-661 | The starting position survives save and load unchanged. |
| SaveFormat.LaterLineWins | Board.cpp:657-661 | A later line for a square overrides an earlier one, and an unknown type code empties the square. |
| Boards.BlockedWalk | Board.cpp:290-318 | The walk decides at the first occupied square: the path is clear exactly when that square is the destination and the colours differ. |
| Boards.LowerChar | Board.cpp:77-79 | ASCII `tolower`: upper-case letters become lower-case and every other character is kept. |
| Boards.Lower | Board.cpp:77-79 | Lowercasing keeps the length and maps each character by `tolower`. |
| Boards.InputCode | Board.cpp:81-137 | 2, 3, 4 and -1 exactly for "suggest", "save", "load" and "exit". 1 exactly for a four-character move a–h, 1–8, a–h, 1–8 whose origin colour is the player's. 0 for everything else (Board.h:34-41). |
| Boards.Board.constructor | Board.cpp:3-41 | Both grids start as the starting position. |
| Boards.Board.ClearBoard | Board.cpp:43-48 | The board becomes the cleared board and the snapshot is kept. |
| Boards.Board.IsPathEmpty | Board.cpp:274-323 | The result is the path-clear predicate of the origin, destination and board. |
| Boards.Board.WalkDiagonal | Board.cpp:290-300 | The diagonal loop decides the path-clear predicate for a move changing row and column. |
| Boards.Board.WalkRows | Board.cpp:301-309 | The row loop decides the path-clear predicate for a move within a column. |
| Boards.Board.WalkColumns | Board.cpp:310-318 | The column loop decides the path-clear predicate for a move within a row. |
| Boards.Board.IsLegalMove | Board.cpp:170-272 | The result is `LegalMove` of the current board. The method changes nothing. |
| Boards.Board.MovePiece | Board.cpp:141-161 | Returns exactly whether the move is legal. A legal move snapshots the old board and applies the move. An illegal one changes neither grid. |
| Boards.Board.RevertMove | Board.cpp:164-167 | The board becomes the snapshot, and the snapshot is kept. |
| Boards.Board.SaveToFile | Board.cpp:578-622 | With a free file name the file written is the encoding of the board and turn. Otherwise nothing is written. |
| Boards.Board.SaveRow | Board.cpp:608-616 | One pass of the row loop appends exactly that row's piece lines. |
| Boards.Board.LoadFromFile | Board.cpp:624-669 | A missing file gives -1 and changes nothing. Otherwise the result is the file's turn value and both grids become the loaded board. |
| Boards.Board.InputMove | Board.cpp:68-138 | The input is lowercased, the code is `InputCode` of it, the reference parameters are written as the source writes them, and code 1 implies in-bounds coordinates. |
| Boards.Board.IsPieceSafe | Board.cpp:428-447 | True exactly when no non-empty piece of another colour has a legal move onto the square. |
| Boards.Board.IsKingSafe | Board.cpp:327-366 | The result is `KingSafety` of the board. |
| Boards.Board.CalculateScore | Board.cpp:449-516 | The result is the half-point score of the board. |
| Boards.Board.IsCheckmate | Board.cpp:368-424 | The result is `CheckmateStatus` of the board and the board content is unchanged. The snapshot is kept on 1, becomes the board on 0, and on -1 becomes the board unless no move was tried at all. |
| Boards.Board.TryAllMoves | Board.cpp:398-417 | Either an escape, a candidate move after which the King is not attacked, is found, or every candidate fails. The board is unchanged either way. |
| Boards.Board.TryMovesFromRow | Board.cpp:399-416 | The same, for the candidate moves from row i. |
| Boards.Board.TryMovesFrom | Board.cpp:401-414 | The same, for the legal moves from square (i, j). |
| Boards.Board.TryMovesOnto | Board.cpp:402-413 | The same, for the legal moves from (i, j) onto row k. |
| Boards.Board.TryMove | Board.cpp:403-412 | A trial move is made and undone: it succeeds exactly when legal, then reports the King's status after it, and the board is unchanged. |
| Boards.Board.SuggestMove | Board.cpp:518-565 | `bestMoves` is `BestMoves` of the board, the suggestion is the corrected pick from it, and the board content is unchanged. |
| Boards.Board.ScoreMovesFromRow | Board.cpp:533-558 | The loops for row i continue the running maximum and best list over that row's candidate moves, leaving the board unchanged. |
| Boards.Board.ScoreMovesFrom | Board.cpp:537-556 | The same, for the moves from square (i, j). |
| Boards.Board.ScoreMovesOnto | Board.cpp:538-555 | The same, for the moves from (i, j) onto row k. |
| Boards.Board.ScoreMove | Board.cpp:540-554 | A scoring trial: it succeeds exactly when legal, then gives the score after the move, and the board is unchanged. |
| Boards.EscapeMeansCheck | Board.cpp:403-408 | An attacked King with a saving candidate move is check (0), not mate. |
| Boards.NoEscapeMeansCheckmate | Board.cpp:398-419 | An attacked King whose every tried move leaves it attacked is checkmate (-1). |
| Games.FirstValid | main.cpp:60-98 | The index of the first accepted line among the four prompts: all lines before it are rejected, and it is 4 when all four are. |
| Games.Game.constructor | main.cpp:20-23 | The game starts at the starting position, White to move, King safe, attempt 1, coordinates 0, no saves and no suggestions. |
| Games.Game.ReadLine | main.cpp:38-40 | One prompt: the code `inputMove` gives the line, and only the reference coordinates change. |
| Games.Game.Command | main.cpp:43-53 | The command of an accepted line changes the state as `AfterCommand` says: suggest, save, load (with the turn update), or nothing. |
| Games.Game.MoveStep | main.cpp:103-124 | The move step changes the state as `AfterMove` says. |
| Games.Game.HandOver | main.cpp:111-119 | The turn flips, and the new side's status is `isKingSafe`, or `isCheckmate` (with its effect on the snapshot) when that was 0. |
| Games.Game.ReadInput | main.cpp:60-98 | The prompt and retry loop end in the state, code and prompt count `ReadOf` gives: the first accepted line within four prompts, or code 0 after four rejections. |
| Games.Game.Round | main.cpp:25-129 | One pass of the `do … while` loop ends in the state, outcome and prompt count the round function gives. |
| Games.Game.Advance | main.cpp:25-129 | A pass either continues, consuming at least one prompt without changing the rest of the game, or ends the game with the game's final state and outcome. |
| Games.Game.Play | main.cpp:25-130 | The loop ends in the final state and outcome `GameOf` gives, and always with an exit or a checkmate. |
| Games.EmptyLineIsInvalid | Board.cpp:94-97 | An empty line (what the model reads past the end of the input) is rejected. |
| Games.RoundConsumesInput | main.cpp:60-100 | A pass that goes on consumes between one prompt and the rest of the input, and resets the attempt counter to 1. |
| Games.RoundOfStandsIn | main.cpp:25-129 | `RoundOf` is a valid round function, so `Play` holds of the loop as the source runs it. |
| Games.MoveStepTurn | main.cpp:104-111 | The turn flips exactly for a legal move that leaves the mover's King unattacked, and then the board is the board after the move. Otherwise the board and status are kept, and the counter, coordinates, saves and suggestions never change. |
| Games.MoveStepStatus | main.cpp:113-119 | After a flip the new status is one of -2, 1, 0, -1: no King; King safe; attacked with no escape; attacked with an escape. |
| Games.CommandKeepsGame | main.cpp:43-46 | Suggest, save and anything but load keep the board, turn, status, counter and coordinates. |
| Games.SaveThenLoad | main.cpp:45-52 | Loading a file saved earlier under a free name puts back every square as `Reloaded`, sets both grids equal, and restores the side to move unless it was -1. |
| Games.SuggestAfterEmptyLoad | main.cpp:43-48 | "load" of a file with no piece lines leaves no best move, so a following suggest shows no suggestion where the source divides by zero. |
| Games.ForcedExit | main.cpp:94-97 | A pass exits with code 1 exactly when the status is -2 or four prompts are all rejected, and it never reads more than four prompts. |
| Games.ExitCommand | main.cpp:54-57 | A pass exits with code 0 exactly when, while the stored `isKingSafe` status is not -2, "exit" (in any case) is typed within four prompts after only rejected lines. |
| Games.CheckmateEndsRound | main.cpp:117-130 | A pass that ends in checkmate was won by the side that moved. The loser is then to move, with status -1, and is indeed mated. |
| Games.MateNeedsMove | main.cpp:104-129 | Status -1 can only come from an accepted move that hands the turn to a mated side. |
| SimpleChess.InitialLayout | a.cpp:107-130 | Black pieces on rows 0-1, White on 6-7, pawns on rows 1 and 6, back ranks R N B Q K B N R, all else empty. |
| SimpleChess.ValidMove | a.cpp:165-202 | `isValidMove` as written, with a.cpp's pawn rule: an accepted move is on the board, starts on a piece, does not land on the mover's own colour, and moves. |
| SimpleChess.ValidMoveCorrected | a.cpp:165-202 | The corrected validator (pawns toward the opponent): the same screening guarantees as `ValidMove`. |
| SimpleChess.ValidMoveString | a.cpp:81-92 | `isValidMove(string)` as written: an accepted string has four characters: file a–h, rank 1–8, file a–h, rank 1–8. |
| SimpleChess.ValidMoveStringCorrected | a.cpp:81-92 | The same parse over the corrected validator, with the same format guarantee. |
| SimpleChess.Moved | a.cpp:204-208 | The start square becomes (None, White), the end square gets the start piece, and every other square is kept. |
| SimpleChess.ChessBoard.constructor | a.cpp:63-65 | A new board holds the initial layout. |
| SimpleChess.ChessBoard.InitializeBoard | a.cpp:107-119 | The pawn loop and the two back-rank calls produce the initial layout. |
| SimpleChess.ChessBoard.InitializePieces | a.cpp:121-130 | The named rank gets R N B Q K B N R of the colour, and every other row is kept. |
| SimpleChess.ChessBoard.MoveSquares | a.cpp:204-208 | The board becomes the board with the piece moved. |
| SimpleChess.ChessBoard.MovePiece | a.cpp:94-105 | `movePiece(string)` as written: a string the as-written validator accepts moves the piece it names, and a rejected one leaves the board unchanged (so "e2e4" on the initial layout changes nothing). |
| SimpleChess.ChessBoard.MovePieceCorrected | a.cpp:94-105 | The corrected `movePiece(string)`: the same, over the corrected validator. |
| SimpleChess.NoPathCheck | a.cpp:186-201 | Validity of a non-pawn move depends only on its start and end squares: pieces in between never matter. |
| SimpleChess.KindRules | a.cpp:234-253 | Rook: exactly one coordinate changes. Bishop: abs(dx) equals abs(dy). Queen: either. King: both at most 1. Knight: {abs(dx), abs(dy)} is {1, 2}. An empty start is never valid. |
| SimpleChess.CorrectionOnlyChangesPawns | a.cpp:184-197 | For every start square not holding a pawn, the corrected validator agrees with the one as written. |
| SimpleChess.PawnAdvances | a.cpp:210-232 | As written, a pawn move is valid exactly when it goes one row in a.cpp's direction (+1 for White, −1 for Black), straight onto an empty square or one column aside onto an opposing piece, or two rows straight over an empty square from row 1 (White) or row 6 (Black). |
| SimpleChess.PawnAdvancesCorrected | a.cpp:210-232 | Corrected, the same closed form with the direction −1 for White and +1 for Black and the double step from rows 6 (White) and 1 (Black), both directions. |
| SimpleChess.OpeningPawnMoves | a.cpp:210-232 | Corrected: every pawn of either side may step one or two squares from the initial layout. |
| SimpleChess.PromptExamplesAccepted | a.cpp:266-279 | Corrected: the prompts' examples, e2e4 and then e7e5, are accepted by the corrected string validator. |
| SimpleChess.NoOpeningPawnMoveAsWritten | a.cpp:210-232 | As written, `isValidMove` gives no pawn of either side any move from the initial layout, and `isValidMove(string)` rejects e2e4. |

## Left out

- Console output: `printBoard` (Board.cpp:51-65, a.cpp:67-79), `pieceToSymbol`, the "Suggested move" line and every message of `main`. The model keeps the suggestion itself in `Game.suggested`; the rest is output only.
- `srand`/`time`/`rand` (Board.cpp:529, 561, 582-583): the suggestion's random value is the `pick` field of an `Entry`. The random save-file ID is not modelled; there is only whether its name is free (`slotFree`).
- File handling of `saveToFile`/`loadFromFile`: the existence check and streams are the `slotFree` and `file` fields of an `Entry`. The text format and its `>>` parsing are modelled as the `SaveFile` datatype, already parsed. A line whose row or column is outside the board makes the C++ index out of range (undefined behaviour), so `Record` only admits board coordinates.
- `getline`, `cin`, `exit` and the reading of the save ID inside `loadFromFile`: they become the sequence of entries and the `Outcome` values. Input is modelled as newline-terminated lines, past whose end every prompt reads the empty line.
- Games.Game.Play: its promise that the game always ends (with `Exited(1)` once the input is used up) holds for newline-terminated input only. `input` is declared once (main.cpp:8), and when the last line has no newline a later `std::getline` (main.cpp:39) fails without clearing it, so main re-reads that line for ever; a final unterminated "suggest" or "save" then never ends. The model does not represent unterminated input.
- The command branches inside main's retry loop (main.cpp:80-93) run, in the model, once after the loop. Every command code ends the loop, so the order is the same.
- The retry loop's own missing-King check (main.cpp:70-73) is unreachable and not modelled: the check at the top of the pass has already exited, and the loop does not change `kingSafe`.
- The second King search inside `isCheckmate` (Board.cpp:376-392) is not modelled as a loop: `RuleFacts.AttackedKingExists` shows its -2 return is unreachable.
- `Piece::setType(PieceType&)` (Piece.cpp:55-57) and the getters (Piece.cpp:7-17): they are field reads and record updates of the `Piece` datatype. `Piece` is a value in C++ (stored and copied by value in the grids), so its setters are functions returning the updated value, which the `Board` methods store back.
- a.cpp's interactive `main` (a.cpp:257-291), including its lack of any turn order; only its two prompt examples appear: `SimpleChess.NoOpeningPawnMoveAsWritten` shows e2e4 rejected as written, and `SimpleChess.PromptExamplesAccepted` shows both accepted by the corrected program.
- SimpleChess.ValidMove: a.cpp reads both cells (a.cpp:166-167) before the bounds check at 170-173, so an out-of-range move is undefined behaviour in C++. The model checks the bounds first and gives false there, which is what the bound test returns whenever the early read happens not to crash.
- The `board.resize` of a.cpp:108 on a board that already has rows: the model assumes the 8×8 grid the constructor makes.
- Integer widths: the coordinates, colours and scores never leave the 32-bit range in the paths modelled, so `int` is unbounded here.
- Rules the code does not implement: castling, en passant, promotion, stalemate and repetition are absent from the model too.

## Findings

| source | as written | input that shows it | evidently intended | confidence | as-written member | corrected member |
|---|---|---|---|---|---|---|
| a.cpp:210-232 | White pawns step +1 row and double-step only from row 1; Black pawns step −1 and double-step from row 6 | From the initial layout (White pawns on row 6, Black on row 1), "e2e4" (4, 6) → (4, 4) is rejected, and no pawn of either side has any move | Pawns advance toward the opponent: White −1 from row 6, Black +1 from row 1. This matches `initializeBoard` (a.cpp:111-114), the '8' − rank parse (a.cpp:86-89) and the prompt's own example e2e4 (a.cpp:266) | not executed | SimpleChess.NoOpeningPawnMoveAsWritten | SimpleChess.OpeningPawnMoves |
| Board.cpp:561 | `std::rand() % bestMoves.size()` is taken even when `bestMoves` is empty | Load a save file holding only a turn line, then type "suggest": the board has no piece, so no candidate move, and the remainder is by zero (undefined behaviour) | No suggestion when there is no move to suggest | not executed | Games.SuggestAfterEmptyLoad | Search.SuggestionIsBest |
