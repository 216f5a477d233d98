/**
 * The turn loop of main.cpp: prompting with up to three retries, the
 * dispatch of the commands, the move step that undoes a move leaving the
 * mover's King attacked, and the end of the game on checkmate.
 *
 * Console input is a sequence of `Entry` values, one per prompt, each a
 * line ended by a newline; once it is used up every further prompt reads
 * the empty line, as `getline` does at the end of such input. Every state change of a round is stated by spec
 * functions over `GameState`, and the properties main.cpp relies on are
 * lemmas about those functions.
 */
module Games {
  import opened Pieces
  import opened Rules
  import opened RuleFacts
  import opened Search
  import opened SaveFormat
  import opened Boards

  /**
   * What one prompt supplies: the line typed, whether a `save` finds its
   * file name free, what a `load` finds under the ID typed after it, and
   * the value `std::rand()` gives a `suggest`.
   */
  datatype Entry = Entry(line: string, slotFree: bool, file: Option<SaveFile>, pick: nat)

  /** How a round of the loop ends. */
  datatype Outcome = Continue | Exited(exitCode: int) | Checkmate(winner: int)

  /** The variables of `main` and the two grids of its `Board`. */
  datatype GameState = GameState(
    board: Grid, previousBoard: Grid, turnColor: int, kingSafe: int, attempts: int,
    coords: (int, int, int, int), saved: seq<SaveFile>, suggested: seq<Option<Move>>)

  /** The prompt's input at position k, or the empty line past the end of newline-terminated input. */
  function EntryAt(entries: seq<Entry>, k: int): Entry {
    if 0 <= k < |entries| then entries[k] else Entry("", false, None, 0)
  }

  /** The input after the first pos prompts. */
  function Drop(entries: seq<Entry>, pos: nat): seq<Entry> {
    if pos <= |entries| then entries[pos..] else []
  }

  function Other(color: int): int {
    if color == 0 then 1 else 0
  }

  /** The code `inputMove` gives the entry in state s. */
  function CodeOf(s: GameState, e: Entry): int {
    InputCode(Lower(e.line), s.board, s.turnColor)
  }

  /**
   * The command of an accepted line (main.cpp:43-53, repeated at 80-89):
   * `suggestMove` touches only the snapshot and shows a suggestion picked
   * by the entry's random value, `saveToFile` adds a file when
   * its name is free, and `loadFromFile` replaces both grids and, unless
   * the file says -1, the turn. Other codes do nothing here.
   */
  ghost function AfterCommand(s: GameState, code: int, e: Entry): GameState {
    if code == 2 then
      s.(previousBoard := if CandidateMoves(s.board, s.turnColor) == [] then s.previousBoard else s.board,
        suggested := s.suggested + [Suggestion(BestMoves(s.board, s.turnColor), e.pick)])
    else if code == 3 then
      s.(saved := if e.slotFree then s.saved + [Encode(s.board, s.turnColor)] else s.saved)
    else if code == 4 then
      match e.file
      case None => s
      case Some(f) => s.(board := Load(f), previousBoard := Load(f), turnColor := if f.turn != -1 then f.turn else s.turnColor)
    else s
  }

  /**
   * Of prompts k..3, the first whose line `inputMove` does not reject on
   * board g with side t to move, or 4 when all are rejected. Rejected
   * lines change neither, so this is where the retry loop of
   * main.cpp:60-98 stops.
   */
  function FirstValid(g: Grid, t: int, entries: seq<Entry>, k: nat): (n: nat)
    requires k <= 4
    ensures k <= n <= 4
    ensures forall j :: k <= j < n ==> InputCode(Lower(EntryAt(entries, j).line), g, t) == 0
    ensures n < 4 ==> InputCode(Lower(EntryAt(entries, n).line), g, t) != 0
    decreases 4 - k
  {
    if k == 4 then 4
    else if InputCode(Lower(EntryAt(entries, k).line), g, t) != 0 then k
    else FirstValid(g, t, entries, k + 1)
  }

  /** The reference parameters after `inputMove` has read the first n lines. */
  function CoordsAfter(entries: seq<Entry>, n: nat, prior: (int, int, int, int)): (int, int, int, int) {
    if n == 0 then prior else MoveCoordinates(Lower(EntryAt(entries, n - 1).line), CoordsAfter(entries, n - 1, prior))
  }

  /** The move `inputMove` decoded, when it is on the board. */
  function MoveOf(coords: (int, int, int, int)): Option<Move> {
    if InBounds(coords.0, coords.1) && InBounds(coords.2, coords.3)
    then Some(Move(coords.0, coords.1, coords.2, coords.3))
    else None
  }

  /**
   * The move step (main.cpp:103-124): a legal move that leaves the mover's
   * King attacked is undone and the turn kept; any other legal move hands
   * the turn over and records the opponent's `isKingSafe`, replaced by
   * `isCheckmate` when that is 0.
   */
  ghost function AfterMove(s: GameState, code: int): GameState {
    if code == 1 && MoveOf(s.coords).Some? && Legal(s.board, MoveOf(s.coords).value) then
      var g1 := Apply(s.board, MoveOf(s.coords).value);
      if KingSafety(g1, s.turnColor) == 0 then
        s.(previousBoard := s.board)
      else
        var t := Other(s.turnColor);
        if KingSafety(g1, t) == 0 then
          s.(board := g1, turnColor := t, kingSafe := CheckmateStatus(g1, t),
             previousBoard := if CheckmateStatus(g1, t) == -1 && CandidateMoves(g1, t) == [] then s.board else g1)
        else
          s.(board := g1, previousBoard := s.board, turnColor := t, kingSafe := KingSafety(g1, t))
    else s
  }

  /**
   * The reading part of a pass (main.cpp:38-40 and 60-98): the state
   * after it, the code of the last line read, and the prompts used. Lines
   * are read until one is accepted, at most four; only the reference
   * parameters and the attempt counter change meanwhile.
   */
  function ReadOf(s: GameState, entries: seq<Entry>): (GameState, int, nat) {
    var n := FirstValid(s.board, s.turnColor, entries, 0);
    if n == 4 then (s.(coords := CoordsAfter(entries, 4, s.coords), attempts := 4), 0, 4)
    else (s.(coords := CoordsAfter(entries, n + 1, s.coords), attempts := n + 1), CodeOf(s, EntryAt(entries, n)), n + 1)
  }

  /**
   * One pass of the do-while body (main.cpp:25-129): the state after it,
   * how it ends, and the prompts it used. A missing King ends the program
   * at once, four rejected lines end it with status 1 and the exit
   * command with status 0. Otherwise the accepted line's command runs,
   * the line is tried as a move, and the game ends when the side now to
   * move is checkmated.
   */
  ghost function RoundOf(s: GameState, entries: seq<Entry>): (GameState, Outcome, nat) {
    if s.kingSafe == -2 then (s, Exited(1), 0)
    else
      var (s1, code, used) := ReadOf(s, entries);
      if code == 0 then (s1, Exited(1), used)
      else if code == -1 then (s1, Exited(0), used)
      else
        var s2 := AfterMove(AfterCommand(s1, code, EntryAt(entries, used - 1)).(attempts := 1), code);
        (s2, if s2.kingSafe == -1 then Checkmate(Other(s2.turnColor)) else Continue, used)
  }

  /**
   * `round` is `RoundOf` wherever `RoundOf` is mentioned. The game is
   * defined over such a stand-in so that a proof about many rounds does
   * not unfold every round it mentions.
   */
  ghost predicate IsRoundOf(round: (GameState, seq<Entry>) -> (GameState, Outcome, nat)) {
    && (forall s, entries {:trigger RoundOf(s, entries)} :: round(s, entries) == RoundOf(s, entries))
    && (forall s, entries {:trigger round(s, entries)} ::
          round(s, entries).1 == Continue ==> 1 <= round(s, entries).2 <= |entries| && round(s, entries).0.attempts == 1)
  }

  /** The whole game from prompt pos on: rounds until one does not continue. */
  ghost function GameOf(round: (GameState, seq<Entry>) -> (GameState, Outcome, nat), s: GameState, entries: seq<Entry>, pos: nat): (GameState, Outcome)
    requires IsRoundOf(round)
    decreases |entries| - pos
  {
    var (s1, outcome, used) := round(s, Drop(entries, pos));
    if outcome == Continue then GameOf(round, s1, entries, pos + used)
    else (s1, outcome)
  }

  class Game {
    /** The `Board chess` of main. */
    const chess: Board
    /** 0 while White is to move, 1 while Black is. */
    var turnColor: int
    /** The last `isKingSafe` / `isCheckmate` result for the side to move. */
    var kingSafe: int
    /** Prompts made for the current move, 1 to 4. */
    var attempts: int
    /** The reference parameters `inputMove` writes. */
    var oldRow: int
    var oldCol: int
    var newRow: int
    var newCol: int
    /** The save files written so far, in order. */
    var saved: seq<SaveFile>
    /** The suggestions shown so far, None where there was no move to suggest. */
    var suggested: seq<Option<Move>>

    ghost function State(): GameState
      reads this, chess
    {
      GameState(chess.board, chess.previousBoard, turnColor, kingSafe, attempts, (oldRow, oldCol, newRow, newCol), saved, suggested)
    }

    /** The start of main (main.cpp:7, 20-23): the starting position, White to move, King safe. */
    constructor()
      ensures State() == GameState(InitialGrid(), InitialGrid(), 0, 1, 1, (0, 0, 0, 0), [], [])
    {
      chess := new Board();
      oldRow, oldCol, newRow, newCol := 0, 0, 0, 0;
      attempts := 1;
      turnColor := 0;
      kingSafe := 1;
      saved := [];
      suggested := [];
    }

    /** `inputMove` on the entry's line: the code, and the reference parameters it writes. */
    method ReadLine(e: Entry) returns (code: int)
      modifies this
      ensures code == CodeOf(old(State()), e)
      ensures State() == old(State()).(coords := MoveCoordinates(Lower(e.line), old(State()).coords))
      ensures code == 1 ==> InBounds(oldRow, oldCol) && InBounds(newRow, newCol)
    {
      var lowered, r0, c0, r1, c1;
      code, lowered, r0, c0, r1, c1 := chess.InputMove(e.line, (oldRow, oldCol, newRow, newCol), turnColor);
      oldRow, oldCol, newRow, newCol := r0, c0, r1, c1;
    }

    /** The command an accepted line names. */
    method Command(code: int, e: Entry)
      modifies this, chess
      ensures State() == AfterCommand(old(State()), code, e)
    {
      if code == 2 {
        var bestMoves, suggestion := chess.SuggestMove(turnColor, e.pick);
        suggested := suggested + [suggestion];
      } else if code == 3 {
        var file := chess.SaveToFile(turnColor, e.slotFree);
        if file.Some? {
          saved := saved + [file.value];
        }
      } else if code == 4 {
        var loadResult := chess.LoadFromFile(e.file);
        if loadResult != -1 {
          turnColor := loadResult;
        }
      }
    }

    /** The move step of main.cpp:103-124 for the code of the accepted prompt. */
    method MoveStep(code: int)
      requires code == 1 ==> InBounds(oldRow, oldCol) && InBounds(newRow, newCol)
      modifies this, chess
      ensures State() == AfterMove(old(State()), code)
    {
      ghost var s0 := State();
      if code == 1 {
        assert MoveOf(s0.coords) == Some(Move(oldRow, oldCol, newRow, newCol));
        var moved := chess.MovePiece(oldRow, oldCol, newRow, newCol);
        if moved {
          var safety := chess.IsKingSafe(turnColor);
          if safety == 0 {
            chess.RevertMove();
          } else {
            HandOver();
          }
        }
      }
    }

    /**
     * The handover after a move that keeps the mover's King safe
     * (main.cpp:111-119): the other side is to move, and its status is
     * `isKingSafe`, or `isCheckmate` when that reports an attacked King.
     */
    method HandOver()
      modifies this, chess
      ensures var t := Other(old(turnColor));
        var g := old(chess.board);
        State() == if KingSafety(g, t) == 0 then
          old(State()).(turnColor := t, kingSafe := CheckmateStatus(g, t),
            previousBoard := if CheckmateStatus(g, t) == -1 && CandidateMoves(g, t) == [] then old(chess.previousBoard) else g)
        else old(State()).(turnColor := t, kingSafe := KingSafety(g, t))
    {
      turnColor := if turnColor == 0 then 1 else 0;
      kingSafe := chess.IsKingSafe(turnColor);
      if kingSafe == 0 {
        kingSafe := chess.IsCheckmate(turnColor);
      }
    }

    /**
     * The reading part of one pass: the first prompt and the retry loop.
     * Every command code ends the retry loop, so its command is run by
     * the caller once the loop is over, which is the order main.cpp does
     * them in. The retry loop's own check for a missing King
     * (main.cpp:70-73) is unreachable: the check at the top of the pass
     * has already exited, and nothing in the loop changes `kingSafe`.
     */
    method ReadInput(entries: seq<Entry>) returns (code: int, used: nat)
      requires attempts == 1 && kingSafe != -2
      modifies this
      ensures (State(), code, used) == ReadOf(old(State()), entries)
      ensures code == 1 ==> InBounds(oldRow, oldCol) && InBounds(newRow, newCol)
    {
      ghost var s0 := State();
      code := ReadLine(EntryAt(entries, 0));
      used := 1;
      while code == 0
        invariant 1 <= used <= 4 && attempts == used
        invariant State() == s0.(coords := CoordsAfter(entries, used, s0.coords), attempts := used)
        invariant code == CodeOf(s0, EntryAt(entries, used - 1))
        invariant FirstValid(s0.board, s0.turnColor, entries, 0)
          == if code == 0 then FirstValid(s0.board, s0.turnColor, entries, used) else used - 1
        invariant code == 1 ==> InBounds(oldRow, oldCol) && InBounds(newRow, newCol)
        decreases 4 - attempts
      {
        if attempts < 4 {
          attempts := attempts + 1;
          assert kingSafe != -2;
          code := ReadLine(EntryAt(entries, used));
          used := used + 1;
        } else {
          return;
        }
      }
    }

    /** One pass of the do-while body, reading its prompts from `entries`: `RoundOf` of the state before it. */
    method Round(ghost round: (GameState, seq<Entry>) -> (GameState, Outcome, nat), entries: seq<Entry>)
      returns (outcome: Outcome, used: nat)
      requires IsRoundOf(round)
      requires attempts == 1
      modifies this, chess
      ensures (State(), outcome, used) == round(old(State()), entries)
    {
      assert round(State(), entries) == RoundOf(State(), entries);
      if kingSafe == -2 {
        return Exited(1), 0;
      }
      var code;
      code, used := ReadInput(entries);
      if code == 0 {
        return Exited(1), used;
      } else if code == -1 {
        return Exited(0), used;
      }
      Command(code, EntryAt(entries, used - 1));
      attempts := 1;
      MoveStep(code);
      outcome := if kingSafe == -1 then Checkmate(if turnColor == 0 then 1 else 0) else Continue;
    }

    /**
     * One round of the game from prompt pos: how it ends and, when it
     * continues, the prompt the next round starts at.
     */
    method Advance(ghost round: (GameState, seq<Entry>) -> (GameState, Outcome, nat), entries: seq<Entry>, pos: nat)
      returns (outcome: Outcome, next: nat)
      requires IsRoundOf(round)
      requires attempts == 1
      modifies this, chess
      ensures outcome == Continue ==> attempts == 1 && pos < next <= |entries|
      ensures outcome == Continue ==> GameOf(round, State(), entries, next) == GameOf(round, old(State()), entries, pos)
      ensures outcome != Continue ==> next == pos && (State(), outcome) == GameOf(round, old(State()), entries, pos)
    {
      var used;
      outcome, used := Round(round, Drop(entries, pos));
      next := if outcome == Continue then pos + used else pos;
    }

    /**
     * The do-while loop of main: rounds until a round exits or ends in
     * checkmate, which the input always reaches once it is used up.
     */
    method Play(ghost round: (GameState, seq<Entry>) -> (GameState, Outcome, nat), entries: seq<Entry>)
      returns (outcome: Outcome)
      requires IsRoundOf(round)
      requires attempts == 1
      modifies this, chess
      ensures (State(), outcome) == GameOf(round, old(State()), entries, 0)
      ensures outcome != Continue
    {
      var pos: nat := 0;
      outcome := Continue;
      ghost var s0 := State();
      while outcome == Continue
        invariant pos <= |entries|
        invariant outcome == Continue ==> attempts == 1 && GameOf(round, State(), entries, pos) == GameOf(round, s0, entries, 0)
        invariant outcome != Continue ==> (State(), outcome) == GameOf(round, s0, entries, 0)
        decreases |entries| - pos, if outcome == Continue then 1 else 0
      {
        outcome, pos := Advance(round, entries, pos);
      }
    }
  }

  /** The lines typed after the input runs out are empty and invalid. */
  lemma EmptyLineIsInvalid(g: Grid, status: int)
    ensures InputCode(Lower(""), g, status) == 0
  {
    assert Lower("") == "";
  }

  /** A round that continues used at least one prompt of a non-empty input and leaves the counter at 1. */
  lemma RoundConsumesInput(s: GameState, entries: seq<Entry>)
    ensures var (s1, outcome, used) := RoundOf(s, entries);
      outcome == Continue ==> 1 <= used <= |entries| && s1.attempts == 1
  {
    EmptyLineIsInvalid(s.board, s.turnColor);
  }

  /** `RoundOf` itself is a stand-in for `RoundOf`: every round that continues consumes input. */
  lemma RoundOfStandsIn()
    ensures IsRoundOf(RoundOf)
  {
    forall s, entries
      ensures RoundOf(s, entries).1 == Continue ==> 1 <= RoundOf(s, entries).2 <= |entries| && RoundOf(s, entries).0.attempts == 1
    {
      RoundConsumesInput(s, entries);
    }
  }

  /** When lines k..m-1 are all rejected, the first accepted line from k is the first from m. */
  lemma {:induction false} FirstValidSkips(g: Grid, t: int, entries: seq<Entry>, k: nat, m: nat)
    requires k <= m <= 4
    requires forall j :: k <= j < m ==> InputCode(Lower(EntryAt(entries, j).line), g, t) == 0
    ensures FirstValid(g, t, entries, k) == FirstValid(g, t, entries, m)
    decreases m - k
  {
    if k < m {
      FirstValidSkips(g, t, entries, k + 1, m);
    }
  }

  /**
   * The move step hands the turn over exactly when the line is a legal
   * move that does not leave the mover's King attacked. The board is then
   * the board after the move; otherwise the board, the turn and the status
   * stay. The counter, the reference parameters, the saves and the
   * suggestions never change.
   */
  lemma MoveStepTurn(s: GameState, code: int)
    ensures var s1 := AfterMove(s, code);
      s1.turnColor != s.turnColor <==>
        code == 1 && MoveOf(s.coords).Some? && Legal(s.board, MoveOf(s.coords).value)
        && KingSafety(Apply(s.board, MoveOf(s.coords).value), s.turnColor) != 0
    ensures var s1 := AfterMove(s, code);
      s1.turnColor != s.turnColor ==>
        s1.turnColor == Other(s.turnColor) && s1.board == Apply(s.board, MoveOf(s.coords).value)
        && KingSafety(s1.board, s.turnColor) != 0
    ensures var s1 := AfterMove(s, code);
      s1.turnColor == s.turnColor ==> s1.board == s.board && s1.kingSafe == s.kingSafe
    ensures var s1 := AfterMove(s, code);
      s1.attempts == s.attempts && s1.coords == s.coords && s1.saved == s.saved && s1.suggested == s.suggested
  {
  }

  /**
   * After a handover the status of the side now to move is one of
   * main.cpp's four codes: -2 with no King of that side on the board, 1
   * with its King safe, -1 when its King is attacked and no candidate move
   * shelters it, and 0 when one does.
   */
  lemma MoveStepStatus(s: GameState, code: int)
    requires AfterMove(s, code).turnColor != s.turnColor
    ensures var s1 := AfterMove(s, code);
      var g, t := s1.board, s1.turnColor;
      && s1.kingSafe in {-2, 1, 0, -1}
      && (s1.kingSafe == -2 <==> forall r, c :: InBounds(r, c) ==> !IsKingOf(g[r][c], t))
      && (s1.kingSafe == 1 <==> KingSafety(g, t) == 1)
      && (s1.kingSafe == -1 <==>
            KingSafety(g, t) == 0 && forall mv :: IsCandidate(g, t, mv) ==> KingSafety(Apply(g, mv), t) == 0)
      && (s1.kingSafe == 0 <==>
            KingSafety(g, t) == 0 && exists mv :: IsCandidate(g, t, mv) && KingSafety(Apply(g, mv), t) != 0)
  {
    MoveStepTurn(s, code);
    var s1 := AfterMove(s, code);
    KingSafetyCodes(s1.board, s1.turnColor);
    CheckmateCodes(s1.board, s1.turnColor);
  }

  /** `suggest` and `save` leave the position, the turn and the status as they are. */
  lemma CommandKeepsGame(s: GameState, code: int, e: Entry)
    requires code != 4
    ensures var s1 := AfterCommand(s, code, e);
      s1.board == s.board && s1.turnColor == s.turnColor && s1.kingSafe == s.kingSafe
      && s1.attempts == s.attempts && s1.coords == s.coords
  {
  }

  /**
   * A save under a free name followed, in any later state, by a load of
   * that file puts back the position (each square as `Reloaded`) with both
   * grids equal, and the side to move unless that was -1.
   */
  lemma SaveThenLoad(s: GameState, e: Entry, later: GameState, line: string, slotFree: bool, pick: nat)
    requires e.slotFree
    ensures var f := Last(AfterCommand(s, 3, e).saved);
      var s2 := AfterCommand(later, 4, Entry(line, slotFree, Some(f), pick));
      && s2.previousBoard == s2.board
      && (forall r, c :: InBounds(r, c) ==> s2.board[r][c] == Reloaded(s.board[r][c]))
      && (s.turnColor != -1 ==> s2.turnColor == s.turnColor)
  {
    RoundTrip(s.board, s.turnColor);
  }

  /**
   * Loading a file with no piece lines leaves a board without pieces, so a
   * following `suggest` has no best move: the pick `suggestMove` makes
   * as written would take a remainder by zero, and the model shows no
   * suggestion instead.
   */
  lemma SuggestAfterEmptyLoad(s: GameState, suggest: Entry)
    ensures CodeOf(s, Entry("load", false, Some(SaveFile(0, [])), 0)) == 4
    ensures var s1 := AfterCommand(s, 4, Entry("load", false, Some(SaveFile(0, [])), 0));
      && BestMoves(s1.board, s1.turnColor) == []
      && AfterCommand(s1, 2, suggest).suggested == s.suggested + [None]
  {
    var e := Entry("load", false, Some(SaveFile(0, [])), 0);
    assert Lower(e.line) == "load" by {
      var lowered := Lower(e.line);
      assert lowered[0] == 'l' && lowered[1] == 'o' && lowered[2] == 'a' && lowered[3] == 'd';
    }
    assert Load(SaveFile(0, [])) == EmptyGrid();
    var s1 := AfterCommand(s, 4, e);
    assert s1 == s.(board := EmptyGrid(), previousBoard := EmptyGrid(), turnColor := 0);
    NoBestMoveOnEmptyBoard(0);
    assert Suggestion(BestMoves(s1.board, s1.turnColor), suggest.pick) == None;
  }

  /** The last element of a non-empty sequence of saves. */
  function Last(files: seq<SaveFile>): SaveFile
    requires |files| > 0
  {
    files[|files| - 1]
  }

  /**
   * A round ends the program with status 1 exactly when the side to move
   * had status -2 or all four of its prompts were rejected; it never uses
   * more than four prompts.
   */
  lemma ForcedExit(s: GameState, entries: seq<Entry>)
    ensures RoundOf(s, entries).1 == Exited(1) <==>
      s.kingSafe == -2 || forall k :: 0 <= k < 4 ==> CodeOf(s, EntryAt(entries, k)) == 0
    ensures RoundOf(s, entries).2 <= 4
  {
  }

  /** A round ends the program with status 0 exactly when the first line it accepts is `exit`. */
  lemma ExitCommand(s: GameState, entries: seq<Entry>)
    ensures RoundOf(s, entries).1 == Exited(0) <==>
      s.kingSafe != -2 && exists n :: (0 <= n < 4 && Lower(EntryAt(entries, n).line) == "exit"
        && forall k :: 0 <= k < n ==> CodeOf(s, EntryAt(entries, k)) == 0)
  {
    if s.kingSafe != -2 {
      var n := FirstValid(s.board, s.turnColor, entries, 0);
      forall m | 0 <= m < 4 && Lower(EntryAt(entries, m).line) == "exit"
        && forall k :: 0 <= k < m ==> CodeOf(s, EntryAt(entries, k)) == 0
        ensures n == m
      {
        FirstValidSkips(s.board, s.turnColor, entries, 0, m);
      }
    }
  }

  /**
   * A round that ends in checkmate was ended by a move of the side to move
   * before it: the turn passed to the other side, whose King is attacked
   * with no candidate move sheltering it, and the mover is the winner.
   */
  lemma CheckmateEndsRound(s: GameState, entries: seq<Entry>)
    requires s.kingSafe != -1 && s.turnColor in {0, 1}
    ensures var (s1, outcome, _) := RoundOf(s, entries);
      outcome.Checkmate? ==>
        && outcome.winner == s.turnColor && s1.turnColor == Other(s.turnColor)
        && s1.kingSafe == -1 && CheckmateStatus(s1.board, s1.turnColor) == -1
  {
    if s.kingSafe != -2 {
      var (s1, code, used) := ReadOf(s, entries);
      if code != 0 && code != -1 {
        var s2 := AfterCommand(s1, code, EntryAt(entries, used - 1)).(attempts := 1);
        if code != 4 {
          CommandKeepsGame(s1, code, EntryAt(entries, used - 1));
        }
        MateNeedsMove(s2, code);
      }
    }
  }

  /** The move step reports checkmate only after a legal move of the side to move, on a board where it holds. */
  lemma MateNeedsMove(s: GameState, code: int)
    requires s.kingSafe != -1
    ensures var s1 := AfterMove(s, code);
      s1.kingSafe == -1 ==>
        code == 1 && s1.turnColor == Other(s.turnColor) && CheckmateStatus(s1.board, s1.turnColor) == -1
  {
    var s1 := AfterMove(s, code);
    if s1.kingSafe == -1 {
      MoveStepTurn(s, code);
      KingSafetyCodes(s1.board, s1.turnColor);
    }
  }
}
