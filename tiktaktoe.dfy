/**
 * The `useTikTakToe` hook: a human symbol and a computer symbol, whose turn
 * it is, a game-over flag with its message, the nine cells, and the
 * module-level `originBoard` that every instance of the hook shares.
 *
 * The hook's state is abstracted by the datatype State; each operation has a
 * pure transition function on State, and the class Hook carries the state in
 * fields and an array, with methods proved to follow those functions.
 */
module TikTakToe {
  import opened Board

  /** An entry of `originBoard`: a cell index (as set by startGame) or a class name. */
  datatype Slot = Index(n: nat) | Mark(c: Cell)

  /** The module-level `let originBoard;`: undefined until startGame assigns it. */
  datatype OriginBoard = Undefined | Defined(slots: seq<Slot>)

  /** Abstract state of one hook instance, with the shared `originBoard`. */
  datatype State = State(
    board: seq<Cell>,
    isGameOver: bool,
    finishLayoutValue: string,
    playerClass: Cell,
    aiClass: Cell,
    currentPlayer: Cell,
    originBoard: OriginBoard)

  /** One of the operations the hook returns to its caller (startGame is not among them). */
  datatype Call = DefinePlayersCall(dynamicClass: Cell) | HandleClickCall(target: nat) | ResetGameCall

  predicate OriginBoardOk(o: OriginBoard)
  {
    o.Defined? ==> |o.slots| == Size
  }

  /**
   * The state invariant: nine cells, a nine-entry `originBoard` once it is
   * defined, and a side to move only after startGame has defined it.
   */
  predicate WellFormed(s: State)
  {
    && |s.board| == Size
    && OriginBoardOk(s.originBoard)
    && (s.currentPlayer != Empty ==> s.originBoard.Defined?)
  }

  /** The state right after the hook is created. */
  function Initial(o: OriginBoard): (s: State)
    requires OriginBoardOk(o)
    ensures WellFormed(s)
  {
    State(EmptyBoard(), false, "", Empty, Empty, Empty, o)
  }

  /** The computer symbol chosen by definePlayers for the human's `dynamicClass`. */
  function Opponent(c: Cell): (r: Cell)
    ensures r != Empty && r != c
  {
    if c == X then O else X
  }

  /** definePlayers: the human takes c, the computer the other symbol. */
  function DefinedPlayers(s: State, c: Cell): (r: State)
    requires WellFormed(s)
    ensures WellFormed(r)
  {
    s.(playerClass := c, aiClass := Opponent(c))
  }

  /** resetPlayers: all three class-name refs become ''. */
  function PlayersReset(s: State): (r: State)
    requires WellFormed(s)
    ensures WellFormed(r)
    ensures r.playerClass == Empty && r.aiClass == Empty && r.currentPlayer == Empty
    ensures r.(playerClass := s.playerClass, aiClass := s.aiClass, currentPlayer := s.currentPlayer) == s
  {
    s.(playerClass := Empty, aiClass := Empty, currentPlayer := Empty)
  }

  /**
   * fillCell on cell i: an unmarked cell gets the mark of the side to move, and
   * `originBoard[i]` records it; a marked cell is left as it is.
   */
  function Filled(s: State, i: nat): (r: State)
    requires WellFormed(s) && i < Size && s.currentPlayer != Empty
    ensures WellFormed(r)
    ensures s.board[i] != Empty ==> r == s
    ensures s.board[i] == Empty ==>
      && r.board == s.board[i := s.currentPlayer]
      && r.originBoard == Defined(s.originBoard.slots[i := Mark(s.currentPlayer)])
    ensures r.board[i] != Empty
    ensures forall j :: 0 <= j < Size && j != i ==> r.board[j] == s.board[j]
    ensures r.(board := s.board, originBoard := s.originBoard) == s
  {
    if !Contains(s.board[i], O) && !Contains(s.board[i], X) then
      s.(board := s.board[i := s.currentPlayer],
         originBoard := Defined(s.originBoard.slots[i := Mark(s.currentPlayer)]))
    else
      s
  }

  /** clearCells: every cell loses its mark. */
  function Cleared(s: State): (r: State)
    requires WellFormed(s)
    ensures WellFormed(r)
    ensures forall j :: 0 <= j < Size ==> r.board[j] == Empty
    ensures r.(board := s.board) == s
  {
    s.(board := EmptyBoard())
  }

  /** `Array.from(Array(9).keys())` */
  function InitialOrigin(): (o: seq<Slot>)
    ensures |o| == Size
    ensures forall k :: 0 <= k < Size ==> o[k] == Index(k)
  {
    [Index(0), Index(1), Index(2), Index(3), Index(4), Index(5), Index(6), Index(7), Index(8)]
  }

  /** The text handleWin shows for the winner p. */
  function WinMessage(p: Cell): (r: string)
    ensures r == "X player won" || r == "O player won"
    ensures r == "X player won" <==> p == X
  {
    (if p == X then "X player" else "O player") + " won"
  }

  /** handleWin: the game is over and the message names the winner. */
  function Won(s: State, p: Cell): (r: State)
    requires WellFormed(s)
    ensures WellFormed(r)
    ensures r.isGameOver && r.finishLayoutValue == WinMessage(p)
    ensures r.(finishLayoutValue := s.finishLayoutValue, isGameOver := s.isGameOver) == s
  {
    s.(finishLayoutValue := WinMessage(p), isGameOver := true)
  }

  /** resetGame: resetPlayers, clearCells, and the game is no longer over. */
  function Reset(s: State): (r: State)
    requires WellFormed(s)
    ensures WellFormed(r)
  {
    Cleared(PlayersReset(s)).(isGameOver := false)
  }

  /** switchTurn: from the human to the computer, from anyone else to the human. */
  function Switched(s: State): (r: State)
    requires WellFormed(s) && s.originBoard.Defined?
    ensures WellFormed(r)
    ensures r.currentPlayer == s.playerClass || r.currentPlayer == s.aiClass
    ensures r.(currentPlayer := s.currentPlayer) == s
  {
    s.(currentPlayer := if s.currentPlayer == s.playerClass then s.aiClass else s.playerClass)
  }

  /**
   * handleClick on cell i: rejected without symbols or without a side to move,
   * rejected when it is not the human's turn, ignored on a marked cell;
   * otherwise the human marks the cell, a completed triple ends the game, and
   * the turn is switched. The game-over flag is not consulted.
   */
  function Clicked(s: State, i: nat): (r: (State, Click))
    requires WellFormed(s) && i < Size
    ensures WellFormed(r.0)
  {
    if s.playerClass == Empty || s.currentPlayer == Empty then (s, NoPlayer)
    else if s.playerClass != s.currentPlayer then (s, NotYourTurn)
    else if Contains(s.board[i], O) || Contains(s.board[i], X) then (s, Occupied)
    else
      var filled := Filled(s, i);
      var won := Wins(filled.board, s.playerClass);
      var judged := if won then Won(filled, s.playerClass) else filled;
      (Switched(judged), Placed(won))
  }

  predicate CallOk(c: Call)
  {
    c.HandleClickCall? ==> c.target < Size
  }

  /** One call of the hook's returned interface. */
  function Step(s: State, c: Call): (r: State)
    requires WellFormed(s) && CallOk(c)
    ensures WellFormed(r)
  {
    match c
    case DefinePlayersCall(d) => DefinedPlayers(s, d)
    case HandleClickCall(i) => Clicked(s, i).0
    case ResetGameCall => Reset(s)
  }

  /** A sequence of calls of the hook's returned interface. */
  function Run(s: State, calls: seq<Call>): (r: State)
    requires WellFormed(s) && forall k :: 0 <= k < |calls| ==> CallOk(calls[k])
    ensures WellFormed(r)
    decreases |calls|
  {
    if calls == [] then s else Run(Step(s, calls[0]), calls[1..])
  }

  /** definePlayers with either symbol gives the two sides complementary symbols. */
  lemma DefinePlayersComplementary(s: State, c: Cell)
    requires WellFormed(s) && c != Empty
    ensures DefinedPlayers(s, c).playerClass == c
    ensures DefinedPlayers(s, c).aiClass != c && DefinedPlayers(s, c).aiClass != Empty
    ensures Opponent(DefinedPlayers(s, c).aiClass) == c
  {
  }

  /** switchTurn passes the turn from the human to the computer and back. */
  lemma SwitchTwice(s: State)
    requires WellFormed(s) && s.originBoard.Defined? && s.currentPlayer == s.playerClass
    ensures Switched(s).currentPlayer == s.aiClass
    ensures Switched(Switched(s)).currentPlayer == s.playerClass
  {
  }

  /**
   * A click is accepted exactly when symbols are chosen, it is the human's
   * turn and the cell is empty; every other click leaves the state as it is
   * and reports which check failed.
   */
  lemma ClickGuards(s: State, i: nat)
    requires WellFormed(s) && i < Size
    ensures Clicked(s, i).1.Placed? <==>
      s.playerClass != Empty && s.currentPlayer == s.playerClass && s.board[i] == Empty
    ensures !Clicked(s, i).1.Placed? ==> Clicked(s, i).0 == s
    ensures Clicked(s, i).1 == NoPlayer <==> s.playerClass == Empty || s.currentPlayer == Empty
    ensures Clicked(s, i).1 == NotYourTurn <==>
      s.playerClass != Empty && s.currentPlayer != Empty && s.currentPlayer != s.playerClass
    ensures Clicked(s, i).1 == Occupied <==>
      s.playerClass != Empty && s.currentPlayer == s.playerClass && s.board[i] != Empty
  {
  }

  /**
   * An accepted click marks only the target with the human symbol, records it
   * in `originBoard`, adds exactly one marked cell, ends the game exactly when
   * the human now holds a triple (through the target, if the human had no
   * triple before), and hands the turn to the computer.
   */
  lemma ClickPlaces(s: State, i: nat)
    requires WellFormed(s) && i < Size
    requires s.playerClass != Empty && s.currentPlayer == s.playerClass && s.board[i] == Empty
    ensures var (t, click) := Clicked(s, i);
      && t.board == s.board[i := s.playerClass]
      && t.originBoard == Defined(s.originBoard.slots[i := Mark(s.playerClass)])
      && CountMarked(t.board) == CountMarked(s.board) + 1
      && click == Placed(Wins(t.board, s.playerClass))
      && t.isGameOver == (s.isGameOver || click.won)
      && t.finishLayoutValue == (if click.won then WinMessage(s.playerClass) else s.finishLayoutValue)
      && t.currentPlayer == s.aiClass
      && t.playerClass == s.playerClass && t.aiClass == s.aiClass
    ensures !Wins(s.board, s.playerClass) ==>
      (Clicked(s, i).1.won <==>
        exists k :: 0 <= k < |WinCombo| && i + 1 in WinCombo[k] &&
          ComboMarked(s.board[i := s.playerClass], WinCombo[k], s.playerClass))
  {
    MarkIncrementsCount(s.board, i, s.playerClass);
    if !Wins(s.board, s.playerClass) {
      WinThroughMove(s.board, i, s.playerClass);
    }
  }

  /** The finish message names the winner's symbol. */
  lemma WinMessages()
    ensures WinMessage(X) == "X player won" && WinMessage(O) == "O player won"
  {
  }

  /** resetGame clears the board, the symbols and the turn, and is idempotent. */
  lemma ResetIdempotent(s: State)
    requires WellFormed(s)
    ensures Reset(s).board == EmptyBoard() && !Reset(s).isGameOver
    ensures Reset(s).playerClass == Empty && Reset(s).aiClass == Empty && Reset(s).currentPlayer == Empty
    ensures Reset(s).finishLayoutValue == s.finishLayoutValue && Reset(s).originBoard == s.originBoard
    ensures Reset(Reset(s)) == Reset(s)
  {
  }

  /**
   * Through the returned interface alone the side to move is never set (only
   * startGame sets it, and startGame is not returned), so no click is ever
   * accepted: no cell gains a mark and the game never ends.
   */
  lemma {:induction false} ReturnedInterfaceNeverPlays(s: State, calls: seq<Call>)
    requires WellFormed(s) && forall k :: 0 <= k < |calls| ==> CallOk(calls[k])
    requires s.currentPlayer == Empty && !s.isGameOver
    ensures Run(s, calls).currentPlayer == Empty
    ensures !Run(s, calls).isGameOver
    ensures forall j :: 0 <= j < Size && Run(s, calls).board[j] != Empty ==> Run(s, calls).board[j] == s.board[j]
    decreases |calls|
  {
    if calls != [] {
      var t := Step(s, calls[0]);
      if calls[0].HandleClickCall? {
        ClickGuards(s, calls[0].target);
      }
      assert forall j :: 0 <= j < Size && t.board[j] != Empty ==> t.board[j] == s.board[j];
      ReturnedInterfaceNeverPlays(t, calls[1..]);
    }
  }

  /** The shared module-level state: `originBoard`. */
  class ModuleState {
    var originBoard: OriginBoard

    constructor()
      ensures originBoard == Undefined
    {
      originBoard := Undefined;
    }
  }

  /** One instance of the hook; `cells` are the container's nine children. */
  class Hook {
    const cells: array<Cell>
    const shared: ModuleState
    var isGameOver: bool
    var finishLayoutValue: string
    var playerClass: Cell
    var aiClass: Cell
    var currentPlayer: Cell

    ghost function Model(): State
      reads this, cells, shared
    {
      State(cells[..], isGameOver, finishLayoutValue, playerClass, aiClass, currentPlayer, shared.originBoard)
    }

    ghost predicate Valid()
      reads this, cells, shared
    {
      cells.Length == Size && WellFormed(Model())
    }

    constructor(shared: ModuleState)
      requires OriginBoardOk(shared.originBoard)
      ensures Valid() && fresh(cells) && this.shared == shared
      ensures Model() == Initial(shared.originBoard)
    {
      cells := new Cell[Size](_ => Empty);
      this.shared := shared;
      isGameOver := false;
      finishLayoutValue := "";
      playerClass, aiClass, currentPlayer := Empty, Empty, Empty;
      new;
      assert cells[..] == EmptyBoard();
    }

    method DefinePlayers(dynamicClass: Cell)
      requires Valid()
      modifies this
      ensures Valid() && Model() == DefinedPlayers(old(Model()), dynamicClass)
    {
      playerClass := dynamicClass;
      aiClass := if dynamicClass == X then O else X;
    }

    /** handleFirstPlayer: the coin toss `Math.random() > 0.5` is a nondeterministic choice. */
    method HandleFirstPlayer()
      requires Valid() && shared.originBoard.Defined?
      modifies this
      ensures Valid()
      ensures currentPlayer == playerClass || currentPlayer == aiClass
      ensures Model() == old(Model()).(currentPlayer := currentPlayer)
    {
      var humanFirst: bool :| true;
      currentPlayer := if humanFirst then playerClass else aiClass;
    }

    method ResetPlayers()
      requires Valid()
      modifies this
      ensures Valid() && Model() == PlayersReset(old(Model()))
    {
      playerClass := Empty;
      aiClass := Empty;
      currentPlayer := Empty;
    }

    /** fillCell on the child with id i. */
    method FillCell(i: nat)
      requires Valid() && i < Size && currentPlayer != Empty
      modifies cells, shared
      ensures Valid() && Model() == Filled(old(Model()), i)
    {
      if !Contains(cells[i], O) && !Contains(cells[i], X) {
        cells[i] := currentPlayer;
        shared.originBoard := Defined(shared.originBoard.slots[i := Mark(currentPlayer)]);
      }
    }

    /** emptyCells: the ids of the unmarked children, in child order. */
    method EmptyCells() returns (ids: seq<nat>)
      requires Valid()
      ensures ids == EmptyIds(cells[..])
      ensures forall i: int :: i in ids <==> 0 <= i < cells.Length && cells[i] == Empty
    {
      ids := [];
      for i := 0 to cells.Length
        invariant ids == EmptyIds(cells[..i])
      {
        assert cells[..i + 1][..i] == cells[..i];
        if !Contains(cells[i], X) && !Contains(cells[i], O) {
          ids := ids + [i];
        }
      }
      assert cells[..cells.Length] == cells[..];
      EmptyIdsExact(cells[..]);
    }

    /** isEmpty: the cell holds neither mark, so emptyCells lists it. */
    function IsEmpty(i: nat): (r: bool)
      reads cells
      requires i < cells.Length
      ensures r <==> i in EmptyIds(cells[..])
    {
      EmptyIdsExact(cells[..]);
      !Contains(cells[i], O) && !Contains(cells[i], X)
    }

    /** removeClasses on the child at index i. */
    method RemoveClasses(i: nat)
      requires i < cells.Length
      modifies cells
      ensures cells[..] == old(cells[..])[i := Empty]
    {
      cells[i] := Empty;
    }

    method ClearCells()
      requires Valid()
      modifies cells
      ensures Valid() && Model() == Cleared(old(Model()))
    {
      for i := 0 to cells.Length
        invariant forall j :: 0 <= j < i ==> cells[j] == Empty
      {
        RemoveClasses(i);
      }
      assert cells[..] == EmptyBoard();
    }

    /** startGame: `originBoard` becomes [0, ..., 8] and a first player is drawn. */
    method StartGame()
      requires Valid()
      modifies this, shared
      ensures Valid()
      ensures shared.originBoard == Defined(InitialOrigin())
      ensures currentPlayer == playerClass || currentPlayer == aiClass
      ensures Model() == old(Model()).(originBoard := Defined(InitialOrigin()), currentPlayer := currentPlayer)
    {
      shared.originBoard := Defined(InitialOrigin());
      HandleFirstPlayer();
    }

    /** checkWin: some triple of WIN_COMBO is fully marked p. */
    function CheckWin(p: Cell): (r: bool)
      reads cells
      requires cells.Length == Size
      ensures r <==> ThreeInARow(cells[..], p)
    {
      WinsIffThreeInARow(cells[..], p);
      Wins(cells[..], p)
    }

    method HandleWin(p: Cell)
      requires Valid()
      modifies this
      ensures Valid() && Model() == Won(old(Model()), p)
    {
      var playerString := if p == X then "X player" else "O player";
      finishLayoutValue := playerString + " won";
      isGameOver := true;
    }

    method ResetGame()
      requires Valid()
      modifies this, cells
      ensures Valid() && Model() == Reset(old(Model()))
    {
      ResetPlayers();
      ClearCells();
      isGameOver := false;
    }

    method SwitchTurn()
      requires Valid() && shared.originBoard.Defined?
      modifies this
      ensures Valid() && Model() == Switched(old(Model()))
    {
      currentPlayer := if currentPlayer == playerClass then aiClass else playerClass;
    }

    /** handleClick on the child at index `target`; the alerts become the rejection reasons. */
    method HandleClick(target: nat) returns (click: Click)
      requires Valid() && target < Size
      modifies this, cells, shared
      ensures Valid() && (Model(), click) == Clicked(old(Model()), target)
    {
      if playerClass != Empty && currentPlayer != Empty {
        if playerClass == currentPlayer {
          if IsEmpty(target) {
            FillCell(target);
            var won := CheckWin(playerClass);
            if won {
              HandleWin(playerClass);
            }
            SwitchTurn();
            click := Placed(won);
          } else {
            click := Occupied;
          }
        } else {
          click := NotYourTurn;
        }
      } else {
        click := NoPlayer;
      }
    }
  }
}
