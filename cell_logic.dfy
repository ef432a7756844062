/**
 * The `useCellLogic` hook: two humans share one board, and the `playerClass`
 * ref passed in is itself the mark of the side to move. A click on an empty
 * cell marks it and toggles the ref; a completed triple is only logged.
 */
module CellLogic {
  import opened Board

  /** The nine cells and the `playerClass` ref. */
  datatype State = State(board: seq<Cell>, playerClass: Cell)

  predicate WellFormed(s: State)
  {
    |s.board| == Size
  }

  /** switchTurn: 'oClass' becomes 'xClass', anything else becomes 'oClass'. */
  function Toggled(c: Cell): (r: Cell)
    ensures r != Empty
    ensures c != Empty ==> r != c
  {
    if c == O then X else O
  }

  /** fillCell: the target gets the current mark only if it holds neither mark. */
  function Filled(s: State, i: nat): (r: State)
    requires WellFormed(s) && i < Size && s.playerClass != Empty
    ensures WellFormed(r)
    ensures s.board[i] != Empty ==> r == s
    ensures s.board[i] == Empty ==> r.board == s.board[i := s.playerClass]
    ensures r.board[i] != Empty && r.playerClass == s.playerClass
    ensures forall j :: 0 <= j < Size && j != i ==> r.board[j] == s.board[j]
  {
    if !Contains(s.board[i], O) && !Contains(s.board[i], X) then s.(board := s.board[i := s.playerClass])
    else s
  }

  function Switched(s: State): (r: State)
    requires WellFormed(s)
    ensures WellFormed(r)
    ensures r.board == s.board && r.playerClass != Empty
  {
    s.(playerClass := Toggled(s.playerClass))
  }

  /**
   * handleClick on cell i: rejected when no mark is chosen, ignored on a marked
   * cell; otherwise the cell is marked, the win check runs (its result is only
   * logged) and the turn is toggled.
   */
  function Clicked(s: State, i: nat): (r: (State, Click))
    requires WellFormed(s) && i < Size
    ensures WellFormed(r.0)
  {
    if s.playerClass == Empty then (s, NoPlayer)
    else if Contains(s.board[i], O) || Contains(s.board[i], X) then (s, Occupied)
    else
      var filled := Filled(s, i);
      (Switched(filled), Placed(Wins(filled.board, s.playerClass)))
  }

  /** A sequence of clicks on the given cells. */
  function Play(s: State, targets: seq<CellIndex>): (r: State)
    requires WellFormed(s)
    ensures WellFormed(r)
    decreases |targets|
  {
    if targets == [] then s else Play(Clicked(s, targets[0]).0, targets[1..])
  }

  /** On the two marks, switchTurn swaps them and undoes itself. */
  lemma ToggleInvolution(c: Cell)
    requires c != Empty
    ensures Toggled(c) != c && Toggled(c) != Empty
    ensures Toggled(Toggled(c)) == c
  {
  }

  /**
   * A click is accepted exactly when a mark is chosen and the cell is empty;
   * otherwise neither the board nor the turn changes.
   */
  lemma ClickGuards(s: State, i: nat)
    requires WellFormed(s) && i < Size
    ensures Clicked(s, i).1.Placed? <==> s.playerClass != Empty && s.board[i] == Empty
    ensures !Clicked(s, i).1.Placed? ==> Clicked(s, i).0 == s
    ensures Clicked(s, i).1 == NoPlayer <==> s.playerClass == Empty
    ensures Clicked(s, i).1 == Occupied <==> s.playerClass != Empty && s.board[i] != Empty
  {
  }

  /**
   * An accepted click marks only the target with the current mark, adds
   * exactly one marked cell, reports whether the mover now holds a triple, and
   * toggles the turn whether or not the move won.
   */
  lemma ClickPlaces(s: State, i: nat)
    requires WellFormed(s) && i < Size && s.playerClass != Empty && s.board[i] == Empty
    ensures var (t, click) := Clicked(s, i);
      && t.board == s.board[i := s.playerClass]
      && CountMarked(t.board) == CountMarked(s.board) + 1
      && click == Placed(Wins(t.board, s.playerClass))
      && t.playerClass == Toggled(s.playerClass)
  {
    MarkIncrementsCount(s.board, i, s.playerClass);
  }

  /**
   * Over any sequence of clicks a marked cell keeps its mark, the number of
   * marked cells never falls and grows by at most one per click, and a chosen
   * mark stays chosen.
   */
  lemma {:induction false} PlayKeepsMarks(s: State, targets: seq<CellIndex>)
    requires WellFormed(s)
    ensures forall j :: 0 <= j < Size && s.board[j] != Empty ==> Play(s, targets).board[j] == s.board[j]
    ensures CountMarked(s.board) <= CountMarked(Play(s, targets).board) <= CountMarked(s.board) + |targets|
    ensures s.playerClass != Empty ==> Play(s, targets).playerClass != Empty
    decreases |targets|
  {
    if targets != [] {
      var i := targets[0];
      var t := Clicked(s, i).0;
      ClickGuards(s, i);
      if Clicked(s, i).1.Placed? {
        ClickPlaces(s, i);
      }
      PlayKeepsMarks(t, targets[1..]);
    }
  }

  /** The first of a sequence of clicks, on an empty cell, marks it and toggles the turn. */
  lemma PlayFirst(s: State, targets: seq<CellIndex>)
    requires WellFormed(s) && s.playerClass != Empty && targets != [] && s.board[targets[0]] == Empty
    ensures Play(s, targets) == Play(State(s.board[targets[0] := s.playerClass], Toggled(s.playerClass)), targets[1..])
  {
    ClickPlaces(s, targets[0]);
  }

  /** A sequence of clicks changes no cell outside its targets. */
  lemma {:induction false} PlayChangesOnlyTargets(s: State, targets: seq<CellIndex>)
    requires WellFormed(s)
    ensures forall j :: 0 <= j < Size && j !in targets ==> Play(s, targets).board[j] == s.board[j]
    decreases |targets|
  {
    if targets != [] {
      var i := targets[0];
      var t := Clicked(s, i).0;
      ClickGuards(s, i);
      if Clicked(s, i).1.Placed? {
        ClickPlaces(s, i);
      }
      PlayChangesOnlyTargets(t, targets[1..]);
      forall j | 0 <= j < Size && j !in targets
        ensures Play(s, targets).board[j] == s.board[j]
      {
        assert j !in targets[1..] && j != i;
      }
    }
  }

  /**
   * Clicks on distinct empty cells are all accepted: the cells receive the two
   * marks in alternation, starting with the current one, and the turn follows
   * the parity of the number of clicks.
   */
  lemma {:induction false} PlayAlternates(s: State, targets: seq<CellIndex>)
    requires WellFormed(s) && s.playerClass != Empty
    requires forall k :: 0 <= k < |targets| ==> s.board[targets[k]] == Empty
    requires forall j, k :: 0 <= j < k < |targets| ==> targets[j] != targets[k]
    ensures forall k :: 0 <= k < |targets| ==>
      Play(s, targets).board[targets[k]] == if k % 2 == 0 then s.playerClass else Toggled(s.playerClass)
    ensures Play(s, targets).playerClass == if |targets| % 2 == 0 then s.playerClass else Toggled(s.playerClass)
    decreases |targets|
  {
    if targets != [] {
      var p := s.playerClass;
      var i := targets[0];
      var rest := targets[1..];
      var t := State(s.board[i := p], Toggled(p));
      PlayFirst(s, targets);
      assert forall k :: 0 <= k < |rest| ==> rest[k] == targets[k + 1];
      PlayAlternates(t, rest);
      PlayChangesOnlyTargets(t, rest);
      ToggleInvolution(p);
      var r := Play(s, targets);
      forall k | 0 <= k < |targets|
        ensures r.board[targets[k]] == if k % 2 == 0 then p else Toggled(p)
      {
        if k == 0 {
          assert i !in rest;
        } else {
          assert targets[k] == rest[k - 1];
        }
      }
    }
  }

  /** The clicks 0, 3, 1, 4, 2, 5 from an empty board fill the top row with X and the middle row with O. */
  lemma TopAndMiddleRows(s: State, targets: seq<CellIndex>)
    requires s == State(EmptyBoard(), X) && targets == [0, 3, 1, 4, 2, 5]
    ensures var b := Play(s, targets).board;
      b[0] == X && b[1] == X && b[2] == X && b[3] == O && b[4] == O && b[5] == O
  {
    assert forall k :: 0 <= k < |targets| ==> s.board[targets[k]] == Empty;
    assert forall j, k :: 0 <= j < k < |targets| ==> targets[j] != targets[k];
    PlayAlternates(s, targets);
    var b := Play(s, targets).board;
    assert b[targets[0]] == X && b[targets[2]] == X && b[targets[4]] == X;
    assert b[targets[1]] == O && b[targets[3]] == O && b[targets[5]] == O;
  }

  /**
   * Because a win does not stop play, a board on which both marks hold a
   * triple is reachable: X takes the top row, then O the middle row.
   */
  lemma BothMarksCanWin(s: State, targets: seq<CellIndex>)
    requires s == State(EmptyBoard(), X) && targets == [0, 3, 1, 4, 2, 5]
    ensures Wins(Play(s, targets).board, X) && Wins(Play(s, targets).board, O)
  {
    TopAndMiddleRows(s, targets);
    TwoRowsWin(Play(s, targets).board);
  }

  /** A board whose top row is X and middle row is O is won by both marks. */
  lemma TwoRowsWin(b: seq<Cell>)
    requires |b| == Size && b[0] == X && b[1] == X && b[2] == X && b[3] == O && b[4] == O && b[5] == O
    ensures Wins(b, X) && Wins(b, O)
  {
    assert ComboMarked(b, WinCombo[0], X);
    assert ComboMarked(b, WinCombo[1], O);
  }

  /** One instance of the hook; `cells` are the container's nine children. */
  class Hook {
    const cells: array<Cell>
    var playerClass: Cell

    ghost function Model(): State
      reads this, cells
    {
      State(cells[..], playerClass)
    }

    ghost predicate Valid()
      reads this, cells
    {
      cells.Length == Size
    }

    /** The hook over an empty board, with the `playerClass` ref's current value. */
    constructor(playerClass: Cell)
      ensures Valid() && fresh(cells)
      ensures Model() == State(EmptyBoard(), playerClass)
    {
      cells := new Cell[Size](_ => Empty);
      this.playerClass := playerClass;
      new;
      assert cells[..] == EmptyBoard();
    }

    method FillCell(target: nat)
      requires Valid() && target < Size && playerClass != Empty
      modifies cells
      ensures Valid() && Model() == Filled(old(Model()), target)
    {
      if !Contains(cells[target], O) && !Contains(cells[target], X) {
        cells[target] := playerClass;
      }
    }

    /** checkWin: some triple of WIN_COMBO is fully marked p. */
    function CheckWin(p: Cell): (r: bool)
      reads cells
      requires cells.Length == Size
      ensures r <==> ThreeInARow(cells[..], p)
    {
      WinsIffThreeInARow(cells[..], p);
      Wins(cells[..], p)
    }

    method SwitchTurn()
      requires Valid()
      modifies this
      ensures Valid() && Model() == Switched(old(Model()))
    {
      playerClass := if playerClass == O then X else O;
    }

    /** handleClick on the child at index `target`; the log and the alert are left out. */
    method HandleClick(target: nat) returns (click: Click)
      requires Valid() && target < Size
      modifies this, cells
      ensures Valid() && (Model(), click) == Clicked(old(Model()), target)
    {
      if playerClass != Empty {
        if !Contains(cells[target], O) && !Contains(cells[target], X) {
          FillCell(target);
          var won := CheckWin(playerClass);
          SwitchTurn();
          click := Placed(won);
        } else {
          click := Occupied;
        }
      } else {
        click := NoPlayer;
      }
    }
  }
}
