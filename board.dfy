/**
 * The board shared by both tic-tac-toe hooks: nine cells (the children of the
 * container element), the table of winning triples, the win check, and the
 * enumeration of unmarked cells.
 *
 * A cell's class list is only ever asked whether it holds 'xClass' or
 * 'oClass', and a mark class is only added to a cell that holds neither, so a
 * cell is one of three values. The class-name refs of the hooks ('' or
 * 'xClass' or 'oClass') use the same type: Empty stands for ''.
 */
module Board {

  datatype Cell = Empty | X | O

  /**
   * What a click on a cell came to: rejected because no symbol is chosen
   * ('please pick x or o'), rejected because it is the computer's turn, ignored
   * because the cell is marked, or placed, with whether the mover now holds a
   * triple.
   */
  datatype Click = NoPlayer | NotYourTurn | Occupied | Placed(won: bool)

  /** Number of cells of the board. */
  const Size: nat := 9

  /** A 0-based cell index: the position of a child of the container. */
  type CellIndex = i: nat | i < Size

  /** The eight winning triples, 1-based as in the source table. */
  const WinCombo: seq<seq<nat>> := [
    [1, 2, 3],
    [4, 5, 6],
    [7, 8, 9],
    [1, 4, 7],
    [2, 5, 8],
    [3, 6, 9],
    [1, 5, 9],
    [3, 5, 7]
  ]

  /** A board with no mark in any cell. */
  function EmptyBoard(): (b: seq<Cell>)
    ensures |b| == Size
    ensures forall i :: 0 <= i < |b| ==> b[i] == Empty
  {
    [Empty, Empty, Empty, Empty, Empty, Empty, Empty, Empty, Empty]
  }

  /** `classList.contains(name)` on a cell: the empty class name is never contained. */
  predicate Contains(c: Cell, name: Cell): (r: bool)
    ensures r ==> c != Empty && c == name
    ensures c != Empty ==> (r <==> c == name)
  {
    name != Empty && c == name
  }

  /** `combo.every(index => children[index - 1].classList.contains(p))` */
  predicate ComboMarked(b: seq<Cell>, combo: seq<nat>, p: Cell): (r: bool)
    ensures r && combo != [] ==> 0 < combo[0] <= |b| && p != Empty
    ensures r ==> forall j :: 0 <= j < |combo| ==> 0 < combo[j] <= |b| && b[combo[j] - 1] == p
  {
    forall j :: 0 <= j < |combo| ==> 0 < combo[j] <= |b| && Contains(b[combo[j] - 1], p)
  }

  /** `WIN_COMBO.some(combo => ...)`: the win check of both hooks. */
  predicate Wins(b: seq<Cell>, p: Cell): (r: bool)
    ensures r ==> p != Empty
  {
    exists k :: 0 <= k < |WinCombo| && ComboMarked(b, WinCombo[k], p)
  }

  /** The cell in row r and column c (both 0-based) of the 3x3 grid. */
  function At(b: seq<Cell>, r: nat, c: nat): Cell
    requires |b| == Size && r < 3 && c < 3
  {
    b[3 * r + c]
  }

  /**
   * Independent reference definition of a win: a full row, a full column or a
   * full diagonal of the grid, all holding the mark p.
   */
  predicate ThreeInARow(b: seq<Cell>, p: Cell)
    requires |b| == Size
  {
    p != Empty &&
    ((exists r :: 0 <= r < 3 && At(b, r, 0) == p && At(b, r, 1) == p && At(b, r, 2) == p) ||
     (exists c :: 0 <= c < 3 && At(b, 0, c) == p && At(b, 1, c) == p && At(b, 2, c) == p) ||
     (At(b, 0, 0) == p && At(b, 1, 1) == p && At(b, 2, 2) == p) ||
     (At(b, 0, 2) == p && At(b, 1, 1) == p && At(b, 2, 0) == p))
  }

  /** The table-driven win check agrees with the geometric definition. */
  lemma WinsIffThreeInARow(b: seq<Cell>, p: Cell)
    requires |b| == Size
    ensures Wins(b, p) <==> ThreeInARow(b, p)
  {
    if Wins(b, p) {
      var k :| 0 <= k < |WinCombo| && ComboMarked(b, WinCombo[k], p);
      ComboIsLine(b, p, k);
    }
    if ThreeInARow(b, p) {
      LineIsCombo(b, p);
    }
  }

  /** A fully marked triple of the table is a row, a column or a diagonal. */
  lemma ComboIsLine(b: seq<Cell>, p: Cell, k: nat)
    requires |b| == Size && k < |WinCombo| && ComboMarked(b, WinCombo[k], p)
    ensures ThreeInARow(b, p)
  {
    var t := WinCombo[k];
    assert Contains(b[t[0] - 1], p) && Contains(b[t[1] - 1], p) && Contains(b[t[2] - 1], p);
    if k < 3 {
      assert At(b, k, 0) == p && At(b, k, 1) == p && At(b, k, 2) == p;
    } else if k < 6 {
      assert At(b, 0, k - 3) == p && At(b, 1, k - 3) == p && At(b, 2, k - 3) == p;
    }
  }

  /** Every row, column and diagonal is a triple of the table. */
  lemma LineIsCombo(b: seq<Cell>, p: Cell)
    requires |b| == Size && ThreeInARow(b, p)
    ensures Wins(b, p)
  {
    if r :| 0 <= r < 3 && At(b, r, 0) == p && At(b, r, 1) == p && At(b, r, 2) == p {
      assert ComboMarked(b, WinCombo[r], p);
    } else if c :| 0 <= c < 3 && At(b, 0, c) == p && At(b, 1, c) == p && At(b, 2, c) == p {
      assert ComboMarked(b, WinCombo[c + 3], p);
    } else if At(b, 0, 0) == p && At(b, 1, 1) == p && At(b, 2, 2) == p {
      assert ComboMarked(b, WinCombo[6], p);
    } else {
      assert ComboMarked(b, WinCombo[7], p);
    }
  }

  /**
   * Placing p on an empty cell i of a board that p has not yet won gives a win
   * exactly when some triple through cell i (1-based i + 1) becomes fully p.
   */
  lemma WinThroughMove(b: seq<Cell>, i: nat, p: Cell)
    requires |b| == Size && i < Size && b[i] == Empty && p != Empty
    requires !Wins(b, p)
    ensures Wins(b[i := p], p) <==>
      exists k :: 0 <= k < |WinCombo| && i + 1 in WinCombo[k] && ComboMarked(b[i := p], WinCombo[k], p)
  {
    var b' := b[i := p];
    if Wins(b', p) {
      var k :| 0 <= k < |WinCombo| && ComboMarked(b', WinCombo[k], p);
      ComboAwayFromMove(b, i, p, WinCombo[k]);
    }
  }

  /** A triple that does not contain cell i is unaffected by marking cell i. */
  lemma ComboAwayFromMove(b: seq<Cell>, i: nat, p: Cell, combo: seq<nat>)
    requires i < |b|
    ensures i + 1 !in combo && ComboMarked(b[i := p], combo, p) ==> ComboMarked(b, combo, p)
  {
    if i + 1 !in combo && ComboMarked(b[i := p], combo, p) {
      forall j | 0 <= j < |combo|
        ensures 0 < combo[j] <= |b| && Contains(b[combo[j] - 1], p)
      {
        assert combo[j] in combo;
      }
    }
  }

  /** `emptyCells`: the ids of the unmarked cells, in child order (id = index). */
  function EmptyIds(b: seq<Cell>): (ids: seq<nat>)
    ensures |ids| <= |b|
    ensures forall k :: 0 <= k < |ids| ==> ids[k] < |b|
    decreases |b|
  {
    if b == [] then []
    else EmptyIds(b[..|b| - 1]) + (if b[|b| - 1] == Empty then [|b| - 1] else [])
  }

  /** Number of cells holding a mark. */
  function CountMarked(b: seq<Cell>): nat
    decreases |b|
  {
    if b == [] then 0
    else CountMarked(b[..|b| - 1]) + (if b[|b| - 1] == Empty then 0 else 1)
  }

  /** An id is listed exactly when it names an unmarked cell. */
  lemma {:induction false} EmptyIdsExact(b: seq<Cell>)
    ensures forall i: int :: i in EmptyIds(b) <==> 0 <= i < |b| && b[i] == Empty
  {
    if b != [] {
      var front := b[..|b| - 1];
      EmptyIdsExact(front);
      forall i: int ensures i in EmptyIds(b) <==> 0 <= i < |b| && b[i] == Empty {
        if 0 <= i < |b| - 1 {
          assert b[i] == front[i];
        }
      }
    }
  }

  /** The listed ids are strictly increasing: child order, no repetition. */
  lemma {:induction false} EmptyIdsIncreasing(b: seq<Cell>)
    ensures forall j, k :: 0 <= j < k < |EmptyIds(b)| ==> EmptyIds(b)[j] < EmptyIds(b)[k]
  {
    if b != [] {
      var front := b[..|b| - 1];
      EmptyIdsIncreasing(front);
      EmptyIdsExact(front);
      var ids := EmptyIds(front);
      forall j | 0 <= j < |ids| ensures ids[j] < |b| - 1 {
        assert ids[j] in ids;
      }
    }
  }

  /** Every cell is either listed as empty or counted as marked. */
  lemma {:induction false} EmptyIdsCount(b: seq<Cell>)
    ensures |EmptyIds(b)| + CountMarked(b) == |b|
  {
    if b != [] {
      EmptyIdsCount(b[..|b| - 1]);
    }
  }

  /** Marking an empty cell raises the count of marked cells by exactly one. */
  lemma {:induction false} MarkIncrementsCount(b: seq<Cell>, i: nat, m: Cell)
    requires i < |b| && b[i] == Empty && m != Empty
    ensures CountMarked(b[i := m]) == CountMarked(b) + 1
  {
    var b' := b[i := m];
    var n := |b| - 1;
    assert b'[..n] == if i < n then b[..n][i := m] else b[..n];
    if i < n {
      MarkIncrementsCount(b[..n], i, m);
    }
  }
}
