/** The board engine: cell encoding, colours, positions, the initial layout
    and piece counting, all as values. */
module Board {
  import opened Wrappers

  /* Cell values: the sign gives the side, the magnitude the rank. */
  const EMPTY := 0
  const P1_MAN := 1
  const P1_KING := 2
  const P2_MAN := -1
  const P2_KING := -2

  /** Side length of the square board. */
  const SIZE := 8

  /** A colour label, as the game and the rooms carry it: a string. */
  type Color = string
  const RED: Color := "red"
  const BLACK: Color := "black"

  predicate IsColor(c: Color) {
    c == RED || c == BLACK
  }

  /** The four values that denote a piece. */
  predicate IsPiece(v: int) {
    v == P1_MAN || v == P1_KING || v == P2_MAN || v == P2_KING
  }

  /** The side a cell value belongs to, `None` for anything that is not a piece. */
  function PieceOwner(v: int): (owner: Option<Color>)
    ensures owner.Some? <==> IsPiece(v)
    ensures owner.Some? ==> owner.value == (if v > 0 then RED else BLACK)
  {
    if v == P1_MAN || v == P1_KING then Some(RED)
    else if v == P2_MAN || v == P2_KING then Some(BLACK)
    else None
  }

  /** Whether a cell value is a crowned piece.  In the encoding the sign of a
      piece gives its side and the magnitude its rank: a king is a piece of
      magnitude 2. */
  function IsKing(v: int): (king: bool)
    ensures king ==> PieceOwner(v).Some?
    ensures IsPiece(v) ==> (king <==> v * v == 4)
  {
    v == P1_KING || v == P2_KING
  }

  /** The row delta of a man's forward step: red starts at the top (rows 0-2)
      and moves down, every other label moves up.  Forward is +1 exactly for
      the colour all of whose men start in the top three rows. */
  function Direction(player: Color): (d: int)
    ensures d == 1 || d == -1
    ensures IsColor(player) ==>
              (d == 1 <==> forall r, c :: PieceOwner(InitialCell(r, c)) == Some(player) ==> r < 3)
  {
    if player == RED then 1
    else
      assert PieceOwner(InitialCell(5, 0)) == Some(BLACK);
      -1
  }

  /** The other colour; used for the turn flip and for a room's opponent
      lookup.  Any label that is not "red" is answered with "red". */
  function Opponent(c: Color): (o: Color)
    ensures IsColor(o) && o != c
  {
    if c == RED then BLACK else RED
  }

  /** Applying `Opponent` twice gives the input back exactly for the two colours. */
  lemma OpponentInvolution(c: Color)
    ensures Opponent(Opponent(c)) == c <==> IsColor(c)
    ensures IsColor(c) ==> {c, Opponent(c)} == {RED, BLACK}
  {
  }

  datatype Pos = Pos(row: int, col: int)

  predicate InBounds(p: Pos) {
    0 <= p.row < SIZE && 0 <= p.col < SIZE
  }

  /** A board value: the list of rows the game serializes. */
  type Grid = seq<seq<int>>

  predicate IsGrid(g: Grid) {
    |g| == SIZE && forall r :: 0 <= r < SIZE ==> |g[r]| == SIZE
  }

  function At(g: Grid, p: Pos): int
    requires IsGrid(g) && InBounds(p)
  {
    g[p.row][p.col]
  }

  /** The board with one cell overwritten. */
  function Put(g: Grid, p: Pos, v: int): (h: Grid)
    requires IsGrid(g) && InBounds(p)
    ensures IsGrid(h) && At(h, p) == v
    ensures forall q :: InBounds(q) && q != p ==> At(h, q) == At(g, q)
  {
    g[p.row := g[p.row][p.col := v]]
  }

  /** Two boards that agree on every cell are the same board. */
  lemma GridExtensionality(g: Grid, h: Grid)
    requires IsGrid(g) && IsGrid(h)
    requires forall r, c :: 0 <= r < SIZE && 0 <= c < SIZE ==> g[r][c] == h[r][c]
    ensures g == h
  {
    forall r | 0 <= r < SIZE
      ensures g[r] == h[r]
    {
      assert forall c :: 0 <= c < SIZE ==> g[r][c] == h[r][c];
    }
  }

  /** Every cell holds one of the five legal values. */
  predicate WellFormed(g: Grid)
    requires IsGrid(g)
  {
    forall r, c :: 0 <= r < SIZE && 0 <= c < SIZE ==> -2 <= g[r][c] <= 2
  }

  /** The content of one cell at the start of a game: red men on the dark
      squares of rows 0-2, black men on the dark squares of rows 5-7. */
  function InitialCell(r: int, c: int): (v: int)
    ensures v == EMPTY || (IsPiece(v) && !IsKing(v))
    ensures IsPiece(v) ==> 0 <= r < SIZE && (r + c) % 2 == 1 && (r < 3 || r >= 5)
    ensures IsPiece(v) ==> (PieceOwner(v) == Some(RED) <==> r < SIZE / 2)
  {
    if 0 <= r < 3 && (r + c) % 2 == 1 then P1_MAN
    else if 5 <= r < SIZE && (r + c) % 2 == 1 then P2_MAN
    else EMPTY
  }

  /** The layout a new game starts from, as the list of rows it serializes to. */
  function InitialGrid(): (g: Grid)
    ensures IsGrid(g) && WellFormed(g)
    ensures forall r, c :: 0 <= r < SIZE && 0 <= c < SIZE ==> g[r][c] == InitialCell(r, c)
  {
    seq(SIZE, r => seq(SIZE, c => InitialCell(r, c)))
  }

  /** The initial layout, cell by cell, and the facts it keeps: only legal
      values, and pieces only on dark squares. */
  lemma InitialLayout()
    ensures WellFormed(InitialGrid())
    ensures forall r, c :: 0 <= r < SIZE && 0 <= c < SIZE ==>
      var v := InitialGrid()[r][c];
      && (v == P1_MAN <==> r <= 2 && (r + c) % 2 == 1)
      && (v == P2_MAN <==> r >= 5 && (r + c) % 2 == 1)
      && (v == EMPTY <==> (r + c) % 2 == 0 || 3 <= r <= 4)
  {
  }

  /* Piece counting, row by row. */

  function Owned(v: int, c: Color): nat {
    if PieceOwner(v) == Some(c) then 1 else 0
  }

  function RowCount(row: seq<int>, c: Color): nat {
    if row == [] then 0 else Owned(row[0], c) + RowCount(row[1..], c)
  }

  /** The number of pieces of colour `c` on the board. */
  function PieceCount(g: Grid, c: Color): nat {
    if g == [] then 0 else RowCount(g[0], c) + PieceCount(g[1..], c)
  }

  lemma {:induction false} RowCountUpdate(row: seq<int>, i: nat, v: int, c: Color)
    requires i < |row|
    ensures RowCount(row[i := v], c) == RowCount(row, c) - Owned(row[i], c) + Owned(v, c)
  {
    if i == 0 {
      assert row[i := v][1..] == row[1..];
    } else {
      assert row[i := v][1..] == row[1..][i - 1 := v];
      RowCountUpdate(row[1..], i - 1, v, c);
    }
  }

  lemma {:induction false} PieceCountUpdate(g: Grid, r: nat, row: seq<int>, c: Color)
    requires r < |g|
    ensures PieceCount(g[r := row], c) == PieceCount(g, c) - RowCount(g[r], c) + RowCount(row, c)
  {
    if r == 0 {
      assert g[r := row][1..] == g[1..];
    } else {
      assert g[r := row][1..] == g[1..][r - 1 := row];
      PieceCountUpdate(g[1..], r - 1, row, c);
    }
  }

  /** Overwriting one cell changes a colour's count by what left and what came. */
  lemma PutCount(g: Grid, p: Pos, v: int, c: Color)
    requires IsGrid(g) && InBounds(p)
    ensures PieceCount(Put(g, p, v), c) == PieceCount(g, c) - Owned(At(g, p), c) + Owned(v, c)
  {
    RowCountUpdate(g[p.row], p.col, v, c);
    PieceCountUpdate(g, p.row, g[p.row][p.col := v], c);
  }

  /** The initial board written out row by row. */
  lemma InitialRows()
    ensures InitialGrid() == [
      [0, 1, 0, 1, 0, 1, 0, 1],
      [1, 0, 1, 0, 1, 0, 1, 0],
      [0, 1, 0, 1, 0, 1, 0, 1],
      [0, 0, 0, 0, 0, 0, 0, 0],
      [0, 0, 0, 0, 0, 0, 0, 0],
      [-1, 0, -1, 0, -1, 0, -1, 0],
      [0, -1, 0, -1, 0, -1, 0, -1],
      [-1, 0, -1, 0, -1, 0, -1, 0]]
  {
    var g := InitialGrid();
    var rows := [
      [0, 1, 0, 1, 0, 1, 0, 1],
      [1, 0, 1, 0, 1, 0, 1, 0],
      [0, 1, 0, 1, 0, 1, 0, 1],
      [0, 0, 0, 0, 0, 0, 0, 0],
      [0, 0, 0, 0, 0, 0, 0, 0],
      [-1, 0, -1, 0, -1, 0, -1, 0],
      [0, -1, 0, -1, 0, -1, 0, -1],
      [-1, 0, -1, 0, -1, 0, -1, 0]];
    forall r | 0 <= r < SIZE
      ensures g[r] == rows[r]
    {
      assert forall c :: 0 <= c < SIZE ==> g[r][c] == rows[r][c];
    }
  }

  lemma RowCountStep(row: seq<int>, k: nat, c: Color)
    requires k < |row|
    ensures RowCount(row[k..], c) == Owned(row[k], c) + RowCount(row[k + 1..], c)
  {
    assert row[k..][1..] == row[k + 1..];
  }

  lemma PieceCountStep(g: Grid, k: nat, c: Color)
    requires k < |g|
    ensures PieceCount(g[k..], c) == RowCount(g[k], c) + PieceCount(g[k + 1..], c)
  {
    assert g[k..][1..] == g[k + 1..];
  }

  /** The count of a row suffix of the initial board: the dark squares from
      column `k` on, for the side that owns row `r`, and none otherwise. */
  lemma {:induction false} InitialRowSuffixCount(r: int, k: nat, c: Color)
    requires 0 <= r < SIZE && k <= SIZE && IsColor(c)
    ensures RowCount(InitialGrid()[r][k..], c) ==
              if (c == RED && r < 3) || (c == BLACK && r >= 5) then (SIZE - k + (r + k) % 2) / 2 else 0
    decreases SIZE - k
  {
    if k < SIZE {
      RowCountStep(InitialGrid()[r], k, c);
      InitialRowSuffixCount(r, k + 1, c);
    } else {
      assert InitialGrid()[r][k..] == [];
    }
  }

  /** The count of the rows of the initial board from row `k` on: four pieces
      in each of the owner's remaining starting rows. */
  lemma {:induction false} InitialSuffixCount(k: nat, c: Color)
    requires k <= SIZE && IsColor(c)
    ensures PieceCount(InitialGrid()[k..], c) ==
              4 * if c == RED then (if k < 3 then 3 - k else 0) else (if k < 5 then 3 else SIZE - k)
    decreases SIZE - k
  {
    var g := InitialGrid();
    if k < SIZE {
      PieceCountStep(g, k, c);
      assert g[k][0..] == g[k];
      InitialRowSuffixCount(k, 0, c);
      InitialSuffixCount(k + 1, c);
    } else {
      assert g[k..] == [];
    }
  }

  /** A game starts with twelve pieces a side. */
  lemma InitialPieceCounts()
    ensures PieceCount(InitialGrid(), RED) == 12
    ensures PieceCount(InitialGrid(), BLACK) == 12
  {
    assert InitialGrid()[0..] == InitialGrid();
    InitialSuffixCount(0, RED);
    InitialSuffixCount(0, BLACK);
  }
}
