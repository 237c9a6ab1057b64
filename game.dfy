/** The game session: one board, updated in place, and the side to play. */
module Game {
  import opened Wrappers
  import opened Board
  import opened Rules

  class CheckersGame {
    /** The 8x8 board; the game never replaces it, only writes its cells. */
    const board: array2<int>
    /** "red" or "black": the side whose move is next. */
    var currentTurn: Color

    predicate Valid() {
      board.Length0 == SIZE && board.Length1 == SIZE
    }

    /** A new game: the initial layout, red to play. */
    constructor ()
      ensures Valid() && fresh(board)
      ensures Serialize() == InitialSnapshot() && Coherent(Serialize())
    {
      var initial := CheckersGame.InitialBoard();
      board := initial;
      currentTurn := RED;
      new;
      GridExtensionality(Serialize().board, InitialGrid());
    }

    /** Builds the initial layout on a fresh, empty board: red men on the
        dark squares of rows 0-2, black men on those of rows 5-7. */
    static method InitialBoard() returns (b: array2<int>)
      ensures fresh(b) && b.Length0 == SIZE && b.Length1 == SIZE
      ensures forall r, c :: 0 <= r < SIZE && 0 <= c < SIZE ==> b[r, c] == InitialCell(r, c)
    {
      b := new int[SIZE, SIZE]((_, _) => EMPTY);
      for row := 0 to 3
        invariant forall r, c :: 0 <= r < SIZE && 0 <= c < SIZE ==>
          b[r, c] == if r < row then InitialCell(r, c) else EMPTY
      {
        for col := 0 to SIZE
          invariant forall r, c :: 0 <= r < SIZE && 0 <= c < SIZE ==>
            b[r, c] == if r < row || (r == row && c < col) then InitialCell(r, c) else EMPTY
        {
          if (row + col) % 2 == 1 {
            b[row, col] := P1_MAN;
          }
        }
      }
      for row := 5 to SIZE
        invariant forall r, c :: 0 <= r < SIZE && 0 <= c < SIZE ==>
          b[r, c] == if r < row then InitialCell(r, c) else EMPTY
      {
        for col := 0 to SIZE
          invariant forall r, c :: 0 <= r < SIZE && 0 <= c < SIZE ==>
            b[r, c] == if r < row || (r == row && c < col) then InitialCell(r, c) else EMPTY
        {
          if (row + col) % 2 == 1 {
            b[row, col] := P2_MAN;
          }
        }
      }
    }

    /** The board as a list of rows, and the side to play. */
    function Serialize(): (s: Snapshot)
      requires Valid()
      reads this, board
      ensures IsGrid(s.board) && s.currentTurn == currentTurn
      ensures forall r, c :: 0 <= r < SIZE && 0 <= c < SIZE ==> s.board[r][c] == board[r, c]
    {
      Snapshot(seq(SIZE, r requires 0 <= r < SIZE reads board =>
                 seq(SIZE, c requires 0 <= c < SIZE reads board => board[r, c])),
               currentTurn)
    }

    /** The board holds `g` with the piece `landed` moved from `from` to `to`
        (and, for a jump, the midpoint emptied). */
    ghost predicate Written(g: Grid, from: Pos, to: Pos, landed: int)
      requires Valid() && IsGrid(g)
      reads board
    {
      forall r, c :: 0 <= r < SIZE && 0 <= c < SIZE ==>
        board[r, c] == if Pos(r, c) == to then landed
                       else if Pos(r, c) == from then EMPTY
                       else if Abs(to.row - from.row) == 2 && Pos(r, c) == Midpoint(from, to) then EMPTY
                       else g[r][c]
    }

    /** Runs the move checks in order on the current game, without changing
        it, and reports the first one that fails. */
    method Validate(player: Color, from: Pos, to: Pos) returns (err: Option<MoveError>)
      requires Valid()
      ensures Play(Serialize(), player, from, to).Failure? ==>
                err == Some(Play(Serialize(), player, from, to).error)
      ensures Play(Serialize(), player, from, to).Success? ==> err == None
    {
      ghost var outcome := Play(Serialize(), player, from, to);
      var fr, fc := from.row, from.col;
      var tr, tc := to.row, to.col;

      if !(0 <= fr < SIZE && 0 <= fc < SIZE && 0 <= tr < SIZE && 0 <= tc < SIZE) {
        return Some(OutOfBounds);
      }
      var piece := board[fr, fc];
      if piece == EMPTY {
        return Some(EmptySource);
      }
      if PieceOwner(piece) != Some(player) {
        return Some(NotYourPiece);
      }
      if currentTurn != player {
        return Some(NotYourTurn);
      }
      if board[tr, tc] != EMPTY {
        return Some(DestinationOccupied);
      }
      var dr, dc := tr - fr, tc - fc;
      if Abs(dc) != Abs(dr) {
        return Some(NotDiagonal);
      }
      var step := Abs(dr);
      var isKing := IsKing(piece);
      var direction := Direction(player);

      if step == 1 {
        if !isKing && dr != direction {
          return Some(ManStepsForwardOnly);
        }
      } else if step == 2 {
        var midPiece := board[(fr + tr) / 2, (fc + tc) / 2];
        if midPiece == EMPTY || PieceOwner(midPiece) == Some(player) {
          return Some(NothingToCapture);
        }
        if !isKing && dr != 2 * direction {
          return Some(ManCapturesForwardOnly);
        }
      } else {
        return Some(BadDistance);
      }
      return None;
    }

    /** Plays `player`'s piece from `from` to `to`.  The checks run first and
        the first failing one is returned with the game untouched; otherwise
        the board cells are written in place, a man reaching the far row is
        crowned and the turn passes to the other side. */
    method Move(player: Color, from: Pos, to: Pos) returns (err: Option<MoveError>)
      requires Valid()
      modifies this, board
      ensures Valid()
      ensures var outcome := Play(old(Serialize()), player, from, to);
              && (outcome.Failure? ==> err == Some(outcome.error) && unchanged(this, board))
              && (outcome.Success? ==> err == None && Serialize() == outcome.value)
    ensures Coherent(old(Serialize())) ==> Coherent(Serialize())
    {
      ghost var before := Serialize();
      ghost var outcome := Play(before, player, from, to);
      err := Validate(player, from, to);
      if err.Some? {
        return;
      }
      assert outcome.Success?;
      var fr, fc := from.row, from.col;
      var tr, tc := to.row, to.col;
      var piece := board[fr, fc];
      assert piece == At(before.board, from);

      if Abs(tr - fr) == 1 {
        board[tr, tc] := piece;
        board[fr, fc] := EMPTY;
      } else {
        var midR, midC := (fr + tr) / 2, (fc + tc) / 2;
        ghost var mid := Midpoint(from, to);
        assert mid == Pos(midR, midC) && mid != from && mid != to && from != to;
        board[tr, tc] := piece;
        board[fr, fc] := EMPTY;
        board[midR, midC] := EMPTY;
      }
      assert Written(before.board, from, to, piece);

      if player == RED && tr == 7 && piece == P1_MAN {
        board[tr, tc] := P1_KING;
      } else if player == BLACK && tr == 0 && piece == P2_MAN {
        board[tr, tc] := P2_KING;
      } else {
        assert Landing(player, tr, piece) == piece;
      }
      assert Written(before.board, from, to, Landing(player, tr, piece));

      currentTurn := if currentTurn == RED then BLACK else RED;
      ShowsPlayed(before, player, from, to);
      if Coherent(before) {
        CoherentPreserved(before, player, from, to);
      }
    }

    /** Once the cells are written and the turn flipped, the game serializes to
        the snapshot the rules compute. */
    lemma ShowsPlayed(before: Snapshot, player: Color, from: Pos, to: Pos)
      requires Valid() && IsGrid(before.board) && Play(before, player, from, to).Success?
      requires Written(before.board, from, to, Landing(player, to.row, At(before.board, from)))
      requires currentTurn == Opponent(before.currentTurn)
      ensures Serialize() == Play(before, player, from, to).value
    {
      BoardAfterMove(before, player, from, to);
      GridExtensionality(Serialize().board, Play(before, player, from, to).value.board);
    }
  }
}
