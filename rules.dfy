/** The rule validator: one move on a board value, checked in the order the
    game checks it, and what a successful move does to the board. */
module Rules {
  import opened Wrappers
  import opened Board

  /** Why a move is rejected, one variant per check, in the order they run. */
  datatype MoveError =
    | OutOfBounds             // a coordinate lies off the 8x8 board
    | EmptySource             // no piece on the source square
    | NotYourPiece            // the piece belongs to the other side
    | NotYourTurn             // the mover is not the side to play
    | DestinationOccupied     // the target square holds a piece
    | NotDiagonal             // |row delta| differs from |column delta|
    | ManStepsForwardOnly     // a man's one-square step goes backwards
    | NothingToCapture        // a jump over an empty square or an own piece
    | ManCapturesForwardOnly  // a man's jump goes backwards
    | BadDistance             // a diagonal move of 3 or more squares

  /** What the game serializes: the board and the side to play. */
  datatype Snapshot = Snapshot(board: Grid, currentTurn: Color)

  function Abs(x: int): nat {
    if x < 0 then -x else x
  }

  /** The square jumped over by a two-square move (floor division; both sums
      are non-negative on the board). */
  function Midpoint(from: Pos, to: Pos): (mid: Pos)
    ensures (from.row + to.row) % 2 == 0 ==> mid.row - from.row == to.row - mid.row
    ensures (from.col + to.col) % 2 == 0 ==> mid.col - from.col == to.col - mid.col
    ensures InBounds(from) && InBounds(to) ==> InBounds(mid)
  {
    Pos((from.row + to.row) / 2, (from.col + to.col) / 2)
  }

  /** The value a moving piece leaves on its destination: a red man reaching
      row 7 or a black man reaching row 0 is crowned, anything else stays. */
  function Landing(player: Color, row: int, piece: int): (landed: int)
    ensures PieceOwner(landed) == PieceOwner(piece)
    ensures IsKing(piece) || !IsPiece(piece) ==> landed == piece
    ensures IsPiece(piece) ==>
              (IsKing(landed) <==> IsKing(piece) || (PieceOwner(piece) == Some(player)
                                                     && row == (if player == RED then SIZE - 1 else 0)))
  {
    if player == RED && row == 7 && piece == P1_MAN then P1_KING
    else if player == BLACK && row == 0 && piece == P2_MAN then P2_KING
    else piece
  }

  /** One call of the game's move: the first failing check, or the new snapshot
      with the piece moved (and the jumped piece removed), promotion applied and
      the turn passed to the other side. */
  function Play(s: Snapshot, player: Color, from: Pos, to: Pos): (r: Result<Snapshot, MoveError>)
    requires IsGrid(s.board)
    ensures r.Success? ==> IsGrid(r.value.board)
  {
    if !(InBounds(from) && InBounds(to)) then Failure(OutOfBounds)
    else
      var g := s.board;
      var piece := At(g, from);
      if piece == EMPTY then Failure(EmptySource)
      else if PieceOwner(piece) != Some(player) then Failure(NotYourPiece)
      else if s.currentTurn != player then Failure(NotYourTurn)
      else if At(g, to) != EMPTY then Failure(DestinationOccupied)
      else
        var dr, dc := to.row - from.row, to.col - from.col;
        var landed := Landing(player, to.row, piece);
        var next := Opponent(s.currentTurn);
        if Abs(dc) != Abs(dr) then Failure(NotDiagonal)
        else if Abs(dr) == 1 then
          if !IsKing(piece) && dr != Direction(player) then Failure(ManStepsForwardOnly)
          else Success(Snapshot(Put(Put(g, to, landed), from, EMPTY), next))
        else if Abs(dr) == 2 then
          var mid := Midpoint(from, to);
          var midPiece := At(g, mid);
          if midPiece == EMPTY || PieceOwner(midPiece) == Some(player) then Failure(NothingToCapture)
          else if !IsKing(piece) && dr != 2 * Direction(player) then Failure(ManCapturesForwardOnly)
          else Success(Snapshot(Put(Put(Put(g, to, landed), from, EMPTY), mid, EMPTY), next))
        else Failure(BadDistance)
  }

  /** A legal move, stated as one conjunction with no order among the checks. */
  predicate Legal(s: Snapshot, player: Color, from: Pos, to: Pos)
    requires IsGrid(s.board)
  {
    && InBounds(from) && InBounds(to)
    && PieceOwner(At(s.board, from)) == Some(player)
    && s.currentTurn == player
    && At(s.board, to) == EMPTY
    && var dr, dc, king := to.row - from.row, to.col - from.col, IsKing(At(s.board, from));
    && Abs(dr) == Abs(dc)
    && (|| (Abs(dr) == 1 && (king || dr == Direction(player)))
        || (&& Abs(dr) == 2
            && At(s.board, Midpoint(from, to)) != EMPTY
            && PieceOwner(At(s.board, Midpoint(from, to))) != Some(player)
            && (king || dr == 2 * Direction(player))))
  }

  /** What every game state keeps: only the five cell codes on the board, and
      a colour to play. */
  predicate Coherent(s: Snapshot)
    requires IsGrid(s.board)
  {
    WellFormed(s.board) && IsColor(s.currentTurn)
  }

  /** The two squares a one-square move touches and the three a jump touches. */
  function Touched(from: Pos, to: Pos): set<Pos> {
    if Abs(to.row - from.row) == 2 then {from, Midpoint(from, to), to} else {from, to}
  }

  /** The squares on which two boards differ. */
  function Changed(g: Grid, h: Grid): set<Pos>
    requires IsGrid(g) && IsGrid(h)
  {
    set r, c | 0 <= r < SIZE && 0 <= c < SIZE && g[r][c] != h[r][c] :: Pos(r, c)
  }

  lemma ChangedMembership(g: Grid, h: Grid)
    requires IsGrid(g) && IsGrid(h)
    ensures forall q :: q in Changed(g, h) <==> InBounds(q) && At(g, q) != At(h, q)
  {
    forall q | InBounds(q) && At(g, q) != At(h, q)
      ensures q in Changed(g, h)
    {
      assert q == Pos(q.row, q.col);
    }
  }

  /* ---- Properties of one move ---- */

  /** A man's forward direction leads from its side's starting rows towards
      the row on which it is crowned. */
  lemma ForwardLeadsToCrowning(player: Color, row: int, r: int, c: int)
    requires IsColor(player) && 0 <= row < SIZE
    requires IsKing(Landing(player, row, if player == RED then P1_MAN else P2_MAN))
    requires PieceOwner(InitialCell(r, c)) == Some(player)
    ensures if Direction(player) == 1 then row > r else row < r
  {
  }

  /** A move is accepted exactly when it is legal: the ordered checks reject
      every illegal move and nothing else. */
  lemma PlayAcceptsExactlyLegal(s: Snapshot, player: Color, from: Pos, to: Pos)
    requires IsGrid(s.board)
    ensures Play(s, player, from, to).Success? <==> Legal(s, player, from, to)
  {
  }

  /** A side may only move its own pieces, and only on its turn; a zero-length
      move or one of three or more squares is never accepted. */
  lemma RejectedMoves(s: Snapshot, player: Color, from: Pos, to: Pos)
    requires IsGrid(s.board)
    ensures s.currentTurn != player ==> Play(s, player, from, to).Failure?
    ensures InBounds(from) && InBounds(to) && At(s.board, from) != EMPTY
            && PieceOwner(At(s.board, from)) != Some(player)
            ==> Play(s, player, from, to) == Failure(NotYourPiece)
    ensures InBounds(from) && InBounds(to) && PieceOwner(At(s.board, from)) == Some(player)
            && s.currentTurn != player
            ==> Play(s, player, from, to) == Failure(NotYourTurn)
    ensures Abs(to.row - from.row) !in {1, 2} ==> Play(s, player, from, to).Failure?
    ensures from == to ==>
              (&& Play(s, player, from, to).Failure?
               && Play(s, player, from, to).error in {OutOfBounds, EmptySource, NotYourPiece, NotYourTurn, DestinationOccupied})
  {
  }

  /** Every accepted move was made by the side to play, with a colour label,
      and passes the turn to the other colour. */
  lemma TurnAlternates(s: Snapshot, player: Color, from: Pos, to: Pos)
    requires IsGrid(s.board) && Play(s, player, from, to).Success?
    ensures IsColor(player) && s.currentTurn == player
    ensures var next := Play(s, player, from, to).value.currentTurn;
            IsColor(next) && next != s.currentTurn && {s.currentTurn, next} == {RED, BLACK}
  {
  }

  /** A man only ever moves towards the far side: one row or, jumping, two rows
      in its side's direction. */
  lemma ManMovesForward(s: Snapshot, player: Color, from: Pos, to: Pos)
    requires IsGrid(s.board) && Play(s, player, from, to).Success?
    requires !IsKing(At(s.board, from))
    ensures to.row - from.row == Direction(player) || to.row - from.row == 2 * Direction(player)
    ensures player == RED ==> to.row > from.row
    ensures player == BLACK ==> to.row < from.row
  {
  }

  /** A king may step backwards: once the ownership, turn, emptiness and
      diagonal checks pass, its one-square move against its side's direction
      is accepted. */
  lemma KingMovesBackward(s: Snapshot, player: Color, from: Pos, to: Pos)
    requires IsGrid(s.board) && InBounds(from) && InBounds(to)
    requires PieceOwner(At(s.board, from)) == Some(player) && IsKing(At(s.board, from))
    requires s.currentTurn == player && At(s.board, to) == EMPTY
    requires to.row - from.row == -Direction(player) && Abs(to.col - from.col) == 1
    ensures Play(s, player, from, to).Success?
  {
  }

  /** A one-square move changes exactly two cells: the source is emptied and
      the destination receives the piece, crowned if it is promoted. */
  lemma StepChangesTwoCells(s: Snapshot, player: Color, from: Pos, to: Pos)
    requires IsGrid(s.board) && Play(s, player, from, to).Success?
    requires Abs(to.row - from.row) == 1
    ensures var g, h := s.board, Play(s, player, from, to).value.board;
            && Changed(g, h) == {from, to}
            && At(h, from) == EMPTY
            && At(h, to) == Landing(player, to.row, At(g, from))
  {
    var g, h := s.board, Play(s, player, from, to).value.board;
    ChangedMembership(g, h);
    assert At(h, to) != EMPTY;
    assert Changed(g, h) == {from, to};
  }

  /** A jump needs an opposing piece on the midpoint and changes exactly three
      cells: source and midpoint are emptied, the destination receives the piece. */
  lemma CaptureChangesThreeCells(s: Snapshot, player: Color, from: Pos, to: Pos)
    requires IsGrid(s.board) && Play(s, player, from, to).Success?
    requires Abs(to.row - from.row) == 2
    ensures var g, h, mid := s.board, Play(s, player, from, to).value.board, Midpoint(from, to);
            && At(g, mid) != EMPTY && PieceOwner(At(g, mid)) != Some(player)
            && (WellFormed(g) ==> PieceOwner(At(g, mid)) == Some(Opponent(player)))
            && Changed(g, h) == {from, mid, to}
            && At(h, from) == EMPTY && At(h, mid) == EMPTY
            && At(h, to) == Landing(player, to.row, At(g, from))
  {
    var g, h, mid := s.board, Play(s, player, from, to).value.board, Midpoint(from, to);
    ChangedMembership(g, h);
    assert At(h, to) != EMPTY;
    assert Changed(g, h) == {from, mid, to};
  }

  /** Every accepted move changes exactly the squares it touches. */
  lemma ChangesExactlyTouched(s: Snapshot, player: Color, from: Pos, to: Pos)
    requires IsGrid(s.board) && Play(s, player, from, to).Success?
    ensures Changed(s.board, Play(s, player, from, to).value.board) == Touched(from, to)
  {
    if Abs(to.row - from.row) == 1 {
      StepChangesTwoCells(s, player, from, to);
    } else {
      CaptureChangesThreeCells(s, player, from, to);
    }
  }

  /** Promotion: a red man ending on row 7 and a black man ending on row 0
      are crowned; a man elsewhere stays a man and a king stays a king. */
  lemma Promotion(s: Snapshot, player: Color, from: Pos, to: Pos)
    requires IsGrid(s.board) && Play(s, player, from, to).Success?
    ensures var piece, landed := At(s.board, from), At(Play(s, player, from, to).value.board, to);
            && (IsKing(piece) ==> landed == piece)
            && (piece == P1_MAN ==> landed == if to.row == 7 then P1_KING else P1_MAN)
            && (piece == P2_MAN ==> landed == if to.row == 0 then P2_KING else P2_MAN)
  {
    if Abs(to.row - from.row) == 1 {
      StepChangesTwoCells(s, player, from, to);
    } else {
      CaptureChangesThreeCells(s, player, from, to);
    }
  }

  /** A board holding only the five legal values keeps doing so after a move. */
  lemma WellFormedPreserved(s: Snapshot, player: Color, from: Pos, to: Pos)
    requires IsGrid(s.board) && WellFormed(s.board) && Play(s, player, from, to).Success?
    ensures WellFormed(Play(s, player, from, to).value.board)
  {
    var g, h := s.board, Play(s, player, from, to).value.board;
    forall r, c | 0 <= r < SIZE && 0 <= c < SIZE
      ensures -2 <= h[r][c] <= 2
    {
      assert h[r][c] == At(h, Pos(r, c)) && g[r][c] == At(g, Pos(r, c));
    }
  }

  /** Moving a piece to an empty square, possibly changing its value but not
      its owner, keeps every side's count. */
  lemma RelocateKeepsCount(g: Grid, from: Pos, to: Pos, landed: int, c: Color)
    requires IsGrid(g) && InBounds(from) && InBounds(to) && from != to
    requires At(g, to) == EMPTY && Owned(landed, c) == Owned(At(g, from), c)
    ensures PieceCount(Put(Put(g, to, landed), from, EMPTY), c) == PieceCount(g, c)
  {
    PutCount(g, to, landed, c);
    PutCount(Put(g, to, landed), from, EMPTY, c);
  }

  /** An accepted move keeps a coherent state coherent. */
  lemma CoherentPreserved(s: Snapshot, player: Color, from: Pos, to: Pos)
    requires IsGrid(s.board) && Coherent(s) && Play(s, player, from, to).Success?
    ensures Coherent(Play(s, player, from, to).value)
  {
    WellFormedPreserved(s, player, from, to);
  }

  /** The mover never loses a piece; a jump removes exactly one piece of the
      other side and a step removes none. */
  lemma PieceCountsAfterMove(s: Snapshot, player: Color, from: Pos, to: Pos)
    requires IsGrid(s.board) && WellFormed(s.board) && Play(s, player, from, to).Success?
    ensures var g, h := s.board, Play(s, player, from, to).value.board;
            && PieceCount(h, player) == PieceCount(g, player)
            && PieceCount(h, Opponent(player)) ==
               PieceCount(g, Opponent(player)) - (if Abs(to.row - from.row) == 2 then 1 else 0)
  {
    var g := s.board;
    var landed := Landing(player, to.row, At(g, from));
    var g2 := Put(Put(g, to, landed), from, EMPTY);
    RelocateKeepsCount(g, from, to, landed, player);
    RelocateKeepsCount(g, from, to, landed, Opponent(player));
    if Abs(to.row - from.row) == 2 {
      var mid := Midpoint(from, to);
      assert At(g2, mid) == At(g, mid);
      PutCount(g2, mid, EMPTY, player);
      PutCount(g2, mid, EMPTY, Opponent(player));
    }
  }

  /** The board after an accepted move, cell by cell. */
  lemma BoardAfterMove(s: Snapshot, player: Color, from: Pos, to: Pos)
    requires IsGrid(s.board) && Play(s, player, from, to).Success?
    ensures var g, h, mid := s.board, Play(s, player, from, to).value.board, Midpoint(from, to);
            forall r, c :: 0 <= r < SIZE && 0 <= c < SIZE ==>
              h[r][c] == if Pos(r, c) == to then Landing(player, to.row, At(g, from))
                         else if Pos(r, c) == from then EMPTY
                         else if Abs(to.row - from.row) == 2 && Pos(r, c) == mid then EMPTY
                         else g[r][c]
  {
    var g, h := s.board, Play(s, player, from, to).value.board;
    forall r, c | 0 <= r < SIZE && 0 <= c < SIZE
      ensures h[r][c] == At(h, Pos(r, c)) && g[r][c] == At(g, Pos(r, c))
    {
    }
  }

  /* ---- Scenarios from the opening position ---- */

  function InitialSnapshot(): (s: Snapshot)
    ensures IsGrid(s.board) && Coherent(s)
  {
    Snapshot(InitialGrid(), RED)
  }

  /** Red opens (2,1) to (3,2): accepted, black to play, the man has moved. */
  lemma OpeningMove()
    ensures var r := Play(InitialSnapshot(), RED, Pos(2, 1), Pos(3, 2));
            && r.Success? && r.value.currentTurn == BLACK
            && At(r.value.board, Pos(2, 1)) == EMPTY && At(r.value.board, Pos(3, 2)) == P1_MAN
  {
    InitialRows();
  }

  /** From the opening position, red may not move a black man and black may not move first. */
  lemma OpeningRejections()
    ensures Play(InitialSnapshot(), RED, Pos(5, 0), Pos(4, 1)) == Failure(NotYourPiece)
    ensures Play(InitialSnapshot(), BLACK, Pos(5, 0), Pos(4, 1)) == Failure(NotYourTurn)
  {
    InitialRows();
  }
}
