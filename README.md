# Multiplayer checkers: rules engine and room registry

This project models the core of a two-player checkers server:

- the game session `CheckersGame` (`game.py`), which holds an 8x8 board of
  integer cell codes and the colour ("red" or "black") whose turn it is;
- the `Room` class and the process-wide room registry (`server.py`). A room
  pairs up to two connections with one game. The registry creates a room on
  the first connection to an identifier and drops it when the last
  connection leaves.

The model is split into these modules:

- `Board` (`board.dfy`) holds the cell encoding, colours, board values
  (`seq<seq<int>>`), the initial layout and piece counting.
- `Rules` (`rules.dfy`) gives a value-level reference definition of one move:
  `Play` runs the game's checks in the game's order and returns either the
  first failing check (`MoveError`) or the new snapshot. The properties of a
  move are proved about `Play`.
- `Game` (`game.dfy`) is the class `CheckersGame`. It has the board as an
  `array2<int>` written in place, and the turn as a mutable field. Its method
  `Move` is proved to leave exactly the snapshot `Play` computes, or to change
  nothing and report the same error.
- `Server` (`server.dfy`) holds the classes `Room` and `Registry`. Their
  methods update the clients map and the rooms map in place and keep a
  registry invariant: every listed room has one or two clients, keyed by
  colour.

Colours stay strings, as in the source. `Direction` and `Opponent` are
therefore total over all strings and behave as the source does for labels
other than "red" and "black".

`move` checks ownership before the turn (game.py:69-74), so a player moving
an opponent's piece out of turn gets `NotYourPiece`, not `NotYourTurn`
(`Rules.RejectedMoves`).

## Model

| member | source | states |
|---|---|---|
| Board.PieceOwner | game.py:42-47 | a value has an owner exactly when it is one of the four piece codes; positive codes are red, negative ones black |
| Board.IsKing | game.py:49-50 | a king always has an owner; among pieces, the magnitude gives the rank: a piece is a king exactly when its code has magnitude 2 |
| Board.Direction | game.py:52-55 | the forward row step is always +1 or -1; for a colour it is +1 exactly when all of that colour's men start in the top three rows |
| Board.Opponent | server.py:42-43 | the result is always a colour and never the input label |
| Board.OpponentInvolution | server.py:42-43 | the opponent of the opponent is the label itself exactly for "red" and "black"; a colour and its opponent are the two colours |
| Board.Put | game.py:95-96 | writing one cell sets that cell and leaves every other cell as it was |
| Board.InitialLayout | game.py:22-37 | the initial board holds only legal values; red men sit exactly on the dark squares of rows 0-2, black men exactly on those of rows 5-7, everything else is empty |
| Board.InitialCell | game.py:22-37 | a starting cell is empty or a man (never a king); a man sits on a dark square of rows 0-2 or 5-7, and is red exactly when it is in the top half |
| Board.InitialGrid | game.py:22-37 | the starting board is a full 8x8 grid of legal values, equal cell by cell to `InitialCell` |
| Board.InitialRowSuffixCount | game.py:26-35 | in a row of the starting board, the side that owns the row has one piece on every dark square from any column on, and the other side has none |
| Board.InitialSuffixCount | game.py:26-35 | the starting board holds four pieces in each of its owner's starting rows, counted from any row on |
| Board.InitialPieceCounts | game.py:22-37 | a new game has twelve pieces of each colour |
| Board.PutCount | game.py:95-96 | overwriting a cell changes a colour's piece count by the piece that left and the piece that came |
| Rules.Midpoint | game.py:100-101 | for a jump of even span the midpoint lies halfway between source and destination in both coordinates, and on the board when both ends are |
| Rules.Landing | game.py:119-123 | the landing value keeps the piece's owner; a king or a non-piece is unchanged; a piece is a king after landing exactly when it was one already or it is the mover's man reaching row 7 (red) or row 0 (black) |
| Rules.Play | game.py:57-126 | its own contract only says that an accepted move yields a full 8x8 board; what it accepts is stated by `Rules.PlayAcceptsExactlyLegal`, and what it does to the board and the turn by the lemmas below |
| Rules.PlayAcceptsExactlyLegal | game.py:61-117 | the ordered checks accept a move exactly when the order-free legality predicate holds (in bounds, own piece, own turn, empty target, diagonal, one forward step or one forward jump over an opposing piece, kings in either direction) |
| Rules.RejectedMoves | game.py:66-74 | a move out of turn is rejected; moving another side's piece fails with `NotYourPiece`; moving an own piece out of turn fails with `NotYourTurn`; a row distance other than 1 or 2 is rejected; a move onto the source square is rejected by one of the first five checks |
| Rules.TurnAlternates | game.py:73-126 | an accepted move was made by the side to play, and after it the turn belongs to the other colour |
| Rules.ManMovesForward | game.py:91-93 | an accepted man's move goes one or two rows in its side's direction: down for red, up for black |
| Rules.KingMovesBackward | game.py:91-96 | a king's one-square step against its side's direction is accepted once the earlier checks pass |
| Rules.StepChangesTwoCells | game.py:91-96 | an accepted one-square move changes exactly the source and the destination: the source is emptied, and the destination gets the piece, crowned if promoted |
| Rules.CaptureChangesThreeCells | game.py:99-114 | an accepted jump passes over a non-empty square not owned by the mover, which on a well-formed board is an opponent's piece; exactly source, midpoint and destination change, the first two emptied |
| Rules.ChangesExactlyTouched | game.py:91-117 | an accepted move changes exactly the squares it touches |
| Rules.Promotion | game.py:119-123 | a red man ending on row 7 or a black man ending on row 0 is crowned; any other man stays a man; a king stays the same king |
| Rules.WellFormedPreserved | game.py:4-9 | a board holding only the five cell codes still does after an accepted move |
| Rules.CoherentPreserved | game.py:95-126 | an accepted move keeps a board of legal codes with a colour to play in that state |
| Rules.ForwardLeadsToCrowning | game.py:52-55 | for a colour, a row on which its man is crowned lies in its forward direction from every square its men start on |
| Rules.RelocateKeepsCount | game.py:95-96 | moving a piece to an empty square without changing its owner keeps every colour's count |
| Rules.PieceCountsAfterMove | game.py:99-114 | on a well-formed board the mover keeps all its pieces; a jump removes exactly one opposing piece and a step removes none |
| Rules.BoardAfterMove | game.py:95-123 | the board after an accepted move, cell by cell: destination, source, midpoint of a jump, everything else unchanged |
| Rules.OpeningMove | game.py:57-126 | from the opening position red may play (2,1) to (3,2): the source empties, the man lands, black is to play |
| Rules.OpeningRejections | game.py:69-74 | from the opening position red cannot move a black man (`NotYourPiece`), and black cannot move first (`NotYourTurn`) |
| Game.CheckersGame.constructor | game.py:17-20 | a new game has a fresh board whose snapshot is the initial layout with red to play, a coherent state |
| Game.CheckersGame.InitialBoard | game.py:22-37 | the loops fill a fresh 8x8 board with the initial layout, cell by cell |
| Game.CheckersGame.Serialize | game.py:128-132 | the snapshot is an 8x8 list of rows equal to the board cell by cell, with the current turn |
| Game.CheckersGame.Validate | game.py:58-117 | reading the board without changing it, returns the first failing check exactly as `Play` reports it, or none when `Play` accepts |
| Game.CheckersGame.Move | game.py:57-126 | a rejected move returns `Play`'s error and leaves board and turn unchanged; an accepted one returns no error and leaves the game serializing to `Play`'s snapshot; a coherent game stays coherent |
| Game.CheckersGame.ShowsPlayed | game.py:95-126 | once the cells are written and the turn flipped, the game serializes to the snapshot `Play` computes |
| Server.AtMostTwoColors | server.py:31-32 | a map keyed by colours holds at most two entries, and two exactly when both colours are present |
| Server.Room.constructor | server.py:27-29 | a new room has a fresh game at the initial position and no clients |
| Server.Room.IsFull | server.py:31-32 | with colour keys, a room is full exactly when both colours are seated |
| Server.Room.PlayerColor | server.py:34-40 | red while red is free, otherwise black while black is free, otherwise none (the room is taken); a colour offered is never one already seated |
| Server.FullIffNoColorLeft | server.py:31-40 | a room keyed by colours is full exactly when no colour is left for a newcomer |
| Server.Room.StateMessages | server.py:111-118 | a state broadcast goes to every seated colour and to no one else, each message carrying the recipient's own colour and the current snapshot |
| Server.Registry.constructor | server.py:49 | the registry starts empty and valid |
| Server.Registry.Connect | server.py:61-72 | keeps the registry invariant; an unlisted identifier gets a fresh room with a new game at the initial position and the newcomer as red; a full room refuses the newcomer and changes nothing; otherwise the newcomer takes the first free colour; no other room and no game changes |
| Server.Registry.Join | server.py:63-72 | a listed room refuses a newcomer when both colours are taken, else seats it under the first free colour |
| Server.Registry.Open | server.py:61-62 | an unlisted identifier gets a new room with a new game, and the newcomer takes red |
| Server.Registry.Disconnect | server.py:102-108 | keeps the registry invariant; frees the leaving colour; a room left without clients is removed from the map, otherwise the map is unchanged; no other room's clients change |
| Server.ThirdConnectionRefused | server.py:61-72 | two connections to one room get red then black; a third is refused and both seats stay as they were |
| Server.RoomReopens | server.py:61-108 | after red plays a move and leaves, the next connection to the same identifier gets red and a game at the initial position |

## Left out

- The transport is not modelled: the FastAPI application, CORS, static files, JSON encoding, the `accept`/`send_text`/`close` calls and the asynchronous receive loop. A connection is an abstract participant number, and the messages `broadcast_state` would send are the value `Room.StateMessages`.
- The per-connection receive loop (server.py:83-101) is not modelled as one operation. It parses a move message and calls the game's `move` with the connection's colour, and that call is `Game.CheckersGame.Move`.
- Concurrency is not modelled. Each operation is one atomic step on the registry, as it is between the `await` points of the single-threaded event loop.
- Move errors are the enumeration `Rules.MoveError`, one variant per check, instead of exceptions carrying Portuguese messages. The refusal of a full room is `None` instead of an error message. `get_player_color`'s exception on a full room is also `None`.
- `get_board_state` and `get_clients` are plain accessors. They are covered by `Serialize` and by the `clients` field.
- `get_opponent_color` and the turn flip at game.py:126 compute the same expression. Both are modelled once, as `Board.Opponent`.
- Server.Registry.Disconnect: models only the `WebSocketDisconnect` path (server.py:102-108). A handler ended by any other exception skips the cleanup, so its colour stays seated and its room stays listed. Examples are a message that is not JSON (server.py:86), a move without `"from"` (server.py:93) and non-integer coordinates (game.py:65). A later connection to that identifier then joins the old game instead of a fresh room, and `Server.RoomReopens` does not cover that case.
- Server.Registry.Disconnect: it requires `id in rooms`. The source's handler holds its own room object, which is still listed while one of its colours is seated.
- Server.Registry.Connect: a new room skips the `is_full` check. That check is always false for a room without clients, and the model does not evaluate it.
- Python's floor division `//` at game.py:100-101 is Dafny's `/`. Both operands are non-negative once the bounds check has passed, so the two agree.
- Cells are Dafny integers. Like Python's, they do not overflow, and only the five codes -2..2 ever appear (`Rules.WellFormedPreserved`).
- The client script `static/client.js` is not part of this model.
