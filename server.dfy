/** Room bookkeeping of the game server: which connections sit in which room
    under which colour.  Connections are abstract participant tokens. */
module Server {
  import opened Wrappers
  import opened Board
  import opened Rules
  import opened Game

  /** Stands for one connection. */
  type Participant = nat

  /** The identifier a client names its room with. */
  type RoomId = string

  /** The state message one recipient receives: its own colour and the game. */
  datatype StateMessage = StateMessage(you: Color, state: Snapshot)

  /** A map keyed only by colours holds at most two entries. */
  lemma AtMostTwoColors<V>(m: map<Color, V>)
    ensures m.Keys <= {RED, BLACK} ==> |m| <= 2
    ensures m.Keys <= {RED, BLACK} ==> (|m| >= 2 <==> RED in m && BLACK in m)
  {
    if !(m.Keys <= {RED, BLACK}) {
    } else if RED in m && BLACK in m {
      assert m.Keys == {RED, BLACK};
    } else if RED in m {
      assert m.Keys == {RED};
    } else if BLACK in m {
      assert m.Keys == {BLACK};
    } else {
      assert m.Keys == {};
    }
  }

  /** One game and the connections playing it, keyed by colour. */
  class Room {
    const game: CheckersGame
    var clients: map<Color, Participant>

    constructor ()
      ensures fresh(game) && fresh(game.board) && game.Valid()
      ensures game.Serialize() == InitialSnapshot()
      ensures clients == map[]
    {
      game := new CheckersGame();
      clients := map[];
    }

    /** A listed room: one or two clients, each under a colour. */
    ghost predicate Occupied()
      reads this
    {
      game.Valid() && clients.Keys <= {RED, BLACK} && clients != map[]
    }

    /** The room has two clients; with colour keys, both colours are seated. */
    function IsFull(): (full: bool)
      reads this
      ensures clients.Keys <= {RED, BLACK} ==> (full <==> RED in clients && BLACK in clients)
    {
      AtMostTwoColors(clients);
      |clients| >= 2
    }

    /** The colour a newcomer gets: red while red is free, else black while
        black is free, else none (the room is taken). */
    function PlayerColor(): (color: Option<Color>)
      reads this
      ensures color.Some? ==> IsColor(color.value) && color.value !in clients
      ensures color == Some(RED) <==> RED !in clients
      ensures color.None? <==> RED in clients && BLACK in clients
    {
      if RED !in clients then Some(RED)
      else if BLACK !in clients then Some(BLACK)
      else None
    }

    /** What a state broadcast delivers: every registered colour receives the
        serialized game tagged with its own colour. */
    function StateMessages(): (msgs: map<Color, StateMessage>)
      requires game.Valid()
      reads this, game, game.board
      ensures msgs.Keys == clients.Keys
      ensures forall c :: c in msgs ==> msgs[c].you == c && msgs[c].state == game.Serialize()
    {
      map c | c in clients :: StateMessage(c, game.Serialize())
    }
  }

  /** A room whose keys are colours is full exactly when no colour is left
      for a newcomer. */
  lemma FullIffNoColorLeft(room: Room)
    requires room.clients.Keys <= {RED, BLACK}
    ensures room.IsFull() <==> room.PlayerColor().None?
  {
    AtMostTwoColors(room.clients);
  }

  /** The process-wide map from room identifier to room. */
  class Registry {
    var rooms: map<RoomId, Room>

    /** Every listed room is occupied by one or two colours, and no room is
        listed under two identifiers. */
    ghost predicate Valid()
      reads this, rooms.Values
    {
      && (forall id :: id in rooms ==> rooms[id].Occupied())
      && (forall a, b :: a in rooms && b in rooms && a != b ==> rooms[a] != rooms[b])
    }

    constructor ()
      ensures Valid() && rooms == map[]
    {
      rooms := map[];
    }

    /** A connection to room `id`: the room is created if it is not listed;
        a full room refuses the newcomer and nothing changes; otherwise the
        newcomer takes the first free colour, red before black. */
    method Connect(id: RoomId, who: Participant) returns (color: Option<Color>)
      requires Valid()
      modifies this, rooms.Values
      ensures Valid()
      ensures id in rooms && forall k :: k in rooms ==> k == id || k in old(rooms)
      ensures forall k :: k in old(rooms) && k != id ==>
                k in rooms && rooms[k] == old(rooms[k]) && rooms[k].clients == old(rooms[k].clients)
      ensures id in old(rooms) ==>
                && rooms[id] == old(rooms[id])
                && if |old(rooms[id].clients)| >= 2 then
                     color.None? && rooms[id].clients == old(rooms[id].clients)
                   else
                     && color == Some(if RED in old(rooms[id].clients) then BLACK else RED)
                     && rooms[id].clients == old(rooms[id].clients)[color.value := who]
      ensures id !in old(rooms) ==>
                && fresh(rooms[id]) && fresh(rooms[id].game) && fresh(rooms[id].game.board)
                && rooms[id].game.Serialize() == InitialSnapshot()
                && color == Some(RED) && rooms[id].clients == map[RED := who]
      ensures forall k :: k in old(rooms) ==> unchanged(old(rooms)[k].game, old(rooms)[k].game.board)
    {
      if id in rooms {
        color := Join(id, who);
      } else {
        color := Open(id, who);
      }
    }

    /** Connection to a listed room: refused when both colours are taken,
        otherwise seated under the first free colour. */
    method Join(id: RoomId, who: Participant) returns (color: Option<Color>)
      requires Valid() && id in rooms
      modifies rooms[id]
      ensures Valid()
      ensures if |old(rooms[id].clients)| >= 2 then
                color.None? && rooms[id].clients == old(rooms[id].clients)
              else
                && color == Some(if RED in old(rooms[id].clients) then BLACK else RED)
                && rooms[id].clients == old(rooms[id].clients)[color.value := who]
    {
      var room := rooms[id];
      if room.IsFull() {
        return None;
      }
      FullIffNoColorLeft(room);
      var c := room.PlayerColor();
      assert forall k :: k in rooms && k != id ==> rooms[k] != room;
      room.clients := room.clients[c.value := who];
      color := c;
    }

    /** Connection to a room not listed yet: a new game is created and the
        newcomer takes red. */
    method Open(id: RoomId, who: Participant) returns (color: Option<Color>)
      requires Valid() && id !in rooms
      modifies this
      ensures Valid()
      ensures id in rooms && rooms == old(rooms)[id := rooms[id]]
      ensures fresh(rooms[id]) && fresh(rooms[id].game) && fresh(rooms[id].game.board)
      ensures rooms[id].game.Serialize() == InitialSnapshot()
      ensures color == Some(RED) && rooms[id].clients == map[RED := who]
    {
      // A room just created is empty, so it is never full and offers red.
      var created := new Room();
      var c := created.PlayerColor();
      created.clients := created.clients[c.value := who];
      rooms := rooms[id := created];
      color := c;
    }

    /** The connection holding colour `color` in room `id` is gone: the colour
        is freed, and a room left without clients is dropped from the map. */
    method Disconnect(id: RoomId, color: Color)
      requires Valid() && id in rooms
      modifies this, rooms[id]
      ensures Valid()
      ensures var left := old(rooms[id].clients) - {color};
              && (left == map[] ==> rooms == old(rooms) - {id})
              && (left != map[] ==> rooms == old(rooms) && rooms[id].clients == left)
      ensures forall k :: k in rooms && k != id ==> rooms[k].clients == old(rooms[k].clients)
    {
      var room := rooms[id];
      if color in room.clients {
        room.clients := room.clients - {color};
      }
      if |room.clients| == 0 {
        rooms := rooms - {id};
      }
    }
  }

  /** Two players are seated red then black; a third connection to the same
      room is refused and leaves both seats as they were. */
  method ThirdConnectionRefused() returns (first: Option<Color>, second: Option<Color>,
                                           third: Option<Color>, seated: map<Color, Participant>)
    ensures first == Some(RED) && second == Some(BLACK) && third == None
    ensures seated == map[RED := 1, BLACK := 2]
  {
    var registry := new Registry();
    first := registry.Connect("lobby", 1);
    second := registry.Connect("lobby", 2);
    assert registry.rooms["lobby"].clients == map[RED := 1, BLACK := 2];
    third := registry.Connect("lobby", 3);
    seated := registry.rooms["lobby"].clients;
  }

  /** Red opens a game, leaves, and the next connection to the same
      identifier gets red and a new game at the initial position. */
  method RoomReopens() returns (moved: Option<MoveError>, reopened: Option<Color>, restart: Snapshot)
    ensures moved == None
    ensures reopened == Some(RED) && restart == InitialSnapshot()
  {
    var registry := new Registry();
    var _ := registry.Connect("lobby", 1);
    var room := registry.rooms["lobby"];
    assert registry.rooms == map["lobby" := room];
    OpeningMove();
    moved := room.game.Move(RED, Pos(2, 1), Pos(3, 2));
    registry.Disconnect("lobby", RED);
    assert registry.rooms == map[];
    reopened := registry.Connect("lobby", 2);
    restart := registry.rooms["lobby"].game.Serialize();
  }
}
