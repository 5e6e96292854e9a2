/** The game rooms, found by player or by room id. */
module Rooms {
  import opened Lobby
  import opened Gomoku
  import opened Users

  const BOARD_SIZE: nat := 15

  ghost function RoomIds(m: map<UserId, GameRoomInfo>): map<UserId, RoomId> {
    map u | u in m :: m[u].roomId
  }

  ghost function Table(m: map<RoomId, GameRoomInfo>): map<RoomId, Room>
    reads m.Values
  {
    map r | r in m :: Room(m[r].whiteId, m[r].blackId, m[r].roomCount)
  }

  lemma RoomIdsWith(m: map<UserId, GameRoomInfo>, u: UserId, v: UserId, sp: GameRoomInfo)
    ensures RoomIds(m[u := sp][v := sp]) == RoomIds(m)[u := sp.roomId][v := sp.roomId]
  {
  }

  lemma TableWith(m: map<RoomId, GameRoomInfo>, sp: GameRoomInfo)
    ensures Table(m[sp.roomId := sp]) == Table(m)[sp.roomId := Room(sp.whiteId, sp.blackId, sp.roomCount)]
  {
  }

  class GameRoomManager {
    const users: UserManager
    var roomNextId: RoomId
    var userId2Room: map<UserId, GameRoomInfo>
    var roomId2Room: map<RoomId, GameRoomInfo>

    ghost predicate Valid()
      reads this, roomId2Room.Values
    {
      && (forall r :: r in roomId2Room ==> r < roomNextId && roomId2Room[r].roomId == r)
      && (forall r :: r in roomId2Room ==> roomId2Room[r].Valid() && |roomId2Room[r].board| == BOARD_SIZE)
      && (forall u :: u in userId2Room ==>
            userId2Room[u].roomId in roomId2Room && roomId2Room[userId2Room[u].roomId] == userId2Room[u])
    }

    ghost function RoomOf(): map<UserId, RoomId>
      reads this`userId2Room
    {
      RoomIds(userId2Room)
    }

    ghost function RoomTable(): map<RoomId, Room>
      reads this`roomId2Room, roomId2Room.Values
    {
      Table(roomId2Room)
    }

    constructor (users: UserManager)
      ensures Valid() && this.users == users && roomNextId == 1 && RoomOf() == map[] && RoomTable() == map[]
    {
      this.users, roomNextId, userId2Room, roomId2Room := users, 1, map[], map[];
    }

    method CreateRoom(userId1: UserId, userId2: UserId)
      requires Valid()
      modifies this
      ensures Valid() && roomNextId == old(roomNextId) + 1
      ensures RoomOf() == old(RoomOf())[userId1 := old(roomNextId)][userId2 := old(roomNextId)]
      ensures RoomTable() == old(RoomTable())[old(roomNextId) := Room(userId1, userId2, 2)]
      ensures userId1 in userId2Room && userId2 in userId2Room && userId2Room[userId1] == userId2Room[userId2]
      ensures var room := userId2Room[userId1];
              fresh(room) && room.whiteId == userId1 && room.blackId == userId2 && room.board == EmptyBoard(15)
      ensures forall g :: g in roomId2Room.Values ==> g in old(roomId2Room.Values) || fresh(g)
    {
      hide GameRoomInfo.Valid, RoomOf, RoomTable, Valid;
      var sp := new GameRoomInfo(BOARD_SIZE, roomNextId, userId1, userId2);
      Register(sp, userId1, userId2);
    }

    method Register(sp: GameRoomInfo, userId1: UserId, userId2: UserId)
      requires Valid() && sp.roomId == roomNextId && sp.Valid() && |sp.board| == BOARD_SIZE
      modifies this
      ensures Valid() && roomNextId == old(roomNextId) + 1 && roomId2Room.Values <= old(roomId2Room.Values) + {sp}
      ensures userId2Room == old(userId2Room)[userId1 := sp][userId2 := sp]
      ensures RoomOf() == old(RoomOf())[userId1 := sp.roomId][userId2 := sp.roomId]
      ensures RoomTable() == old(RoomTable())[sp.roomId := Room(sp.whiteId, sp.blackId, sp.roomCount)]
    {
      hide GameRoomInfo.Valid, RoomIds, Table;
      userId2Room := userId2Room[userId1 := sp];
      userId2Room := userId2Room[userId2 := sp];
      roomId2Room := roomId2Room[roomNextId := sp];
      roomNextId := roomNextId + 1;
      RoomIdsWith(old(userId2Room), userId1, userId2, sp);
      TableWith(old(roomId2Room), sp);
    }

    method PassiveRemoveRoom(roomId: RoomId)
      requires Valid() && forall u :: u in userId2Room ==> userId2Room[u].roomId != roomId
      modifies this`roomId2Room
      ensures Valid() && RoomTable() == old(RoomTable()) - {roomId}
      ensures roomId2Room.Values <= old(roomId2Room.Values)
    {
      hide GameRoomInfo.Valid;
      roomId2Room := roomId2Room - {roomId};
    }

    /** A registered room loses one player. */
    method CountDown(room: GameRoomInfo)
      requires Valid() && room.roomId in roomId2Room && roomId2Room[room.roomId] == room && 0 < room.roomCount < WORD
      modifies room`roomCount
      ensures Valid() && room.roomCount == old(room.roomCount) - 1
      ensures var r := room.roomId;
              RoomTable() == old(RoomTable())[r := old(RoomTable())[r].(count := room.roomCount)]
    {
      hide GameRoomInfo.Valid;
      room.SubCount();
    }

    /** A player is counted in its room, and if it is the last one counted, nobody else is in there. */
    ghost predicate Counted(userId: UserId)
      reads this, userId2Room.Values
    {
      userId in userId2Room ==>
        && 0 < userId2Room[userId].roomCount < WORD
        && (userId2Room[userId].roomCount == 1 ==>
              forall u :: u in userId2Room && u != userId ==> userId2Room[u].roomId != userId2Room[userId].roomId)
    }

    /** A player leaves its room; an empty room goes. */
    method TakeOut(userId: UserId)
      requires Valid() && Counted(userId) && userId in userId2Room
      modifies this`userId2Room, this`roomId2Room, roomId2Room.Values
      ensures Valid() && RoomOf() == old(RoomOf()) - {userId}
      ensures var r := old(RoomOf())[userId];
              && r in old(RoomTable()) && old(RoomTable())[r].count > 0
              && var room := old(RoomTable())[r].(count := old(RoomTable())[r].count - 1);
                 RoomTable() == if room.count == 0 then old(RoomTable()) - {r} else old(RoomTable())[r := room]
      ensures roomId2Room.Values <= old(roomId2Room.Values)
    {
      hide GameRoomInfo.Valid;
      var room := userId2Room[userId];
      var roomId := room.roomId;
      assert roomId2Room[roomId] in roomId2Room.Values;
      userId2Room := userId2Room - {userId};
      assert RoomTable() == old(RoomTable());
      assert RoomOf() == old(RoomOf()) - {userId};
      hide RoomOf;
      CountDown(room);
      if room.roomCount == 0 {
        PassiveRemoveRoom(roomId);
      }
    }

    /** The source takes the lock it already holds a second time when the room becomes empty; the removal is meant
        to be part of the same critical section. */
    method RemoveUser(userId: UserId)
      requires Valid() && users.Agree() && Counted(userId)
      modifies this`userId2Room, this`roomId2Room, roomId2Room.Values, users.id2User.Values
      ensures Valid() && users.Agree() && users.Points() == old(users.Points())
      ensures userId !in old(RoomOf()) ==>
                RoomOf() == old(RoomOf()) && RoomTable() == old(RoomTable())
                    && users.States() == old(users.States())
      ensures userId in old(RoomOf()) ==>
                var r := old(RoomOf())[userId];
                && RoomOf() == old(RoomOf()) - {userId}
                && r in old(RoomTable()) && old(RoomTable())[r].count > 0
                && var room := old(RoomTable())[r].(count := old(RoomTable())[r].count - 1);
                && RoomTable() == (if room.count == 0 then old(RoomTable()) - {r} else old(RoomTable())[r := room])
                && users.States()
                    == (if userId in users.id2User then old(users.States())[userId := Online] else old(users.States()))
      ensures roomId2Room.Values <= old(roomId2Room.Values)
    {
      hide GameRoomInfo.Valid, UserManager.States, UserManager.Points, UserManager.Agree, RoomTable;
      if userId !in userId2Room {
        return;
      }
      TakeOut(userId);
      users.SetUserState(userId, Online);
    }

    lemma KnownPlayers()
      ensures RoomOf().Keys == userId2Room.Keys
    {
    }

    /** The other player of the room, also after it has left; 0 for someone who is in no room. */
    method GetUserIdFromOtherId(id: UserId) returns (other: UserId)
      requires Valid()
      ensures id !in userId2Room ==> other == 0
      ensures id in userId2Room ==>
                other == if id == userId2Room[id].whiteId then userId2Room[id].blackId else userId2Room[id].whiteId
      ensures id in RoomOf() ==> RoomOf()[id] in RoomTable() && other == OtherId(RoomTable()[RoomOf()[id]], id)
    {
      if id !in userId2Room {
        return 0;
      }
      other := userId2Room[id].GetOtherId(id);
    }

    /** A stone in the room of the player who sent it; in no room there is nothing to win. */
    method HandChess(x: int, y: int, sendId: UserId) returns (won: bool)
      requires Valid() && 0 <= x < 15 && 0 <= y < 15
      modifies if sendId in userId2Room then {userId2Room[sendId]} else {}
      ensures Valid() && RoomTable() == old(RoomTable())
      ensures sendId !in userId2Room ==> !won
      ensures sendId in userId2Room ==>
                var room := userId2Room[sendId];
                var stone := if sendId == room.whiteId then WHITE_CHESS else BLACK_CHESS;
                && |old(room.board)| == 15 && Square(old(room.board))
                && room.board == Placed(old(room.board), x, y, stone)
                && (won <==> WinThrough(room.board, x, y, stone))
    {
      if sendId !in userId2Room {
        return false;
      }
      var room := userId2Room[sendId];
      hide WinThrough, HasFive;
      won := room.HandleChess(x, y, sendId);
    }
  }
}
