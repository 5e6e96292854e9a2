/** The match pool and the handlers around it, each proved to be one step of the lobby. */
module Matching {
  import opened Lobby
  import opened Users
  import opened Rooms
  import opened Gomoku

  lemma InvariantShape(l: Lobby)
    requires Invariant(l)
    ensures Shaped(l) && |l.pools| == 3
  {
  }

  lemma ThreeQueues(l: Lobby)
    requires |l.pools| == 3
    ensures |MatchStep(l, 0).pools| == 3 && |MatchStep(MatchStep(l, 0), 1).pools| == 3
  {
  }

  lemma NoPass(l: Lobby)
    requires |l.pools| == 3
    ensures Passes(l, 0) == l
  {
  }

  lemma MembersOf(l: Lobby, r: RoomId, id: UserId)
    requires RoomSound(l, r) && id in l.roomOf && l.roomOf[id] == r
    ensures 0 < l.rooms[r].count <= 2
    ensures l.rooms[r].count == 1 ==> forall u :: u in l.roomOf && l.roomOf[u] == r ==> u == id
  {
    var m, two := Members(l.roomOf, r), {l.rooms[r].white, l.rooms[r].black};
    SubsetSize(m, two);
    forall u | u in l.roomOf && l.roomOf[u] == r && u != id ensures |m| >= 2 {
      SubsetSize({u, id}, m);
    }
  }

  lemma SubsetSize(a: set<UserId>, b: set<UserId>)
    requires a <= b
    ensures |a| <= |b|
  {
    assert b == a + (b - a);
  }

  class MatchPool {
    const users: UserManager
    const rooms: GameRoomManager
    var matchPool: seq<seq<UserId>>
    ghost var since: map<UserId, nat>
    ghost var joined: nat
    ghost var cancelled: nat
    ghost var created: nat

    ghost function Model(): Lobby
      reads this, users, users.id2User.Values, rooms, rooms.roomId2Room.Values
    {
      Lobby(users.States(), users.Points(), matchPool, rooms.RoomOf(), rooms.RoomTable(), rooms.roomNextId,
            since, joined, cancelled, created)
    }

    ghost predicate Valid()
      reads this, users, users.id2User.Values, rooms, rooms.roomId2Room.Values
    {
      rooms.users == users && users.Agree() && rooms.Valid() && Invariant(Model())
    }

    constructor (users: UserManager, rooms: GameRoomManager)
      requires users.Agree() && users.id2User == map[] && rooms.Valid() && rooms.users == users
      requires rooms.RoomOf() == map[] && rooms.RoomTable() == map[] && rooms.roomNextId == 1
      ensures Valid() && Model() == Start() && this.users == users && this.rooms == rooms
    {
      this.users, this.rooms := users, rooms;
      matchPool := [[], [], []];
      since, joined, cancelled, created := map[], 0, 0, 0;
      new;
      StartIsSound();
      assert Model() == Start();
      hide Invariant;
    }

    lemma PlayersAreCounted(userId: UserId)
      requires Valid()
      ensures rooms.Counted(userId)
    {
      hide Shaped, QueuesSound, PlayersPlay, Conserved, UserManager.Agree;
      if userId in rooms.userId2Room {
        var l, g := Model(), rooms.userId2Room[userId];
        assert RoomSound(l, g.roomId) && l.roomOf[userId] == g.roomId && l.rooms[g.roomId].count == g.roomCount;
        MembersOf(l, g.roomId, userId);
        assert forall u :: u in rooms.userId2Room ==> u in l.roomOf && l.roomOf[u] == rooms.userId2Room[u].roomId;
      }
    }

    lemma TwoPlayers(userId: UserId)
      requires Valid() && userId in rooms.userId2Room
      ensures userId in users.id2User && rooms.userId2Room[userId].whiteId != rooms.userId2Room[userId].blackId
    {
      hide QueuesSound, Conserved, UserManager.Agree;
      var l, g := Model(), rooms.userId2Room[userId];
      assert RoomSound(l, g.roomId) && l.roomOf[userId] == g.roomId;
      assert userId in l.states;
    }

    /** To the end of the queue of its bracket. */
    method PushBack(userId: UserId, points: nat)
      requires |matchPool| == 3
      modifies this`matchPool
      ensures var b := Bracket(points); matchPool == old(matchPool)[b := old(matchPool)[b] + [userId]]
      ensures Model() == old(Model()).(pools := matchPool)
    {
      if points < 2000 {
        matchPool := matchPool[0 := matchPool[0] + [userId]];
      } else if points < 4000 {
        matchPool := matchPool[1 := matchPool[1] + [userId]];
      } else {
        matchPool := matchPool[2 := matchPool[2] + [userId]];
      }
    }

    /** Out of the queue of its bracket. */
    method Remove(userId: UserId, points: nat)
      requires |matchPool| == 3
      modifies this`matchPool
      ensures var b := Bracket(points); matchPool == old(matchPool)[b := Without(old(matchPool)[b], userId)]
    {
      if points < 2000 {
        matchPool := matchPool[0 := Without(matchPool[0], userId)];
      } else if points < 4000 {
        matchPool := matchPool[1 := Without(matchPool[1], userId)];
      } else {
        matchPool := matchPool[2 := Without(matchPool[2], userId)];
      }
    }

    /** Only a user who is ONLINE gets in. */
    method AddUser(userId: UserId) returns (ok: bool)
      requires Valid() && userId in users.id2User
      modifies this, users.id2User.Values
      ensures Valid() && Model() == JoinStep(old(Model()), userId)
      ensures ok <==> old(users.id2User[userId].state).Online?
    {
      hide Invariant, Shaped, Inverse, UserManager.Valid, UserManager.Agree, UserManager.States, UserManager.Points;
      hide GameRoomManager.Valid, GameRoomManager.RoomOf, GameRoomManager.RoomTable;
      hide Bracket;
      users.StateOf(userId);
      InvariantShape(Model());
      JoinKeeps(Model(), userId);
      var user := users.GetUserByUserId(userId);
      if user.state != Online {
        return false;
      }
      PushBack(userId, user.userPoints);
      users.UserIds();
      NoteJoin(user);
      return true;
    }

    /** The user is MATCHING, and its join is counted. */
    method NoteJoin(user: UserInfo)
      requires users.Agree() && rooms.Valid() && user.userId in users.id2User && users.id2User[user.userId] == user
      modifies this`since, this`joined, user
      ensures users.Agree() && rooms.Valid()
      ensures Model() == old(Model()).(states := old(Model()).states[user.userId := Matching],
                                       since := old(since)[user.userId := old(joined)], joined := old(joined) + 1)
    {
      hide Inverse, UserManager.Agree, UserManager.States, UserManager.Points;
      hide GameRoomManager.Valid, GameRoomManager.RoomOf, GameRoomManager.RoomTable;
      SetState(user, Matching);
      since := since[user.userId := joined];
      joined := joined + 1;
    }

    /** Only a user who is MATCHING gets out. */
    method RemoveUser(userId: UserId) returns (ok: bool)
      requires Valid() && userId in users.id2User
      modifies this, users.id2User.Values
      ensures Valid() && Model() == CancelStep(old(Model()), userId)
      ensures ok <==> old(users.id2User[userId].state).Matching?
    {
      hide Invariant, Shaped, Inverse, UserManager.Valid, UserManager.Agree, UserManager.States, UserManager.Points;
      hide GameRoomManager.Valid, GameRoomManager.RoomOf, GameRoomManager.RoomTable;
      hide Bracket, Without;
      users.StateOf(userId);
      InvariantShape(Model());
      CancelKeeps(Model(), userId);
      var user := users.GetUserByUserId(userId);
      if user.state != Matching {
        return false;
      }
      Remove(userId, user.userPoints);
      users.UserIds();
      SetState(user, Online);
      cancelled := cancelled + 1;
      return true;
    }

    /** One bracket of a pass: the two in front, if there are two, get a room and are GAMING. */
    method MatchBracket(i: nat)
      requires Valid() && i < 3
      modifies this, rooms, users.id2User.Values
      ensures Valid() && Model() == MatchStep(old(Model()), i)
      ensures forall g :: g in rooms.roomId2Room.Values ==> g in old(rooms.roomId2Room.Values) || fresh(g)
    {
      hide Invariant, Shaped, Inverse, UserManager.Valid, UserManager.Agree, UserManager.States, UserManager.Points;
      hide GameRoomManager.Valid, GameRoomManager.RoomOf, GameRoomManager.RoomTable;
      InvariantShape(Model());
      MatchKeeps(Model(), i);
      if |matchPool[i]| >= 2 {
        FrontOfQueue(Model(), i);
        users.KnownUsers();
        var userId1 := matchPool[i][0];
        matchPool := matchPool[i := matchPool[i][1..]];
        var userId2 := matchPool[i][0];
        matchPool := matchPool[i := matchPool[i][1..]];
        assert matchPool == old(matchPool)[i := old(matchPool)[i][2..]];
        StartGame(userId1, userId2);
        created := created + 1;
      }
    }

    /** Finds the two users by their connections, makes them a room and sets them GAMING. */
    method StartGame(userId1: UserId, userId2: UserId)
      requires users.Agree() && rooms.Valid() && userId1 in users.id2User && userId2 in users.id2User
      modifies rooms, users.id2User.Values
      ensures users.Agree() && rooms.Valid() && rooms.roomNextId == old(rooms.roomNextId) + 1
      ensures users.States() == old(users.States())[userId1 := Gaming][userId2 := Gaming]
              && users.Points() == old(users.Points())
      ensures rooms.RoomOf() == old(rooms.RoomOf())[userId1 := old(rooms.roomNextId)][userId2 := old(rooms.roomNextId)]
      ensures rooms.RoomTable() == old(rooms.RoomTable())[old(rooms.roomNextId) := Room(userId1, userId2, 2)]
      ensures forall g :: g in rooms.roomId2Room.Values ==> g in old(rooms.roomId2Room.Values) || fresh(g)
    {
      hide Inverse, UserManager.Valid, UserManager.Agree, UserManager.States, UserManager.Points;
      hide GameRoomManager.Valid, GameRoomManager.RoomOf, GameRoomManager.RoomTable;
      users.UserIds();
      var conn1, online1 := users.GetConnByUserId(userId1);
      var conn2, online2 := users.GetConnByUserId(userId2);
      var user1 := users.GetUserByConn(conn1);
      var user2 := users.GetUserByConn(conn2);
      rooms.CreateRoom(userId1, userId2);
      SetState(user1, Gaming);
      SetState(user2, Gaming);
    }

    method SetState(user: UserInfo, state: UserState)
      requires users.Agree() && user.userId in users.id2User && users.id2User[user.userId] == user
      modifies user
      ensures users.Agree() && users.Points() == old(users.Points())
      ensures users.States() == old(users.States())[user.userId := state]
    {
      hide Inverse, UserManager.Agree, UserManager.States, UserManager.Points;
      users.StateOf(user.userId);
      user.SetState(state);
      users.StateSet(user.userId);
    }

    /** One pass of the matching thread over the three brackets. */
    method MatchPass()
      requires Valid()
      modifies this, rooms, users.id2User.Values
      ensures Valid() && Model() == MatchAll(old(Model()))
      ensures forall g :: g in rooms.roomId2Room.Values ==> g in old(rooms.roomId2Room.Values) || fresh(g)
    {
      hide Invariant, Shaped, Inverse, UserManager.Valid, UserManager.Agree, UserManager.States, UserManager.Points;
      hide GameRoomManager.Valid, GameRoomManager.RoomOf, GameRoomManager.RoomTable;
      ghost var l := Model();
      InvariantShape(l);
      ThreeQueues(l);
      hide MatchStep;
      for i := 0 to 3
        invariant Valid()
        invariant Model() == if i == 0 then l
                             else if i == 1 then MatchStep(l, 0)
                             else if i == 2 then MatchStep(MatchStep(l, 0), 1)
                             else MatchAll(l)
        invariant forall g :: g in rooms.roomId2Room.Values ==> g in old(rooms.roomId2Room.Values) || fresh(g)
      {
        MatchBracket(i);
      }
    }

    /** What the matching thread does, holding the lock, from one wait to the next: as long as some queue holds two it
        passes over all of them, as often as the longest queue has pairs. */
    method MatchThread() returns (passes: nat)
      requires Valid()
      modifies this, rooms, users.id2User.Values
      ensures Valid() && Settled(Model())
      ensures var l := old(Model()); |l.pools| == 3 && passes == PassesNeeded(l) && Model() == Passes(l, passes)
      ensures forall g :: g in rooms.roomId2Room.Values ==> g in old(rooms.roomId2Room.Values) || fresh(g)
    {
      hide Invariant, MatchAll, Passes, PassesNeeded, UserManager.Agree, UserManager.States, UserManager.Points;
      hide GameRoomManager.Valid, GameRoomManager.RoomOf, GameRoomManager.RoomTable;
      ghost var l := Model();
      passes := 0;
      SettledAfterExactly(l, passes);
      NoPass(l);
      while |matchPool[0]| > 1 || |matchPool[1]| > 1 || |matchPool[2]| > 1
        invariant Valid() && |l.pools| == |matchPool| == 3
        invariant passes <= PassesNeeded(l) && Model() == Passes(l, passes)
        invariant Settled(Model()) <==> passes >= PassesNeeded(l)
        invariant forall g :: g in rooms.roomId2Room.Values ==> g in old(rooms.roomId2Room.Values) || fresh(g)
        decreases PassesNeeded(l) - passes
      {
        MatchPass();
        OnePassMore(l, passes);
        passes := passes + 1;
        SettledAfterExactly(l, passes);
      }
    }
  }
  // ---------------------------------------------------------------- the handlers

  /** A user logs in. All is well afterwards exactly when the same user was not waiting or playing under an earlier
      login, nor logged in over another connection, and the connection is no other user's. */
  method OnLogin(pool: MatchPool, userId: UserId, points: nat, totalCount: nat, winCount: nat, con: Conn)
    requires pool.Valid()
    modifies pool.users
    ensures pool.Model() == LoginStep(old(pool.Model()), userId, points) && pool.users.Valid() && pool.rooms.Valid()
    ensures pool.Valid() <==>
              && (userId in old(pool.users.id2User) ==>
                    !old(pool.users.id2User[userId].state).Matching? && !old(pool.users.id2User[userId].state).Gaming?)
              && (userId in old(pool.users.id2Conn) ==> old(pool.users.id2Conn)[userId] == con)
              && (con in old(pool.users.conn2Id) ==> old(pool.users.conn2Id)[con] == userId)
    ensures userId in pool.users.id2User
    ensures var user := pool.users.id2User[userId];
            && pool.users.id2User == old(pool.users.id2User)[userId := user]
            && user.userId == userId && user.con == con && user.state == Online
            && user.userPoints == points && user.totalCount == totalCount && user.winCount == winCount
    ensures pool.users.id2Conn == old(pool.users.id2Conn)[userId := con]
            && pool.users.conn2Id == old(pool.users.conn2Id)[con := userId]
    ensures forall u :: u in pool.users.id2User.Values ==> u in old(pool.users.id2User.Values) || fresh(u)
  {
    hide Invariant, Shaped, Inverse, UserManager.Valid, UserManager.Agree, UserManager.States, UserManager.Points;
    hide GameRoomManager.Valid, GameRoomManager.RoomOf, GameRoomManager.RoomTable;
    LoginKeepsIff(pool.Model(), userId, points);
    pool.users.KnownUsers();
    if userId in pool.users.id2User {
      pool.users.StateOf(userId);
    }
    var user := new UserInfo(userId, points, totalCount, winCount, con);
    pool.users.AddOnlineUser(user);
  }

  /** A connection is lost and its user dropped. All is well afterwards exactly when the user was neither waiting
      nor playing. */
  method DropUser(pool: MatchPool, userId: UserId)
    requires pool.Valid()
    modifies pool.users
    ensures pool.Model() == LogoutStep(old(pool.Model()), userId) && pool.users.Agree() && pool.rooms.Valid()
    ensures pool.Valid() <==>
              (userId in old(pool.users.id2User) ==>
                 !old(pool.users.id2User[userId].state).Matching? && !old(pool.users.id2User[userId].state).Gaming?)
    ensures pool.users.id2Conn == old(pool.users.id2Conn) - {userId}
    ensures pool.users.id2User.Values <= old(pool.users.id2User.Values)
  {
    hide Invariant, Shaped, Inverse, UserManager.Valid, UserManager.States, UserManager.Points;
    hide GameRoomManager.Valid, GameRoomManager.RoomOf, GameRoomManager.RoomTable;
    LogoutKeepsIff(pool.Model(), userId);
    pool.users.KnownUsers();
    if userId in pool.users.id2User {
      pool.users.StateOf(userId);
    }
    pool.users.RemoveOnlineUser(userId);
  }

  method OnExitRoom(pool: MatchPool, userId: UserId)
    requires pool.Valid()
    modifies pool.rooms, pool.rooms.roomId2Room.Values, pool.users.id2User.Values
    ensures pool.Valid() && pool.Model() == LeaveStep(old(pool.Model()), userId)
    ensures pool.rooms.roomId2Room.Values <= old(pool.rooms.roomId2Room.Values)
  {
    hide Invariant, Shaped, Inverse, UserManager.Valid, UserManager.Agree, UserManager.States, UserManager.Points;
    hide GameRoomManager.Valid, GameRoomManager.RoomOf, GameRoomManager.RoomTable;
    hide GameRoomManager.Counted;
    InvariantShape(pool.Model());
    LeaveKeeps(pool.Model(), userId);
    pool.PlayersAreCounted(userId);
    pool.users.KnownUsers();
    pool.rooms.RemoveUser(userId);
  }

  /** The winner and, if it is logged in, the loser have their result on record, and nobody else has any. */
  twostate predicate Paid(users: UserManager, winner: UserId, loser: UserId)
    reads users, users.id2User.Values
  {
    && users.id2User == old(users.id2User) && winner != loser && winner in users.id2User && Won(users.id2User[winner])
    && (loser in users.id2User ==> Lost(users.id2User[loser]))
    && forall u :: u in users.id2User && u != winner && u != loser ==> Kept(users.id2User[u])
  }

  /** What a reported win does to the points. All is well afterwards exactly unless it moves the opponent to
      another bracket while it waits. */
  method Award(pool: MatchPool, sendId: UserId)
    requires pool.Valid() && sendId in pool.rooms.userId2Room
    modifies pool.users.id2User.Values
    ensures pool.Model() == ScoreStep(old(pool.Model()), sendId) && pool.users.Agree() && pool.rooms.Valid()
    ensures pool.Valid() <==> !ScoreMovesWaiter(old(pool.Model()), sendId)
    ensures var room := pool.rooms.userId2Room[sendId];
            Paid(pool.users, sendId, if sendId == room.whiteId then room.blackId else room.whiteId)
  {
    hide Invariant, Shaped, Inverse, UserManager.Valid, UserManager.Agree, UserManager.States, UserManager.Points;
    hide GameRoomManager.Valid, GameRoomManager.RoomOf, GameRoomManager.RoomTable;
    hide ScoreMovesWaiter;
    InvariantShape(pool.Model());
    ScoreKeepsIff(pool.Model(), sendId);
    pool.rooms.KnownPlayers();
    pool.TwoPlayers(sendId);
    var recvId := pool.rooms.GetUserIdFromOtherId(sendId);
    Pay(pool.users, sendId, recvId);
  }

  method Pay(users: UserManager, winner: UserId, loser: UserId)
    requires users.Agree() && winner in users.id2User && winner != loser
    modifies users.id2User.Values
    ensures users.Agree() && users.States() == old(users.States()) && Paid(users, winner, loser)
    ensures users.Points() == Gain(Gain(old(users.Points()), winner, 10), loser, -5)
  {
    hide Inverse, UserManager.Agree, UserManager.States, UserManager.Points, Gain;
    users.WinGame(winner);
    users.LoseGame(loser);
  }

  /** A stone is played: the points change exactly when a maximal five runs through it. */
  method OnChess(pool: MatchPool, x: int, y: int, sendId: UserId) returns (won: bool)
    requires pool.Valid() && 0 <= x < 15 && 0 <= y < 15
    modifies pool.users.id2User.Values,
             if sendId in pool.rooms.userId2Room then {pool.rooms.userId2Room[sendId]} else {}
    ensures won <==> sendId in pool.rooms.userId2Room &&
                     var room := pool.rooms.userId2Room[sendId];
                     WonBy(room.board, x, y, if sendId == room.whiteId then 1 else 2)
    ensures sendId in pool.rooms.userId2Room ==>
              var room := pool.rooms.userId2Room[sendId];
              && Square(old(room.board)) && |old(room.board)| == 15
              && room.board == old(room.board)[x := old(room.board)[x][y := if sendId == room.whiteId then 1 else 2]]
              && (won ==> Paid(pool.users, sendId, if sendId == room.whiteId then room.blackId else room.whiteId))
    ensures pool.Model() == if won then ScoreStep(old(pool.Model()), sendId) else old(pool.Model())
    ensures !won ==> pool.users.id2User == old(pool.users.id2User) &&
                     forall u :: u in pool.users.id2User ==> Kept(pool.users.id2User[u])
    ensures pool.Valid() <==> !won || !ScoreMovesWaiter(old(pool.Model()), sendId)
  {
    hide Invariant, Shaped, Inverse, UserManager.Valid, UserManager.Agree, UserManager.States, UserManager.Points;
    hide GameRoomManager.Valid, GameRoomManager.RoomOf, GameRoomManager.RoomTable;
    hide ScoreMovesWaiter, WinThrough, ScoreStep;
    InvariantShape(pool.Model());
    won := pool.rooms.HandChess(x, y, sendId);
    assert pool.Model() == old(pool.Model());
    if won {
      Award(pool, sendId);
    }
  }

  /** The stone of `color` at (x, y) has a five through it. */
  ghost predicate WonBy(b: Board, x: int, y: int, color: int) {
    Square(b) && OnBoard(b, x, y) && WinThrough(b, x, y, color)
  }

  /** Performs one operation; a login goes over the connection `con`. */
  method Perform(pool: MatchPool, op: Op, con: Conn)
    requires pool.Valid() && Shaped(pool.Model()) && Safe(pool.Model(), op)
    requires op.Login? ==>
               && (op.id in pool.users.id2Conn ==> pool.users.id2Conn[op.id] == con)
               && (con in pool.users.conn2Id ==> pool.users.conn2Id[con] == op.id)
    modifies pool, pool.users, pool.users.id2User.Values, pool.rooms, pool.rooms.roomId2Room.Values
    ensures pool.Valid() && pool.Model() == Step(old(pool.Model()), op)
    ensures forall g :: g in pool.rooms.roomId2Room.Values ==> g in old(pool.rooms.roomId2Room.Values) || fresh(g)
    ensures forall u :: u in pool.users.id2User.Values ==> u in old(pool.users.id2User.Values) || fresh(u)
    ensures forall id :: id in pool.users.id2Conn ==>
              (op.Login? && id == op.id && pool.users.id2Conn[id] == con) ||
              (id in old(pool.users.id2Conn) && pool.users.id2Conn[id] == old(pool.users.id2Conn)[id])
  {
    hide Invariant, Shaped, Inverse, UserManager.Valid, UserManager.Agree, UserManager.States, UserManager.Points;
    hide GameRoomManager.Valid, GameRoomManager.RoomOf, GameRoomManager.RoomTable;
    InvariantShape(pool.Model());
    pool.users.KnownUsers();
    pool.rooms.KnownPlayers();
    match op
    case Login(id, points) =>
      if id in pool.users.id2User { pool.users.StateOf(id); }
      OnLogin(pool, id, points, 0, 0, con);
    case Logout(id) =>
      if id in pool.users.id2User { pool.users.StateOf(id); }
      DropUser(pool, id);
    case Join(id) => var _ := pool.AddUser(id);
    case Cancel(id) => var _ := pool.RemoveUser(id);
    case MatchPass => pool.MatchPass();
    case Leave(id) => OnExitRoom(pool, id);
    case Score(id) =>
      if id in pool.rooms.userId2Room {
        Award(pool, id);
      }
  }

  /** Every run of the managers is the run of the lobby, when each user logs in over a connection of its own. */
  method RunLobby(pool: MatchPool, ops: seq<Op>, conns: UserId -> Conn)
    requires pool.Valid() && Legal(pool.Model(), ops)
    requires forall i, j :: conns(i) == conns(j) ==> i == j
    requires forall id :: id in pool.users.id2Conn ==> pool.users.id2Conn[id] == conns(id)
    modifies pool, pool.users, pool.users.id2User.Values, pool.rooms, pool.rooms.roomId2Room.Values
    ensures pool.Valid() && pool.Model() == Run(old(pool.Model()), ops)
  {
    hide Invariant, Shaped, Safe, Step, Inverse, UserManager.Valid, UserManager.States, UserManager.Points;
    hide GameRoomManager.Valid, GameRoomManager.RoomOf, GameRoomManager.RoomTable;
    ghost var l0 := pool.Model();
    var k := 0;
    assert ops[0..] == ops;
    while k < |ops|
      invariant 0 <= k <= |ops| && pool.Valid() && Legal(pool.Model(), ops[k..])
      invariant Run(pool.Model(), ops[k..]) == Run(l0, ops)
      invariant forall id :: id in pool.users.id2Conn ==> pool.users.id2Conn[id] == conns(id)
      invariant forall g :: g in pool.rooms.roomId2Room.Values ==> g in old(pool.rooms.roomId2Room.Values) || fresh(g)
      invariant forall u :: u in pool.users.id2User.Values ==> u in old(pool.users.id2User.Values) || fresh(u)
    {
      assert ops[k..][1..] == ops[k + 1..] && ops[k..][0] == ops[k];
      pool.users.OwnConn(conns);
      Perform(pool, ops[k], if ops[k].Login? then conns(ops[k].id) else 0);
      k := k + 1;
    }
  }
}
