/** The users who are logged in, found by id or by connection. */
module Users {
  import opened Lobby

  type Conn = nat

  class UserInfo {
    const userId: UserId
    const con: Conn
    var state: UserState
    var userPoints: nat
    var totalCount: nat
    var winCount: nat

    constructor (userId: UserId, userPoints: nat, totalCount: nat, winCount: nat, con: Conn)
      ensures this.userId == userId && this.con == con && state == Online
      ensures this.userPoints == userPoints && this.totalCount == totalCount && this.winCount == winCount
    {
      this.userId, this.con, this.state := userId, con, Online;
      this.userPoints, this.totalCount, this.winCount := userPoints, totalCount, winCount;
    }

    method SetState(state: UserState)
      modifies this`state
      ensures this.state == state
    {
      this.state := state;
    }

    method WinGame()
      modifies this`userPoints, this`totalCount, this`winCount
      ensures userPoints == (old(userPoints) + 10) % WORD
      ensures totalCount == (old(totalCount) + 1) % WORD && winCount == (old(winCount) + 1) % WORD
    {
      userPoints := (userPoints + 10) % WORD;
      totalCount := (totalCount + 1) % WORD;
      winCount := (winCount + 1) % WORD;
    }

    /** Unsigned: below five points this wraps around to the top. */
    method LoseGame()
      modifies this`userPoints, this`totalCount
      ensures userPoints == (old(userPoints) - 5) % WORD
      ensures totalCount == (old(totalCount) + 1) % WORD
    {
      userPoints := (userPoints - 5) % WORD;
      totalCount := (totalCount + 1) % WORD;
    }
  }

  /** The record of a user after a game it won, after one it lost, and after one that was not its own. */
  twostate predicate Won(u: UserInfo)
    reads u
  {
    && u.userPoints == (old(u.userPoints) + 10) % 0x1_0000_0000
    && u.totalCount == (old(u.totalCount) + 1) % 0x1_0000_0000
    && u.winCount == (old(u.winCount) + 1) % 0x1_0000_0000
  }

  twostate predicate Lost(u: UserInfo)
    reads u
  {
    && u.userPoints == (old(u.userPoints) - 5) % 0x1_0000_0000
    && u.totalCount == (old(u.totalCount) + 1) % 0x1_0000_0000
    && u.winCount == old(u.winCount)
  }

  twostate predicate Kept(u: UserInfo)
    reads u
  {
    u.userPoints == old(u.userPoints) && u.totalCount == old(u.totalCount) && u.winCount == old(u.winCount)
  }

  // ---------------------------------------------------------------- ids and connections

  /** The two maps are inverse to each other. */
  predicate Inverse(id2Conn: map<UserId, Conn>, conn2Id: map<Conn, UserId>) {
    && (forall id :: id in id2Conn ==> id2Conn[id] in conn2Id && conn2Id[id2Conn[id]] == id)
    && (forall c :: c in conn2Id ==> conn2Id[c] in id2Conn && id2Conn[conn2Id[c]] == c)
  }

  /** Overwriting an entry in each map keeps them inverse exactly when neither the id nor the connection
      belonged to another one: a second login leaves the entry of the first behind. */
  lemma AddKeepsInverseIff(id2Conn: map<UserId, Conn>, conn2Id: map<Conn, UserId>, id: UserId, c: Conn)
    requires Inverse(id2Conn, conn2Id)
    ensures Inverse(id2Conn[id := c], conn2Id[c := id]) <==>
              (id in id2Conn ==> id2Conn[id] == c) && (c in conn2Id ==> conn2Id[c] == id)
  {
    var m, n := id2Conn[id := c], conn2Id[c := id];
    if id in id2Conn && id2Conn[id] != c {
      var stale := id2Conn[id];
      assert stale in n && n[stale] == id && m[id] != stale;
    } else if c in conn2Id && conn2Id[c] != id {
      var stale := conn2Id[c];
      assert stale in m && m[stale] == c && n[c] != stale;
    }
  }

  /** So it is a second login over another connection that makes them disagree: the first is not forgotten. */
  lemma SecondLoginDiverges(id: UserId, c: Conn, d: Conn)
    requires c != d
    ensures Inverse(map[], map[]) && Inverse(map[id := c], map[c := id])
    ensures !Inverse(map[id := c][id := d], map[c := id][d := id])
  {
    AddKeepsInverseIff(map[], map[], id, c);
    assert map[id := c] == map[][id := c] && map[c := id] == map[][c := id];
    AddKeepsInverseIff(map[id := c], map[c := id], id, d);
  }

  lemma RemoveKeepsInverse(id2Conn: map<UserId, Conn>, conn2Id: map<Conn, UserId>, id: UserId)
    requires Inverse(id2Conn, conn2Id) && id in id2Conn
    ensures Inverse(id2Conn - {id}, conn2Id - {id2Conn[id]})
  {
  }

  class UserManager {
    var id2Conn: map<UserId, Conn>
    var conn2Id: map<Conn, UserId>
    var id2User: map<UserId, UserInfo>

    ghost predicate Valid()
      reads this, id2User.Values
    {
      && id2Conn.Keys == id2User.Keys
      && (forall id :: id in id2User ==> id2User[id].userId == id && id2User[id].con == id2Conn[id])
    }

    /** The three maps tell the same story. */
    ghost predicate Agree()
      reads this, id2User.Values
    {
      Valid() && Inverse(id2Conn, conn2Id)
    }

    ghost function States(): map<UserId, UserState>
      reads this, id2User.Values
    {
      map id | id in id2User :: id2User[id].state
    }

    ghost function Points(): map<UserId, nat>
      reads this, id2User.Values
    {
      map id | id in id2User :: id2User[id].userPoints
    }

    constructor ()
      ensures Agree() && id2User == map[] && States() == map[] && Points() == map[]
    {
      id2Conn, conn2Id, id2User := map[], map[], map[];
    }

    method AddOnlineUser(user: UserInfo)
      requires Agree()
      modifies this
      ensures Valid() && id2User == old(id2User)[user.userId := user]
      ensures id2Conn == old(id2Conn)[user.userId := user.con] && conn2Id == old(conn2Id)[user.con := user.userId]
      ensures States() == old(States())[user.userId := user.state]
      ensures Points() == old(Points())[user.userId := user.userPoints]
      ensures Agree() <==> && (user.userId in old(id2Conn) ==> old(id2Conn)[user.userId] == user.con)
                           && (user.con in old(conn2Id) ==> old(conn2Id)[user.con] == user.userId)
    {
      hide Inverse;
      AddKeepsInverseIff(id2Conn, conn2Id, user.userId, user.con);
      id2Conn := id2Conn[user.userId := user.con];
      conn2Id := conn2Id[user.con := user.userId];
      id2User := id2User[user.userId := user];
    }

    /** The source reads the connection out of the entry it has just erased; it is meant to read it before. */
    method RemoveOnlineUser(userId: UserId)
      requires Valid()
      modifies this
      ensures Valid() && (old(Agree()) ==> Agree())
      ensures id2User == old(id2User) - {userId} && id2Conn == old(id2Conn) - {userId}
      ensures conn2Id == if userId in old(id2Conn) then old(conn2Id) - {old(id2Conn)[userId]} else old(conn2Id)
      ensures States() == old(States()) - {userId} && Points() == old(Points()) - {userId}
    {
      hide Inverse;
      if userId in id2Conn {
        if Inverse(id2Conn, conn2Id) {
          RemoveKeepsInverse(id2Conn, conn2Id, userId);
        }
        var conn := id2Conn[userId];
        id2Conn := id2Conn - {userId};
        conn2Id := conn2Id - {conn};
        id2User := id2User - {userId};
      }
    }

    method GetUserByUserId(userId: UserId) returns (user: UserInfo?)
      ensures user == null <==> userId !in States()
      ensures user != null ==> userId in id2User && user == id2User[userId]
      ensures user != null && Agree() ==> user.userId == userId && user.con in conn2Id && conn2Id[user.con] == userId
    {
      user := if userId in id2User then id2User[userId] else null;
    }

    method GetConnByUserId(userId: UserId) returns (conn: Conn, found: bool)
      requires Agree()
      ensures found <==> userId in id2User
      ensures found ==> conn == id2User[userId].con
    {
      found := userId in id2Conn;
      conn := if found then id2Conn[userId] else 0;
    }

    /** A user is found by a connection exactly when it is that user's own. */
    method GetUserByConn(conn: Conn) returns (user: UserInfo?)
      requires Agree()
      ensures user == null <==> conn !in conn2Id
      ensures user != null ==> user.con == conn && user.userId in id2User && id2User[user.userId] == user
      ensures forall id :: id in id2User && id2User[id].con == conn ==> user == id2User[id]
    {
      if conn !in conn2Id {
        return null;
      }
      var id := conn2Id[conn];
      if id !in id2User {
        return null;
      }
      user := id2User[id];
    }

    /** 0 stands for nobody. */
    method GetUserIdByConn(conn: Conn) returns (userId: UserId)
      requires Agree()
      ensures conn in conn2Id ==> userId in id2User && id2User[userId].con == conn
      ensures conn !in conn2Id ==> userId == 0
    {
      userId := if conn in conn2Id then conn2Id[conn] else 0;
    }

    /** What setting the state of one user does to all of them. */
    twostate lemma StateSet(userId: UserId)
      requires unchanged(this) && userId in id2User && old(Agree())
      requires forall u :: u in id2User.Values ==>
                 u.userPoints == old(u.userPoints) && (u == id2User[userId] || u.state == old(u.state))
      ensures States() == old(States())[userId := id2User[userId].state] && Points() == old(Points())
      ensures Agree()
    {
      hide Inverse;
    }

    lemma OwnConn(conns: UserId -> Conn)
      requires Agree()
      requires forall i, j :: conns(i) == conns(j) ==> i == j
      requires forall id :: id in id2Conn ==> id2Conn[id] == conns(id)
      ensures forall id :: conns(id) in conn2Id ==> conn2Id[conns(id)] == id
    {
    }

    lemma UserIds()
      requires Agree()
      ensures forall id :: id in id2User ==> id2User[id].userId == id && id2User[id] in id2User.Values
    {
    }

    lemma KnownUsers()
      ensures States().Keys == Points().Keys == id2User.Keys
    {
    }

    lemma StateOf(userId: UserId)
      requires userId in id2User
      ensures id2User[userId] in id2User.Values
      ensures userId in States() && States()[userId] == id2User[userId].state
      ensures userId in Points() && Points()[userId] == id2User[userId].userPoints
    {
    }

    method SetUserState(userId: UserId, state: UserState)
      requires Agree()
      modifies id2User.Values
      ensures Agree()
      ensures Points() == old(Points())
      ensures States() == if userId in id2User then old(States())[userId := state] else old(States())
    {
      if userId !in id2User {
        return;
      }
      id2User[userId].SetState(state);
    }

    method WinGame(userId: UserId)
      requires Agree()
      modifies id2User.Values
      ensures Agree()
      ensures Points() == Gain(old(Points()), userId, 10) && States() == old(States())
      ensures userId in id2User ==> Won(id2User[userId])
      ensures forall u :: u in id2User && u != userId ==> Kept(id2User[u])
    {
      if userId !in id2User {
        return;
      }
      id2User[userId].WinGame();
    }

    method LoseGame(userId: UserId)
      requires Agree()
      modifies id2User.Values
      ensures Agree()
      ensures Points() == Gain(old(Points()), userId, -5) && States() == old(States())
      ensures userId in id2User ==> Lost(id2User[userId])
      ensures forall u :: u in id2User && u != userId ==> Kept(id2User[u])
    {
      if userId !in id2User {
        return;
      }
      id2User[userId].LoseGame();
    }
  }
}
