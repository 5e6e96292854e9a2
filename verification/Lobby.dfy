/** Players between logging in and playing: their states, the three match queues and the rooms, as values. */
module Lobby {

  const WORD: nat := 0x1_0000_0000 // points are 32-bit

  type UserId = nat
  type RoomId = nat

  datatype UserState = Offline | Online | Matching | Gaming

  /** The players of a room and how many of them have not left it yet. */
  datatype Room = Room(white: UserId, black: UserId, count: nat)

  datatype Lobby = Lobby(
    states: map<UserId, UserState>,
    points: map<UserId, nat>,
    pools: seq<seq<UserId>>,      // one queue for each bracket of points
    roomOf: map<UserId, RoomId>,
    rooms: map<RoomId, Room>,
    nextRoom: RoomId,
    since: map<UserId, nat>,      // when a user last joined a queue, counted in joins
    joined: nat, cancelled: nat, created: nat)

  datatype Op =
    | Login(id: UserId, points: nat)
    | Logout(id: UserId)
    | Join(id: UserId)
    | Cancel(id: UserId)
    | MatchPass
    | Leave(id: UserId)
    | Score(winner: UserId)

  function Start(): Lobby {
    Lobby(map[], map[], [[], [], []], map[], map[], 1, map[], 0, 0, 0)
  }

  /** 0 to 1999 points, 2000 to 3999, and 4000 or more. */
  function Bracket(points: nat): (b: nat)
    ensures b < 3
  {
    if points < 2000 then 0 else if points < 4000 then 1 else 2
  }

  /** `std::list::remove`: all occurrences go. */
  function Without(q: seq<UserId>, id: UserId): seq<UserId> {
    if q == [] then [] else (if q[0] == id then [] else [q[0]]) + Without(q[1..], id)
  }

  predicate Shaped(l: Lobby) {
    && |l.pools| == 3
    && l.points.Keys == l.states.Keys
    && (forall u :: u in l.roomOf ==> l.roomOf[u] in l.rooms && l.rooms[l.roomOf[u]].count > 0)
  }

  // ---------------------------------------------------------------- the operations

  /** A fresh user record, replacing one of the same id if there is one. */
  function LoginStep(l: Lobby, id: UserId, points: nat): Lobby {
    l.(states := l.states[id := Online], points := l.points[id := points])
  }

  function LogoutStep(l: Lobby, id: UserId): Lobby {
    l.(states := l.states - {id}, points := l.points - {id})
  }

  function JoinStep(l: Lobby, id: UserId): Lobby
    requires Shaped(l) && id in l.states
  {
    if !l.states[id].Online? then l else
      var b := Bracket(l.points[id]);
      l.(pools := l.pools[b := l.pools[b] + [id]], states := l.states[id := Matching],
         since := l.since[id := l.joined], joined := l.joined + 1)
  }

  function CancelStep(l: Lobby, id: UserId): Lobby
    requires Shaped(l) && id in l.states
  {
    if !l.states[id].Matching? then l else
      var b := Bracket(l.points[id]);
      l.(pools := l.pools[b := Without(l.pools[b], id)], states := l.states[id := Online], cancelled := l.cancelled + 1)
  }

  /** A room for two players. */
  function RoomStep(l: Lobby, u: UserId, v: UserId): Lobby {
    l.(roomOf := l.roomOf[u := l.nextRoom][v := l.nextRoom],
       rooms := l.rooms[l.nextRoom := Room(u, v, 2)],
       nextRoom := l.nextRoom + 1)
  }

  /** One bracket of a matching pass: the first two of the queue, if there are two, get a room. */
  function MatchStep(l: Lobby, b: nat): Lobby
    requires |l.pools| == 3 && b < 3
  {
    if |l.pools[b]| < 2 then l else
      var u, v := l.pools[b][0], l.pools[b][1];
      RoomStep(l, u, v).(pools := l.pools[b := l.pools[b][2..]], states := l.states[u := Gaming][v := Gaming],
                         created := l.created + 1)
  }

  function MatchAll(l: Lobby): Lobby
    requires |l.pools| == 3
  {
    MatchStep(MatchStep(MatchStep(l, 0), 1), 2)
  }

  function LeaveStep(l: Lobby, id: UserId): Lobby
    requires Shaped(l)
  {
    if id !in l.roomOf then l else
      var r := l.roomOf[id];
      var room := l.rooms[r].(count := l.rooms[r].count - 1);
      l.(roomOf := l.roomOf - {id},
         rooms := if room.count == 0 then l.rooms - {r} else l.rooms[r := room],
         states := if id in l.states then l.states[id := Online] else l.states)
  }

  function OtherId(room: Room, id: UserId): UserId {
    if id == room.white then room.black else room.white
  }

  function Opponent(l: Lobby, id: UserId): UserId
    requires Shaped(l) && id in l.roomOf
  {
    OtherId(l.rooms[l.roomOf[id]], id)
  }

  function Gain(points: map<UserId, nat>, id: UserId, gain: int): map<UserId, nat> {
    if id in points then points[id := (points[id] + gain) % WORD] else points
  }

  /** A player wins: ten points for the winner, five less for the other one, if they are logged in. */
  function ScoreStep(l: Lobby, id: UserId): Lobby
    requires Shaped(l)
  {
    if id !in l.roomOf then l else l.(points := Gain(Gain(l.points, id, 10), Opponent(l, id), -5))
  }

  // ---------------------------------------------------------------- the invariant

  /** The players that `roomOf` sends to room `r`. */
  function Members(roomOf: map<UserId, RoomId>, r: RoomId): set<UserId> {
    set u | u in roomOf && roomOf[u] == r
  }

  /** The queue holds nobody twice, in the order of joining. */
  ghost predicate InOrder(q: seq<UserId>, since: map<UserId, nat>) {
    && (forall id :: id in q ==> id in since)
    && (forall i, j :: 0 <= i < j < |q| ==> since[q[i]] < since[q[j]])
  }

  /** A user may wait in queue `b`. */
  ghost predicate Waits(l: Lobby, b: nat, id: UserId) {
    && id in l.states && l.states[id].Matching?
    && id in l.points && Bracket(l.points[id]) == b
    && id in l.since && l.since[id] < l.joined
  }

  ghost predicate QueueSound(l: Lobby, b: nat) {
    b < |l.pools| && InOrder(l.pools[b], l.since) && forall id :: id in l.pools[b] ==> Waits(l, b, id)
  }

  /** Whoever is MATCHING is in the queue of its bracket. */
  ghost predicate AllWait(l: Lobby) {
    forall id :: id in l.states && l.states[id].Matching? ==>
      id in l.points && |l.pools| == 3 && id in l.pools[Bracket(l.points[id])]
  }

  /** A user waits at most once, only in the queue of its bracket, exactly while MATCHING; queues are in order of
      joining. */
  ghost predicate QueuesSound(l: Lobby) {
    |l.pools| == 3 && QueueSound(l, 0) && QueueSound(l, 1) && QueueSound(l, 2) && AllWait(l)
  }

  ghost predicate RoomSound(l: Lobby, r: RoomId) {
    && r in l.rooms && r < l.nextRoom
    && l.rooms[r].count == |Members(l.roomOf, r)| > 0
    && Members(l.roomOf, r) <= {l.rooms[r].white, l.rooms[r].black}
    && l.rooms[r].white != l.rooms[r].black
  }

  /** A room is registered exactly while someone is in it, and its count is the number of its players. */
  ghost predicate RoomsSound(l: Lobby) {
    && (forall u :: u in l.roomOf ==> l.roomOf[u] in l.rooms)
    && (forall r :: r in l.rooms ==> RoomSound(l, r))
  }

  ghost predicate PlayersPlay(l: Lobby) {
    forall u :: u in l.roomOf <==> u in l.states && l.states[u].Gaming?
  }

  /** Nobody who joined is lost: joins are the users waiting, those who cancelled and two for each room made. */
  ghost predicate Conserved(l: Lobby) {
    && |l.pools| == 3
    && l.joined == |l.pools[0]| + |l.pools[1]| + |l.pools[2]| + l.cancelled + 2 * l.created
    && l.nextRoom == l.created + 1
  }

  ghost predicate Invariant(l: Lobby) {
    Shaped(l) && QueuesSound(l) && RoomsSound(l) && PlayersPlay(l) && Conserved(l)
  }

  // ---------------------------------------------------------------- the queues

  lemma {:induction false} WithoutMembers(q: seq<UserId>, id: UserId)
    ensures forall u :: u in Without(q, id) <==> u in q && u != id
  {
    if q != [] {
      WithoutMembers(q[1..], id);
      assert q == [q[0]] + q[1..];
    }
  }

  lemma InOrderRest(q: seq<UserId>, since: map<UserId, nat>)
    requires q != [] && InOrder(q, since)
    ensures InOrder(q[1..], since) && q[0] !in q[1..]
    ensures forall u :: u in q[1..] ==> u in since && since[q[0]] < since[u]
  {
    assert forall i :: 0 <= i < |q[1..]| ==> q[1..][i] == q[i + 1];
  }

  /** Taking a user out keeps the order, and takes exactly one entry. */
  lemma {:induction false} WithoutFacts(q: seq<UserId>, id: UserId, since: map<UserId, nat>)
    requires InOrder(q, since)
    ensures InOrder(Without(q, id), since)
    ensures forall u :: u in Without(q, id) <==> u in q && u != id
    ensures |Without(q, id)| == |q| - if id in q then 1 else 0
  {
    WithoutMembers(q, id);
    if q != [] {
      InOrderRest(q, since);
      WithoutFacts(q[1..], id, since);
      var w := Without(q[1..], id);
      assert q == [q[0]] + q[1..];
      if q[0] == id {
        assert Without(q, id) == w;
      } else {
        assert Without(q, id) == [q[0]] + w;
        InOrderFront(q[0], w, since);
      }
    }
  }

  lemma InOrderFront(u: UserId, q: seq<UserId>, since: map<UserId, nat>)
    requires InOrder(q, since) && u in since && forall w :: w in q ==> since[u] < since[w]
    ensures InOrder([u] + q, since)
  {
    assert forall i :: 0 <= i < |q| ==> q[i] in q;
  }

  lemma NotQueued(l: Lobby, b: nat, id: UserId)
    requires QueueSound(l, b) && !Waits(l, b, id)
    ensures id !in l.pools[b]
  {
  }

  /** A queue is as good as before when nothing about its members changes. */
  lemma QueueUntouched(l: Lobby, l': Lobby, b: nat)
    requires QueueSound(l, b) && b < |l'.pools| && l'.pools[b] == l.pools[b] && l.joined <= l'.joined
    requires forall id :: id in l.pools[b] ==>
               && id in l'.states && l'.states[id] == l.states[id]
               && id in l'.points && Bracket(l'.points[id]) == Bracket(l.points[id])
               && id in l'.since && l'.since[id] == l.since[id]
    ensures QueueSound(l', b)
  {
    hide Bracket;
    assert forall i :: 0 <= i < |l.pools[b]| ==> l.pools[b][i] in l.pools[b];
    forall id | id in l'.pools[b] ensures Waits(l', b, id) { assert Waits(l, b, id); }
  }

  lemma JoinKeepsQueues(l: Lobby, id: UserId)
    requires Shaped(l) && QueuesSound(l) && id in l.states && l.states[id].Online?
    ensures QueuesSound(JoinStep(l, id))
  {
    hide Bracket, InOrder, Waits;
    JoinKeepsQueue(l, id, 0);
    JoinKeepsQueue(l, id, 1);
    JoinKeepsQueue(l, id, 2);
    assert AllWait(JoinStep(l, id));
  }

  lemma JoinKeepsQueue(l: Lobby, id: UserId, c: nat)
    requires Shaped(l) && QueueSound(l, c) && id in l.states && l.states[id].Online?
    ensures QueueSound(JoinStep(l, id), c)
  {
    hide Bracket;
    var l', b := JoinStep(l, id), Bracket(l.points[id]);
    NotQueued(l, c, id);
    if c != b {
      QueueUntouched(l, l', c);
    } else {
      assert forall i :: 0 <= i < |l.pools[b]| ==> l.pools[b][i] in l.pools[b];
      forall u | u in l'.pools[b] ensures Waits(l', b, u) {
        assert u == id || Waits(l, b, u);
      }
      forall i | 0 <= i < |l.pools[b]| ensures l.since[l.pools[b][i]] < l.joined {
        assert Waits(l, b, l.pools[b][i]);
      }
    }
  }

  lemma CancelKeepsQueues(l: Lobby, id: UserId)
    requires Shaped(l) && QueuesSound(l) && id in l.states && l.states[id].Matching?
    ensures QueuesSound(CancelStep(l, id))
    ensures var b := Bracket(l.points[id]); |CancelStep(l, id).pools[b]| == |l.pools[b]| - 1
  {
    var l' := CancelStep(l, id);
    var b := Bracket(l.points[id]);
    assert QueueSound(l, b) && id in l.pools[b];
    WithoutFacts(l.pools[b], id, l.since);
    hide Bracket, Shaped, Without, InOrder;
    forall c | c in {0, 1, 2} ensures QueueSound(l', c) {
      assert QueueSound(l, c);
      if c != b {
        NotQueued(l, c, id);
        QueueUntouched(l, l', c);
      } else {
        forall u | u in l'.pools[b] ensures Waits(l', b, u) { assert Waits(l, b, u); }
      }
    }
    assert AllWait(l');
  }

  lemma InOrderTail(q: seq<UserId>, since: map<UserId, nat>)
    requires |q| >= 2 && InOrder(q, since)
    ensures InOrder(q[2..], since)
    ensures q[0] != q[1] && q[0] in q && q[1] in q && q[0] !in q[2..] && q[1] !in q[2..]
    ensures forall u :: u in q <==> u == q[0] || u == q[1] || u in q[2..]
  {
    assert q == [q[0], q[1]] + q[2..];
    forall u | u in q[2..] ensures u != q[0] && u != q[1] {
      var i :| 2 <= i < |q| && q[i] == u;
    }
  }

  lemma MatchKeepsQueues(l: Lobby, b: nat)
    requires QueuesSound(l) && b < 3
    ensures QueuesSound(MatchStep(l, b))
  {
    if |l.pools[b]| >= 2 {
      var l' := MatchStep(l, b);
      var u, v := l.pools[b][0], l.pools[b][1];
      assert QueueSound(l, b);
      InOrderTail(l.pools[b], l.since);
      assert Waits(l, b, u) && Waits(l, b, v);
      hide Bracket, InOrder;
      forall c | c in {0, 1, 2} ensures QueueSound(l', c) {
        assert QueueSound(l, c);
        if c != b {
          NotQueued(l, c, u);
          NotQueued(l, c, v);
          QueueUntouched(l, l', c);
        } else {
          forall w | w in l'.pools[b] ensures Waits(l', b, w) { assert Waits(l, b, w); }
        }
      }
      assert AllWait(l');
    }
  }

  /** Whoever is not waiting can change state, unless it starts to wait, without harm to the queues. */
  lemma StateChangeKeepsQueues(l: Lobby, l': Lobby, id: UserId)
    requires QueuesSound(l) && l'.pools == l.pools && l'.since == l.since && l'.joined == l.joined
    requires id in l.states ==> !l.states[id].Matching?
    requires id in l'.states ==> !l'.states[id].Matching?
    requires l'.states - {id} == l.states - {id} && l'.points - {id} == l.points - {id}
    ensures QueuesSound(l')
  {
    hide Bracket, InOrder;
    forall u | u != id
      ensures u in l.states <==> u in l'.states
      ensures u in l.states ==> l.states[u] == l'.states[u]
      ensures u in l.points <==> u in l'.points
      ensures u in l.points ==> l.points[u] == l'.points[u]
    {
      assert u in l.states <==> u in l.states - {id};
      assert u in l'.states <==> u in l'.states - {id};
      assert u in l.points <==> u in l.points - {id};
      assert u in l'.points <==> u in l'.points - {id};
    }
    forall c | c in {0, 1, 2} ensures QueueSound(l', c) {
      assert QueueSound(l, c);
      forall u | u in l.pools[c] ensures u != id && Waits(l, c, u) { assert Waits(l, c, u); }
      QueueUntouched(l, l', c);
    }
    assert AllWait(l');
  }

  // ---------------------------------------------------------------- the rooms

  lemma MembersAfterRoom(l: Lobby, u: UserId, v: UserId, r: RoomId)
    requires RoomsSound(l) && u != v && u !in l.roomOf && v !in l.roomOf
    ensures Members(RoomStep(l, u, v).roomOf, r) == if r == l.nextRoom then {u, v} else Members(l.roomOf, r)
  {
    var m := RoomStep(l, u, v).roomOf;
    forall w | w in l.roomOf ensures l.roomOf[w] != l.nextRoom { assert RoomSound(l, l.roomOf[w]); }
    assert forall w :: w in Members(m, r) <==> if r == l.nextRoom then w in {u, v} else w in Members(l.roomOf, r);
  }

  lemma NextRoomIsNew(l: Lobby)
    requires RoomsSound(l)
    ensures l.nextRoom !in l.rooms
  {
  }

  /** A new room for two players who are in none. */
  lemma RoomKeepsRooms(l: Lobby, u: UserId, v: UserId)
    requires RoomsSound(l) && u != v && u !in l.roomOf && v !in l.roomOf
    ensures RoomsSound(RoomStep(l, u, v)) && l.nextRoom !in l.rooms
  {
    var l' := RoomStep(l, u, v);
    NextRoomIsNew(l);
    forall r | r in l'.rooms ensures RoomSound(l', r) {
      assert r != l.nextRoom ==> RoomSound(l, r);
      MembersAfterRoom(l, u, v, r);
      hide Members;
    }
  }

  lemma MembersAfterLeave(roomOf: map<UserId, RoomId>, id: UserId, r: RoomId)
    requires id in roomOf
    ensures Members(roomOf - {id}, r) == Members(roomOf, r) - {id}
    ensures |Members(roomOf - {id}, r)| == |Members(roomOf, r)| - if roomOf[id] == r then 1 else 0
  {
    assert id in Members(roomOf, r) <==> roomOf[id] == r;
    assert Members(roomOf - {id}, r) == Members(roomOf, r) - {id};
  }

  lemma LeaveKeepsRooms(l: Lobby, id: UserId)
    requires Shaped(l) && RoomsSound(l)
    ensures RoomsSound(LeaveStep(l, id))
  {
    if id in l.roomOf {
      var l' := LeaveStep(l, id);
      forall r | r in l'.rooms ensures RoomSound(l', r) {
        assert RoomSound(l, r);
        MembersAfterLeave(l.roomOf, id, r);
        hide Members;
      }
      forall u | u in l'.roomOf ensures l'.roomOf[u] in l'.rooms {
        var r := l.roomOf[u];
        assert RoomSound(l, r);
        MembersAfterLeave(l.roomOf, id, r);
        assert u in Members(l'.roomOf, r);
      }
    }
  }

  lemma RoomsOnly(l: Lobby, l': Lobby)
    requires RoomsSound(l) && l'.roomOf == l.roomOf && l'.rooms == l.rooms && l'.nextRoom == l.nextRoom
    ensures RoomsSound(l')
  {
    hide Members;
    forall r | r in l'.rooms ensures RoomSound(l', r) { assert RoomSound(l, r); }
  }

  lemma RoomsShaped(l: Lobby)
    requires |l.pools| == 3 && l.points.Keys == l.states.Keys && RoomsSound(l)
    ensures Shaped(l)
  {
    forall u | u in l.roomOf ensures l.rooms[l.roomOf[u]].count > 0 { assert RoomSound(l, l.roomOf[u]); }
  }

  // ---------------------------------------------------------------- every operation keeps the invariant

  lemma JoinKeeps(l: Lobby, id: UserId)
    requires Invariant(l) && id in l.states
    ensures Invariant(JoinStep(l, id))
  {
    if l.states[id].Online? {
      JoinKeepsQueues(l, id);
      RoomsOnly(l, JoinStep(l, id));
      hide QueuesSound, RoomsSound, Bracket;
      RoomsShaped(JoinStep(l, id));
    }
  }

  lemma CancelKeeps(l: Lobby, id: UserId)
    requires Invariant(l) && id in l.states
    ensures Invariant(CancelStep(l, id))
  {
    if l.states[id].Matching? {
      CancelKeepsQueues(l, id);
      RoomsOnly(l, CancelStep(l, id));
      hide QueuesSound, RoomsSound, Bracket, Without;
      RoomsShaped(CancelStep(l, id));
    }
  }

  lemma MatchKeeps(l: Lobby, b: nat)
    requires Invariant(l) && b < 3
    ensures Invariant(MatchStep(l, b))
  {
    if |l.pools[b]| >= 2 {
      hide QueuesSound, RoomsSound, PlayersPlay, Shaped;
      FrontOfQueue(l, b);
      MatchKeepsQueues(l, b);
      MatchKeepsRooms(l, b);
    }
  }

  lemma MatchKeepsRooms(l: Lobby, b: nat)
    requires Shaped(l) && RoomsSound(l) && PlayersPlay(l) && b < 3 && |l.pools[b]| >= 2
    requires var u, v := l.pools[b][0], l.pools[b][1];
             u != v && u in l.states && v in l.states && u !in l.roomOf && v !in l.roomOf
    ensures var l' := MatchStep(l, b); Shaped(l') && RoomsSound(l') && PlayersPlay(l')
  {
    hide RoomsSound;
    var l' := MatchStep(l, b);
    var u, v := l.pools[b][0], l.pools[b][1];
    RoomKeepsRooms(l, u, v);
    RoomsOnly(RoomStep(l, u, v), l');
    assert l'.states.Keys == l.states.Keys + {u, v} == l.states.Keys;
    RoomsShaped(l');
    assert PlayersPlay(l');
  }

  lemma FrontOfQueue(l: Lobby, b: nat)
    requires Invariant(l) && b < 3 && |l.pools[b]| >= 2
    ensures var u, v := l.pools[b][0], l.pools[b][1];
            && u != v && u in l.states && v in l.states && l.states[u].Matching? && l.states[v].Matching?
            && u !in l.roomOf && v !in l.roomOf
  {
    assert QueueSound(l, b);
    InOrderTail(l.pools[b], l.since);
    hide RoomsSound, Bracket, Shaped, Conserved;
    assert Waits(l, b, l.pools[b][0]) && Waits(l, b, l.pools[b][1]);
  }

  /** A match pairs two different users, the two of one bracket who have waited longest, and puts both in one new
      room; they wait no more. */
  lemma MatchPairsLongestWaiting(l: Lobby, b: nat)
    requires Invariant(l) && b < 3 && |l.pools[b]| >= 2
    ensures var u, v, l' := l.pools[b][0], l.pools[b][1], MatchStep(l, b);
            && u != v && Waits(l, b, u) && Waits(l, b, v) && u !in l.roomOf && v !in l.roomOf
            && l.since[u] < l.since[v]
            && (forall w :: w in l.states && w != u && w != v && l.states[w].Matching? && Bracket(l.points[w]) == b ==>
                  w in l.since && l.since[v] < l.since[w])
            && l.nextRoom !in l.rooms && l'.rooms == l.rooms[l.nextRoom := Room(u, v, 2)]
            && Members(l'.roomOf, l.nextRoom) == {u, v}
            && (forall c :: 0 <= c < 3 ==> u !in l'.pools[c] && v !in l'.pools[c])
  {
    var q := l.pools[b];
    var u, v := q[0], q[1];
    assert QueueSound(l, b);
    InOrderTail(q, l.since);
    assert Waits(l, b, u) && Waits(l, b, v);
    assert u !in l.roomOf && v !in l.roomOf;
    RoomKeepsRooms(l, u, v);
    MembersAfterRoom(l, u, v, l.nextRoom);
    hide RoomsSound, Members, Bracket, Shaped;
    forall w | w in l.states && w != u && w != v && l.states[w].Matching? && Bracket(l.points[w]) == b
      ensures w in l.since && l.since[v] < l.since[w]
    {
      var i :| 2 <= i < |q| && q[i] == w;
    }
    forall c | 0 <= c < 3 && c != b ensures u !in l.pools[c] && v !in l.pools[c] {
      assert QueueSound(l, c);
      NotQueued(l, c, u);
      NotQueued(l, c, v);
    }
  }

  lemma MatchAllKeeps(l: Lobby)
    requires Invariant(l)
    ensures Invariant(MatchAll(l))
  {
    MatchKeeps(l, 0);
    MatchKeeps(MatchStep(l, 0), 1);
    MatchKeeps(MatchStep(MatchStep(l, 0), 1), 2);
    hide QueuesSound, RoomsSound, MatchStep, PlayersPlay, Conserved, Shaped;
  }

  lemma LeaveKeeps(l: Lobby, id: UserId)
    requires Invariant(l)
    ensures Invariant(LeaveStep(l, id))
  {
    if id in l.roomOf {
      var l' := LeaveStep(l, id);
      assert l.states[id].Gaming?;
      StateChangeKeepsQueues(l, l', id);
      LeaveKeepsRooms(l, id);
      hide QueuesSound, RoomsSound;
      RoomsShaped(l');
    }
  }

  /** Logging in: harmless exactly when the id is not already waiting or playing under an earlier login. */
  lemma LoginKeepsIff(l: Lobby, id: UserId, points: nat)
    requires Invariant(l)
    ensures Invariant(LoginStep(l, id, points)) <==>
              (id in l.states ==> !l.states[id].Matching? && !l.states[id].Gaming?)
  {
    var l' := LoginStep(l, id, points);
    if id in l.states && l.states[id].Matching? {
      var b := Bracket(l.points[id]);
      assert id in l'.pools[b] && !Waits(l', b, id);
      assert !QueueSound(l', b);
    } else if id in l.states && l.states[id].Gaming? {
      assert id in l'.roomOf && !PlayersPlay(l');
    } else {
      StateChangeKeepsQueues(l, l', id);
      RoomsOnly(l, l');
      hide QueuesSound, RoomsSound;
      RoomsShaped(l');
    }
  }

  /** Logging out, or losing the connection: harmless exactly when the user is neither waiting nor playing. */
  lemma LogoutKeepsIff(l: Lobby, id: UserId)
    requires Invariant(l)
    ensures Invariant(LogoutStep(l, id)) <==> (id in l.states ==> !l.states[id].Matching? && !l.states[id].Gaming?)
  {
    var l' := LogoutStep(l, id);
    if id in l.states && l.states[id].Matching? {
      var b := Bracket(l.points[id]);
      assert id in l'.pools[b] && !Waits(l', b, id);
      assert !QueueSound(l', b);
    } else if id in l.states && l.states[id].Gaming? {
      assert id in l'.roomOf && !PlayersPlay(l');
    } else {
      StateChangeKeepsQueues(l, l', id);
      RoomsOnly(l, l');
      hide QueuesSound, RoomsSound;
      RoomsShaped(l');
    }
  }

  /** A win moves the opponent to another bracket while it waits in the queue of its old one. */
  ghost predicate ScoreMovesWaiter(l: Lobby, id: UserId)
    requires Shaped(l)
  {
    && id in l.roomOf
    && var v := Opponent(l, id);
       && v in l.states && l.states[v].Matching?
       && Bracket(l.points[v]) != Bracket((l.points[v] - 5) % WORD)
  }

  /** A win is harmless exactly unless the opponent has left the room, waits again, and changes bracket by it. */
  lemma ScoreKeepsIff(l: Lobby, id: UserId)
    requires Invariant(l)
    ensures Invariant(ScoreStep(l, id)) <==> !ScoreMovesWaiter(l, id)
  {
    if id in l.roomOf {
      var l' := ScoreStep(l, id);
      var v := Opponent(l, id);
      assert l.states[id].Gaming?;
      if ScoreMovesWaiter(l, id) {
        var b := Bracket(l.points[v]);
        assert v in l'.pools[b] && !Waits(l', b, v);
        assert !QueueSound(l', b);
      } else {
        ScoreKeepsQueues(l, id);
        RoomsOnly(l, l');
        hide QueuesSound, RoomsSound, Bracket;
        RoomsShaped(l');
      }
    }
  }

  lemma ScoreKeepsQueues(l: Lobby, id: UserId)
    requires Shaped(l) && QueuesSound(l) && id in l.roomOf && id in l.states && l.states[id].Gaming?
    requires !ScoreMovesWaiter(l, id)
    ensures QueuesSound(ScoreStep(l, id))
  {
    var l' := ScoreStep(l, id);
    hide Bracket, InOrder;
    forall u | u in l.states && l.states[u].Matching?
      ensures u in l'.points && Bracket(l'.points[u]) == Bracket(l.points[u])
    {
    }
    forall c | c in {0, 1, 2} ensures QueueSound(l', c) {
      assert QueueSound(l, c);
      forall u | u in l.pools[c] ensures Waits(l, c, u) {}
      QueueUntouched(l, l', c);
    }
    assert AllWait(l');
  }

  /** What a win pays: ten points for the winner, five less for the other player of the room if it is logged in, in
      32 bits, and nothing for anybody else; and it changes nothing but points. */
  lemma WinPays(l: Lobby, id: UserId)
    requires Invariant(l)
    ensures id !in l.roomOf ==> ScoreStep(l, id) == l
    ensures id in l.roomOf ==>
              && l.roomOf[id] in l.rooms && id in l.points
              && var room, l' := l.rooms[l.roomOf[id]], ScoreStep(l, id);
                 var loser := if id == room.white then room.black else room.white;
                 && loser != id && l' == l.(points := l'.points) && l'.points.Keys == l.points.Keys
                 && l'.points[id] == (l.points[id] + 10) % 0x1_0000_0000
                 && (loser in l.points ==> var p: int := l.points[loser]; l'.points[loser] == (p - 5) % 0x1_0000_0000)
                 && forall u :: u in l.points && u != id && u != loser ==> l'.points[u] == l.points[u]
  {
    if id in l.roomOf {
      assert RoomSound(l, l.roomOf[id]) && id in Members(l.roomOf, l.roomOf[id]);
      assert id in l.states;
    }
    hide QueuesSound;
  }

  /** What each request does to the user it is about; nobody else's state, points or room changes. */
  lemma RequestEffect(l: Lobby, id: UserId, points: nat)
    requires Invariant(l)
    ensures LoginStep(l, id, points) == l.(states := l.states[id := Online], points := l.points[id := points])
    ensures id !in LogoutStep(l, id).states && id !in LogoutStep(l, id).points
    ensures LogoutStep(l, id).(states := l.states, points := l.points) == l
    ensures forall u :: u != id ==>
              var l' := LogoutStep(l, id);
              && (u in l'.states <==> u in l.states) && (u in l'.points <==> u in l.points)
              && (u in l.states ==> l'.states[u] == l.states[u]) && (u in l.points ==> l'.points[u] == l.points[u])
    ensures id in l.states ==>
              && id in l.points
              && var b := if l.points[id] < 2000 then 0 else if l.points[id] < 4000 then 1 else 2;
                 var j, c := JoinStep(l, id), CancelStep(l, id);
                 && j.points == c.points == l.points && j.roomOf == c.roomOf == l.roomOf
                 && j.rooms == c.rooms == l.rooms
                 && (if l.states[id] == Online
                     then j.states == l.states[id := Matching] && j.pools == l.pools[b := l.pools[b] + [id]]
                     else j == l)
                 && (if l.states[id] == Matching
                     then c.states == l.states[id := Online] && (forall q :: q in c.pools ==> id !in q)
                     else c == l)
    ensures id in l.roomOf ==>
              var l' := LeaveStep(l, id);
              && l'.states == l.states[id := Online] && id !in l'.roomOf && l'.points == l.points && l'.pools == l.pools
              && forall u :: u != id ==>
                   (u in l'.roomOf <==> u in l.roomOf) && (u in l.roomOf ==> l'.roomOf[u] == l.roomOf[u])
    ensures id !in l.roomOf ==> LeaveStep(l, id) == l
  {
    if id in l.states && l.states[id] == Matching {
      CancelTakesOut(l, id);
    }
    hide RoomsSound, Without, InOrder;
  }

  lemma CancelTakesOut(l: Lobby, id: UserId)
    requires Invariant(l) && id in l.states && l.states[id].Matching?
    ensures forall q :: q in CancelStep(l, id).pools ==> id !in q
  {
    var b, l' := Bracket(l.points[id]), CancelStep(l, id);
    WithoutMembers(l.pools[b], id);
    forall c | c in {0, 1, 2} ensures id !in l'.pools[c] {
      assert QueueSound(l, c);
      if c != b {
        NotQueued(l, c, id);
      }
    }
    hide Without, InOrder, RoomsSound;
    forall q | q in l'.pools ensures id !in q {
      var c :| 0 <= c < |l'.pools| && l'.pools[c] == q;
    }
  }

  /** What a result does to the bracket of a player: a loss moves it exactly within five points above a threshold, and
      below five points, where the 32-bit number wraps around to the top; a win exactly within ten below one, and at the
      very top. */
  lemma ScoringMovesBracketIff(points: nat)
    requires points < WORD
    ensures Bracket((points - 5) % WORD) != Bracket(points) <==>
              points < 5 || 2000 <= points < 2005 || 4000 <= points < 4005
    ensures (points - 5) % WORD > points <==> points < 5
    ensures Bracket((points + 10) % WORD) != Bracket(points)
       <==> 1990 <= points < 2000 || 3990 <= points < 4000 || points >= WORD - 10
  {
  }

  /** The opponent's opponent is the player, exactly for the two players of the room. */
  lemma OtherIdRoundTripIff(room: Room, id: UserId)
    requires room.white != room.black
    ensures OtherId(room, OtherId(room, id)) == id <==> id in {room.white, room.black}
    ensures id in {room.white, room.black} ==> OtherId(room, id) != id
  {
  }

  // ---------------------------------------------------------------- runs

  /** Users who join or cancel are logged in; nobody logs in twice or drops out while waiting or playing; no win
      moves a waiting user to another bracket. */
  predicate Safe(l: Lobby, op: Op)
    requires Shaped(l)
  {
    match op
    case Login(id, _) => id in l.states ==> !l.states[id].Matching? && !l.states[id].Gaming?
    case Logout(id) => id in l.states ==> !l.states[id].Matching? && !l.states[id].Gaming?
    case Join(id) => id in l.states
    case Cancel(id) => id in l.states
    case MatchPass => true
    case Leave(_) => true
    case Score(id) =>
      id in l.roomOf ==>
        var v := Opponent(l, id);
        v in l.states && l.states[v].Matching? ==> Bracket(l.points[v]) == Bracket((l.points[v] - 5) % WORD)
  }

  function Step(l: Lobby, op: Op): Lobby
    requires Shaped(l) && Safe(l, op)
  {
    match op
    case Login(id, points) => LoginStep(l, id, points)
    case Logout(id) => LogoutStep(l, id)
    case Join(id) => JoinStep(l, id)
    case Cancel(id) => CancelStep(l, id)
    case MatchPass => MatchAll(l)
    case Leave(id) => LeaveStep(l, id)
    case Score(id) => ScoreStep(l, id)
  }

  ghost predicate Legal(l: Lobby, ops: seq<Op>)
    decreases |ops|
  {
    Shaped(l) && (ops == [] || (Safe(l, ops[0]) && Legal(Step(l, ops[0]), ops[1..])))
  }

  ghost function Run(l: Lobby, ops: seq<Op>): Lobby
    requires Legal(l, ops)
    decreases |ops|
  {
    if ops == [] then l else Run(Step(l, ops[0]), ops[1..])
  }

  lemma StepKeepsInvariant(l: Lobby, op: Op)
    requires Invariant(l) && Safe(l, op)
    ensures Invariant(Step(l, op))
  {
    match op
    case Login(id, points) => LoginKeepsIff(l, id, points);
    case Logout(id) => LogoutKeepsIff(l, id);
    case Join(id) => JoinKeeps(l, id);
    case Cancel(id) => CancelKeeps(l, id);
    case MatchPass => MatchAllKeeps(l);
    case Leave(id) => LeaveKeeps(l, id);
    case Score(id) => ScoreKeepsIff(l, id);
  }

  lemma StartIsSound()
    ensures Invariant(Start())
  {
  }

  /** At every point of every run: queues, rooms, states and counts agree. */
  lemma {:induction false} RunKeepsInvariant(l: Lobby, ops: seq<Op>)
    requires Invariant(l) && Legal(l, ops)
    ensures Invariant(Run(l, ops))
    decreases |ops|
  {
    hide Invariant, Step, Safe;
    if ops != [] {
      StepKeepsInvariant(l, ops[0]);
      RunKeepsInvariant(Step(l, ops[0]), ops[1..]);
    }
  }

  // ---------------------------------------------------------------- room ids

  lemma RoomIdsAfterMatch(l: Lobby, b: nat)
    requires |l.pools| == 3 && b < 3
    ensures MatchStep(l, b).nextRoom >= l.nextRoom
    ensures forall r :: r < l.nextRoom ==> (r in MatchStep(l, b).rooms <==> r in l.rooms)
    ensures forall r :: r < l.nextRoom && r in l.rooms ==> MatchStep(l, b).rooms[r] == l.rooms[r]
  {
  }

  lemma RoomIdsAfterStep(l: Lobby, op: Op, r: RoomId)
    requires Shaped(l) && Safe(l, op) && r < l.nextRoom
    ensures r < Step(l, op).nextRoom
    ensures r in Step(l, op).rooms ==> r in l.rooms
    ensures r in Step(l, op).rooms ==> var room, room' := l.rooms[r], Step(l, op).rooms[r];
                                       && room'.white == room.white && room'.black == room.black
                                       && room'.count <= room.count
  {
    if op.MatchPass? {
      RoomIdsAfterMatch(l, 0);
      RoomIdsAfterMatch(MatchStep(l, 0), 1);
      RoomIdsAfterMatch(MatchStep(MatchStep(l, 0), 1), 2);
      hide MatchStep;
    }
  }

  /** A room id never comes back: a room that is gone stays gone, and one that is there is still for the same two
      players, with no more of them than before. */
  lemma {:induction false} RoomIdsAreNotReused(l: Lobby, ops: seq<Op>, r: RoomId)
    requires Legal(l, ops) && r < l.nextRoom
    ensures r in Run(l, ops).rooms ==> r in l.rooms
    ensures r in Run(l, ops).rooms ==> var room, room' := l.rooms[r], Run(l, ops).rooms[r];
                                       && room'.white == room.white && room'.black == room.black
                                       && room'.count <= room.count
    decreases |ops|
  {
    hide Step, Safe;
    if ops != [] {
      RoomIdsAfterStep(l, ops[0], r);
      RoomIdsAreNotReused(Step(l, ops[0]), ops[1..], r);
    }
  }

  // ---------------------------------------------------------------- no overtaking

  /** The user still waits since its join number `s`. */
  ghost predicate WaitsSince(l: Lobby, id: UserId, s: nat) {
    id in l.states && l.states[id].Matching? && id in l.since && l.since[id] == s
  }

  /** Two users wait in one queue, `u` from the earlier join. */
  ghost predicate Ahead(l: Lobby, u: UserId, v: UserId, su: nat, sv: nat) {
    && su < sv < l.joined && WaitsSince(l, u, su) && WaitsSince(l, v, sv)
    && u in l.points && v in l.points && Bracket(l.points[u]) == Bracket(l.points[v])
  }

  lemma MatchOvertakesNobody(l: Lobby, b: nat, u: UserId, v: UserId, su: nat, sv: nat)
    requires Invariant(l) && b < 3
    ensures Ahead(l, u, v, su, sv) && WaitsSince(MatchStep(l, b), u, su) ==> Ahead(MatchStep(l, b), u, v, su, sv)
    ensures !WaitsSince(l, u, su) ==> !WaitsSince(MatchStep(l, b), u, su)
  {
    if |l.pools[b]| >= 2 {
      MatchPairsLongestWaiting(l, b);
      hide QueuesSound, RoomsSound, Bracket, Members, PlayersPlay, Conserved, Shaped;
    }
  }

  lemma StepOvertakesNobody(l: Lobby, op: Op, u: UserId, v: UserId, su: nat, sv: nat)
    requires Invariant(l) && Safe(l, op) && op != Cancel(v) && Ahead(l, u, v, su, sv)
    ensures WaitsSince(Step(l, op), u, su) ==> Ahead(Step(l, op), u, v, su, sv)
  {
    hide Bracket, Without, QueuesSound, RoomsSound, Conserved, MatchStep;
    match op {
      case MatchPass => MatchAllOvertakesNobody(l, u, v, su, sv);
      case Leave(id) =>
        assert id in l.roomOf ==> l.states[id].Gaming?;
      case Score(id) =>
        assert id in l.roomOf ==> l.states[id].Gaming?;
      case _ =>
    }
  }

  lemma MatchAllOvertakesNobody(l: Lobby, u: UserId, v: UserId, su: nat, sv: nat)
    requires Invariant(l) && Ahead(l, u, v, su, sv)
    ensures WaitsSince(MatchAll(l), u, su) ==> Ahead(MatchAll(l), u, v, su, sv)
  {
    MatchKeeps(l, 0);
    MatchKeeps(MatchStep(l, 0), 1);
    MatchOvertakesNobody(l, 0, u, v, su, sv);
    MatchOvertakesNobody(MatchStep(l, 0), 1, u, v, su, sv);
    MatchOvertakesNobody(MatchStep(MatchStep(l, 0), 1), 2, u, v, su, sv);
    hide Invariant, MatchStep, Ahead, WaitsSince;
  }

  lemma StampIsGone(l: Lobby, op: Op, u: UserId, s: nat)
    requires Invariant(l) && Safe(l, op) && s < l.joined && !WaitsSince(l, u, s)
    ensures !WaitsSince(Step(l, op), u, s) && s < Step(l, op).joined
  {
    hide Bracket, Without, Invariant, MatchStep, OtherId;
    if op.MatchPass? {
      StampIsGoneByMatching(l, u, s);
    }
  }

  lemma StampIsGoneByMatching(l: Lobby, u: UserId, s: nat)
    requires Invariant(l) && s < l.joined && !WaitsSince(l, u, s)
    ensures !WaitsSince(MatchAll(l), u, s) && s < MatchAll(l).joined
  {
    MatchKeeps(l, 0);
    MatchKeeps(MatchStep(l, 0), 1);
    MatchOvertakesNobody(l, 0, u, u, s, s);
    MatchOvertakesNobody(MatchStep(l, 0), 1, u, u, s, s);
    MatchOvertakesNobody(MatchStep(MatchStep(l, 0), 1), 2, u, u, s, s);
    hide Invariant, Ahead, WaitsSince;
  }

  lemma {:induction false} StampStaysGone(l: Lobby, ops: seq<Op>, u: UserId, s: nat)
    requires Invariant(l) && Legal(l, ops) && s < l.joined && !WaitsSince(l, u, s)
    ensures !WaitsSince(Run(l, ops), u, s)
    decreases |ops|
  {
    hide Invariant, Step, Safe, WaitsSince;
    if ops != [] {
      StampIsGone(l, ops[0], u, s);
      StepKeepsInvariant(l, ops[0]);
      StampStaysGone(Step(l, ops[0]), ops[1..], u, s);
    }
  }

  /** Over any run: while an earlier user of a bracket still waits, no later one who does not cancel is matched. */
  lemma {:induction false} NobodyIsOvertaken(l: Lobby, ops: seq<Op>, u: UserId, v: UserId, su: nat, sv: nat)
    requires Invariant(l) && Legal(l, ops) && Cancel(v) !in ops && Ahead(l, u, v, su, sv)
    ensures WaitsSince(Run(l, ops), u, su) ==> WaitsSince(Run(l, ops), v, sv)
    decreases |ops|
  {
    if ops != [] {
      var l' := Step(l, ops[0]);
      hide Invariant, Step, Safe, WaitsSince;
      StepOvertakesNobody(l, ops[0], u, v, su, sv);
      StepKeepsInvariant(l, ops[0]);
      if WaitsSince(l', u, su) {
        NobodyIsOvertaken(l', ops[1..], u, v, su, sv);
      } else {
        JoinsGrow(l, ops[0]);
        StampStaysGone(l', ops[1..], u, su);
      }
    }
  }

  lemma JoinsGrow(l: Lobby, op: Op)
    requires Shaped(l) && Safe(l, op)
    ensures l.joined <= Step(l, op).joined
  {
  }

  // ---------------------------------------------------------------- passes until nobody can be paired

  /** The matching thread passes over the brackets again and again while it holds the lock. */
  function Passes(l: Lobby, k: nat): Lobby
    requires |l.pools| == 3
    decreases k
  {
    if k == 0 then l else Passes(MatchAll(l), k - 1)
  }

  /** No queue holds two: the thread waits. */
  predicate Settled(l: Lobby) {
    forall b :: 0 <= b < |l.pools| ==> |l.pools[b]| < 2
  }

  /** The longest queue decides. */
  function PassesNeeded(l: Lobby): nat
    requires |l.pools| == 3
  {
    Max(|l.pools[0]| / 2, Max(|l.pools[1]| / 2, |l.pools[2]| / 2))
  }

  function Max(a: nat, b: nat): nat { if a < b then b else a }

  function Min(a: nat, b: nat): nat { if a < b then a else b }

  /** The two users play each other in a room made since room `first`. */
  predicate Together(l: Lobby, u: UserId, v: UserId, first: RoomId) {
    && u != v && u in l.states && v in l.states && l.states[u].Gaming? && l.states[v].Gaming?
    && u in l.roomOf && v in l.roomOf && l.roomOf[u] == l.roomOf[v] >= first
    && l.roomOf[u] in l.rooms && l.rooms[l.roomOf[u]] == Room(u, v, 2)
  }

  /** The first `n` pairs of neighbours of the queue play each other. */
  ghost predicate PairsPlay(l: Lobby, q: seq<UserId>, n: nat, first: RoomId) {
    2 * n <= |q| && forall i :: 0 <= i < n ==> Together(l, q[2 * i], q[2 * i + 1], first)
  }

  ghost predicate StayTogether(l: Lobby, l': Lobby) {
    forall u, v, first :: Together(l, u, v, first) ==> Together(l', u, v, first)
  }

  lemma MatchPutsTogether(l: Lobby, b: nat)
    requires Invariant(l) && b < 3
    ensures var l' := MatchStep(l, b);
            && Invariant(l') && l'.nextRoom >= l.nextRoom && StayTogether(l, l')
            && l'.pools == (if |l.pools[b]| < 2 then l.pools else l.pools[b := l.pools[b][2..]])
            && (|l.pools[b]| >= 2 ==> Together(l', l.pools[b][0], l.pools[b][1], l.nextRoom))
  {
    MatchKeeps(l, b);
    if |l.pools[b]| >= 2 {
      FrontMatches(l, b);
      NextRoomIsNew(l);
      hide Invariant, QueuesSound, RoomsSound, PlayersPlay, Conserved, Shaped;
    }
  }

  lemma FrontMatches(l: Lobby, b: nat)
    requires Invariant(l) && b < 3 && |l.pools[b]| >= 2
    ensures var u, v := l.pools[b][0], l.pools[b][1];
            u != v && u in l.states && v in l.states && l.states[u].Matching? && l.states[v].Matching?
  {
    assert QueueSound(l, b);
    InOrderTail(l.pools[b], l.since);
    assert Waits(l, b, l.pools[b][0]) && Waits(l, b, l.pools[b][1]);
  }

  ghost predicate FrontTaken(l: Lobby, l': Lobby, b: nat)
    requires b < |l.pools| && b < |l'.pools|
  {
    var q := l.pools[b];
    if |q| < 2 then l'.pools[b] == q
    else l'.pools[b] == q[2..] && Together(l', q[0], q[1], l.nextRoom)
  }

  lemma MatchTakesFront(l: Lobby, b: nat)
    requires Invariant(l) && b < 3
    ensures var l' := MatchStep(l, b);
            && Invariant(l') && |l.pools| == |l'.pools| == 3 && l'.nextRoom >= l.nextRoom && StayTogether(l, l')
            && FrontTaken(l, l', b) && forall c :: 0 <= c < 3 && c != b ==> l'.pools[c] == l.pools[c]
  {
    ThreeBrackets(l);
    MatchPutsTogether(l, b);
    hide Invariant, Together, MatchStep, StayTogether;
  }

  /** What is true of one bracket is not affected by the others. */
  lemma FrontStaysTaken(l0: Lobby, l1: Lobby, l2: Lobby, l3: Lobby, b: nat)
    requires |l0.pools| == |l1.pools| == |l2.pools| == |l3.pools| == 3 && b < 3
    requires l1.pools[b] == l0.pools[b] && FrontTaken(l1, l2, b) && l3.pools[b] == l2.pools[b]
    requires l0.nextRoom <= l1.nextRoom && StayTogether(l2, l3)
    ensures FrontTaken(l0, l3, b)
  {
    var q := l0.pools[b];
    assert |q| >= 2 ==> Together(l2, q[0], q[1], l1.nextRoom);
  }

  /** One pass takes the two in front of each queue that holds two, and puts them together. */
  lemma MatchAllPutsTogether(l: Lobby)
    requires Invariant(l)
    ensures var l' := MatchAll(l);
            && Invariant(l') && |l'.pools| == 3 && l'.nextRoom >= l.nextRoom && StayTogether(l, l')
            && FrontTaken(l, l', 0) && FrontTaken(l, l', 1) && FrontTaken(l, l', 2)
  {
    var l1 := MatchStep(l, 0);
    var l2 := MatchStep(l1, 1);
    var l3 := MatchStep(l2, 2);
    MatchTakesFront(l, 0);
    MatchTakesFront(l1, 1);
    MatchTakesFront(l2, 2);
    StayTransitive(l, l1, l2);
    StayTransitive(l1, l2, l3);
    StayTransitive(l, l1, l3);
    hide Invariant, Together, MatchStep, StayTogether, FrontTaken;
    FrontStaysTaken(l, l, l1, l3, 0);
    FrontStaysTaken(l, l1, l2, l3, 1);
    FrontStaysTaken(l, l2, l3, l3, 2);
  }

  lemma FrontOfEach(l: Lobby, b: nat)
    requires Invariant(l) && b < 3
    ensures var l' := MatchAll(l);
            Invariant(l') && |l'.pools| == 3 && l'.nextRoom >= l.nextRoom && FrontTaken(l, l', b)
  {
    hide Invariant, MatchAll, FrontTaken, StayTogether;
    MatchAllPutsTogether(l);
    assert b == 0 || b == 1 || b == 2;
  }

  lemma StayTransitive(l: Lobby, l': Lobby, l'': Lobby)
    ensures StayTogether(l, l) && StayTogether(l'', l'')
    ensures StayTogether(l, l') && StayTogether(l', l'') ==> StayTogether(l, l'')
  {
  }

  lemma {:induction false} TogetherStay(l: Lobby, k: nat)
    requires Invariant(l)
    ensures StayTogether(l, Passes(l, k))
    decreases k
  {
    ThreeBrackets(l);
    StayTransitive(l, l, l);
    if k > 0 {
      MatchAllPutsTogether(l);
      hide Invariant, Together, MatchAll, StayTogether, FrontTaken;
      TogetherStay(MatchAll(l), k - 1);
      StayTransitive(l, MatchAll(l), Passes(l, k));
    }
  }

  lemma ThreeBrackets(l: Lobby)
    requires Invariant(l)
    ensures |l.pools| == 3
  {
  }

  /** How many pairs of neighbours `k` passes can take from a queue. */
  function Pairs(q: seq<UserId>, k: nat): (n: nat)
    ensures 2 * n <= |q|
  {
    Min(k, |q| / 2)
  }

  function Unpaired(q: seq<UserId>, k: nat): seq<UserId> {
    q[2 * Pairs(q, k)..]
  }

  lemma PairByPair(q: seq<UserId>, k: nat)
    ensures Pairs(q, 0) == 0 && Unpaired(q, 0) == q
    ensures |q| < 2 ==> Pairs(q, k) == 0 && Unpaired(q, k) == q
    ensures |q| >= 2 ==> Pairs(q, k + 1) == 1 + Pairs(q[2..], k) && Unpaired(q, k + 1) == Unpaired(q[2..], k)
  {
  }

  /** What `k` passes from `l` to `l'` make of the queue of bracket `b`. */
  ghost predicate Paired(l: Lobby, l': Lobby, b: nat, k: nat)
    requires b < |l.pools| && b < |l'.pools|
  {
    PairsPlay(l', l.pools[b], Pairs(l.pools[b], k), l.nextRoom) && l'.pools[b] == Unpaired(l.pools[b], k)
  }

  lemma PairedOneMore(l: Lobby, l1: Lobby, l': Lobby, b: nat, k: nat)
    requires b < |l.pools| && b < |l1.pools| && b < |l'.pools| && l.nextRoom <= l1.nextRoom
    requires FrontTaken(l, l1, b) && StayTogether(l1, l') && Paired(l1, l', b, k)
    ensures Paired(l, l', b, k + 1)
  {
    var q := l.pools[b];
    PairByPair(q, k);
    PairByPair(q, k + 1);
    NoPairs(l', q, l.nextRoom);
    hide Together, StayTogether, PairsPlay, Pairs, Unpaired;
    if |q| >= 2 {
      OnePairMore(l1, l', q, l.nextRoom, l1.nextRoom, Pairs(q[2..], k));
    }
  }

  /** After `k` passes: of each queue the first `k` pairs of neighbours, or as many as there are, play each other, and
      the others wait in the order they had. */
  lemma {:induction false} NeighboursPlay(l: Lobby, k: nat, b: nat)
    requires Invariant(l) && b < 3
    ensures |l.pools| == 3 && Invariant(Passes(l, k)) && |Passes(l, k).pools| == 3 && Paired(l, Passes(l, k), b, k)
    decreases k
  {
    hide Invariant, MatchAll, FrontTaken, StayTogether, Paired;
    ThreeBrackets(l);
    if k == 0 {
      NothingPaired(l, b);
    } else {
      var l1 := MatchAll(l);
      FrontOfEach(l, b);
      NeighboursPlay(l1, k - 1, b);
      TogetherStay(l1, k - 1);
      PairedOneMore(l, l1, Passes(l, k), b, k - 1);
    }
  }

  lemma NothingPaired(l: Lobby, b: nat)
    requires b < |l.pools|
    ensures Paired(l, l, b, 0)
  {
    PairByPair(l.pools[b], 0);
  }

  lemma NoPairs(l: Lobby, q: seq<UserId>, first: RoomId)
    ensures PairsPlay(l, q, 0, first)
  {
  }

  /** The pair in front and the pairs of the rest are the pairs of the queue. */
  lemma OnePairMore(l1: Lobby, l': Lobby, q: seq<UserId>, first: RoomId, second: RoomId, n: nat)
    requires StayTogether(l1, l') && first <= second && |q| >= 2
    requires Together(l1, q[0], q[1], first) && PairsPlay(l', q[2..], n, second)
    ensures PairsPlay(l', q, n + 1, first)
  {
    forall i | 0 <= i < n + 1 ensures Together(l', q[2 * i], q[2 * i + 1], first) {
      if i > 0 {
        assert Together(l', q[2..][2 * (i - 1)], q[2..][2 * (i - 1) + 1], second);
        assert q[2..][2 * (i - 1)] == q[2 * i] && q[2..][2 * (i - 1) + 1] == q[2 * i + 1];
      } else {
        assert Together(l', q[0], q[1], first);
      }
    }
  }

  lemma ShortAfterExactly(l: Lobby, k: nat, b: nat)
    requires Invariant(l) && b < 3
    ensures |l.pools| == |Passes(l, k).pools| == 3 && (|Passes(l, k).pools[b]| < 2 <==> k >= |l.pools[b]| / 2)
  {
    hide Invariant, Passes, Together;
    ThreeBrackets(l);
    NeighboursPlay(l, k, b);
  }

  /** The thread waits again after exactly as many passes as the longest queue has pairs, and not before. */
  lemma SettledAfterExactly(l: Lobby, k: nat)
    requires Invariant(l)
    ensures |l.pools| == |Passes(l, k).pools| == 3 && (Settled(Passes(l, k)) <==> k >= PassesNeeded(l))
  {
    hide Invariant, Passes;
    ShortAfterExactly(l, k, 0);
    ShortAfterExactly(l, k, 1);
    ShortAfterExactly(l, k, 2);
  }

  lemma {:induction false} OnePassMore(l: Lobby, k: nat)
    requires |l.pools| == 3
    ensures |Passes(l, k).pools| == 3 && Passes(l, k + 1) == MatchAll(Passes(l, k))
    decreases k
  {
    assert |MatchAll(l).pools| == 3;
    hide MatchAll;
    assert Passes(MatchAll(l), 0) == MatchAll(l);
    if k > 0 {
      OnePassMore(MatchAll(l), k - 1);
    }
  }

  // ---------------------------------------------------------------- what a late win does

  /** After such a win, cancelling looks in the wrong queue: the user goes ONLINE and stays queued. */
  lemma LateWinLeavesStaleEntry(l: Lobby, id: UserId)
    requires Invariant(l) && ScoreMovesWaiter(l, id)
    ensures var v := Opponent(l, id);
            var l' := CancelStep(ScoreStep(l, id), v);
            l'.states[v].Online? && v in l'.pools[Bracket(l.points[v])]
  {
    assert l.states[id].Gaming?;
  }

  ghost predicate Reachable(l: Lobby) {
    exists ops :: Legal(Start(), ops) && Run(Start(), ops) == l
  }

  lemma {:induction false} OneMore(l: Lobby, ops: seq<Op>, op: Op)
    requires Legal(l, ops) && Shaped(Run(l, ops)) && Safe(Run(l, ops), op) && Shaped(Step(Run(l, ops), op))
    ensures Legal(l, ops + [op]) && Run(l, ops + [op]) == Step(Run(l, ops), op)
    decreases |ops|
  {
    hide Step, Safe;
    if ops == [] {
      assert Run(l, ops) == l && ops + [op] == [op];
      assert Legal(Step(l, op), []) && Run(Step(l, op), []) == Step(l, op);
    } else {
      OneMore(Step(l, ops[0]), ops[1..], op);
      assert (ops + [op])[1..] == ops[1..] + [op];
    }
  }

  lemma ReachableStep(l: Lobby, op: Op)
    requires Reachable(l) && Shaped(l) && Safe(l, op) && Shaped(Step(l, op))
    ensures Reachable(Step(l, op))
  {
    hide Legal, Run, Step, Safe, Shaped;
    var ops :| Legal(Start(), ops) && Run(Start(), ops) == l;
    OneMore(Start(), ops, op);
  }

  lemma StartIsReachable()
    ensures Reachable(Start())
  {
    assert Legal(Start(), []) && Run(Start(), []) == Start();
  }

  lemma TwoQueueUp() returns (l: Lobby)
    ensures Reachable(l) && Shaped(l)
    ensures l == Lobby(map[1 := Matching, 2 := Matching], map[1 := 2000, 2 := 2000], [[], [1, 2], []], map[], map[], 1,
                       map[1 := 0, 2 := 1], 2, 0, 0)
  {
    StartIsReachable();
    hide Reachable, Legal, Run;
    l := Start();
    ReachableStep(l, Login(1, 2000));
    l := LoginStep(l, 1, 2000);
    ReachableStep(l, Login(2, 2000));
    l := LoginStep(l, 2, 2000);
    ReachableStep(l, Join(1));
    l := JoinStep(l, 1);
    assert l.pools[1] == [1] && l.pools[0] == [] && l.pools[2] == [];
    ReachableStep(l, Join(2));
    l := JoinStep(l, 2);
    assert l.pools[1] == [1, 2] && l.pools[0] == [] && l.pools[2] == [];
    assert l.pools == [[], [1, 2], []];
    assert l.states == map[1 := Matching, 2 := Matching];
    assert l.points == map[1 := 2000, 2 := 2000];
    assert l.since == map[1 := 0, 2 := 1];
  }

  /** So a player who waits can be lost: a dropped connection, or a second login, leaves a stale entry in the queue. */
  lemma LostWaiterIsReachable()
    ensures exists l ::
              && Reachable(l) && Invariant(l)
              && !Invariant(LogoutStep(l, 1)) && !Invariant(LoginStep(l, 1, 2000))
  {
    var l := TwoQueueUp();
    ReachableIsSound(l);
    LogoutKeepsIff(l, 1);
    LoginKeepsIff(l, 1, 2000);
    hide Invariant, Reachable;
  }

  lemma ReachableIsSound(l: Lobby)
    requires Reachable(l)
    ensures Invariant(l)
  {
    var ops :| Legal(Start(), ops) && Run(Start(), ops) == l;
    StartIsSound();
    RunKeepsInvariant(Start(), ops);
  }

  /** Two players with 2000 points queue up and are matched. */
  lemma TwoAreMatched() returns (l: Lobby)
    ensures Reachable(l) && Shaped(l)
    ensures l == Lobby(map[1 := Gaming, 2 := Gaming], map[1 := 2000, 2 := 2000], [[], [], []], map[1 := 1, 2 := 1],
                       map[1 := Room(1, 2, 2)], 2, map[1 := 0, 2 := 1], 2, 0, 1)
  {
    var q := TwoQueueUp();
    hide Reachable;
    l := MatchStep(q, 1);
    assert l.pools[1] == [];
    assert l.pools == [[], [], []];
    assert l.states == map[1 := Gaming, 2 := Gaming];
    assert l.roomOf == map[1 := 1, 2 := 1];
    assert MatchStep(q, 0) == q && MatchStep(l, 2) == l;
    ReachableStep(q, MatchPass);
  }

  /** Such a win is reachable: one of the two leaves and queues again, and then the other one would win. */
  lemma LateWinIsReachable()
    ensures exists l :: Reachable(l) && Shaped(l) && ScoreMovesWaiter(l, 1)
  {
    var l := TwoAreMatched();
    hide Reachable;
    ReachableStep(l, Leave(2));
    l := LeaveStep(l, 2);
    ReachableStep(l, Join(2));
    l := JoinStep(l, 2);
    assert Opponent(l, 1) == 2;
    assert ScoreMovesWaiter(l, 1);
  }
}
