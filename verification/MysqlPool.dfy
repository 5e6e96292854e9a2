/** The connection pool: a FIFO of idle connections, shared by users, one producer and one scanner under a mutex. */
module MysqlPool {

  const TICKS_PER_UNIT: nat := 1000 // the scanner compares against maxIdleTime * 1000

  class MysqlConnection {
    var aliveTime: nat // when it last became idle

    constructor (now: nat)
      ensures aliveTime == now
    {
      aliveTime := now;
    }

    method RefreshAliveTime(now: nat)
      modifies this
      ensures aliveTime == now
    {
      aliveTime := now;
    }

    function GetAliveTime(now: nat): int
      reads this
    {
      now - aliveTime
    }
  }

  // ---------------------------------------------------------------- the scan, on the idle starts of the queue

  predicate Ordered(starts: seq<nat>) {
    forall i, j :: 0 <= i < j < |starts| ==> starts[i] <= starts[j]
  }

  predicate Expired(start: nat, now: nat, limit: nat) {
    now - start >= limit
  }

  /** The scanner reads the clock anew for each connection it looks at; the readings do not go back. */
  ghost predicate Monotone(at: nat -> nat) {
    forall i, j :: i <= j ==> at(i) <= at(j)
  }

  /** How many connections a scan drops: from the front, at most the surplus, while the front one has expired.
      `n` readings were made before. */
  function Dropped(starts: seq<nat>, surplus: nat, at: nat -> nat, n: nat, limit: nat): (k: nat)
    ensures k <= surplus && k <= |starts|
    ensures forall i :: 0 <= i < k ==> Expired(starts[i], at(n + i), limit)
    ensures k < surplus && k < |starts| ==> !Expired(starts[k], at(n + k), limit)
  {
    if surplus == 0 || starts == [] || !Expired(starts[0], at(n), limit) then 0
    else 1 + Dropped(starts[1..], surplus - 1, at, n + 1, limit)
  }

  function ExpiredCount(starts: seq<nat>, now: nat, limit: nat): nat {
    if starts == [] then 0
    else (if Expired(starts[0], now, limit) then 1 else 0) + ExpiredCount(starts[1..], now, limit)
  }

  function Min(a: nat, b: nat): nat { if a < b then a else b }

  lemma {:induction false} CountGrows(starts: seq<nat>, now: nat, later: nat, limit: nat)
    requires now <= later
    ensures ExpiredCount(starts, now, limit) <= ExpiredCount(starts, later, limit)
  {
    if starts != [] {
      CountGrows(starts[1..], now, later, limit);
    }
  }

  lemma {:induction false} FreshFrontMeansNoneExpired(starts: seq<nat>, now: nat, limit: nat)
    requires Ordered(starts) && starts != [] && !Expired(starts[0], now, limit)
    ensures ExpiredCount(starts, now, limit) == 0
    ensures forall s :: s in starts ==> !Expired(s, now, limit)
  {
    if |starts| > 1 {
      FreshFrontMeansNoneExpired(starts[1..], now, limit);
    }
  }

  lemma {:induction false} CountPrefix(starts: seq<nat>, k: nat, now: nat, limit: nat)
    requires k <= |starts| && forall i :: 0 <= i < k ==> Expired(starts[i], now, limit)
    ensures k <= ExpiredCount(starts, now, limit)
  {
    if k > 0 {
      CountPrefix(starts[1..], k - 1, now, limit);
    }
  }

  /** All that had expired at the first reading goes, up to the surplus. */
  lemma {:induction false} ScanDropsExpired(starts: seq<nat>, surplus: nat, at: nat -> nat, n: nat, limit: nat)
    requires Ordered(starts) && Monotone(at)
    ensures Min(ExpiredCount(starts, at(n), limit), surplus) <= Dropped(starts, surplus, at, n, limit)
    decreases |starts|
  {
    if starts == [] {
    } else if !Expired(starts[0], at(n), limit) {
      FreshFrontMeansNoneExpired(starts, at(n), limit);
    } else if surplus > 0 {
      OrderedRest(starts, 1);
      assert at(n) <= at(n + 1);
      hide Ordered, Monotone, Expired;
      ScanDropsExpired(starts[1..], surplus - 1, at, n + 1, limit);
      CountGrows(starts[1..], at(n), at(n + 1), limit);
    }
  }

  lemma OrderedRest(starts: seq<nat>, k: nat)
    requires Ordered(starts) && k <= |starts|
    ensures Ordered(starts[k..])
  {
  }

  /** On an ordered queue stopping at the first fresh connection misses nothing: short of the surplus, nothing is left
      that had expired when the clock was last read, and the scan drops at least all that had expired when it was
      first read, and no more than had expired when it was last read. */
  lemma ScanIsComplete(starts: seq<nat>, surplus: nat, at: nat -> nat, limit: nat)
    requires Ordered(starts) && Monotone(at)
    ensures var k := Dropped(starts, surplus, at, 0, limit);
            && Min(ExpiredCount(starts, at(0), limit), surplus) <= k <= Min(ExpiredCount(starts, at(k), limit), surplus)
            && (k < surplus ==> forall s :: s in starts[k..] ==> !Expired(s, at(k), limit))
  {
    var k := Dropped(starts, surplus, at, 0, limit);
    ScanDropsExpired(starts, surplus, at, 0, limit);
    OrderedRest(starts, k);
    forall i | 0 <= i < k ensures Expired(starts[i], at(k), limit) {
      assert Expired(starts[i], at(0 + i), limit) && at(i) <= at(k);
    }
    CountPrefix(starts, k, at(k), limit);
    if k < surplus && k < |starts| {
      assert !Expired(starts[k], at(0 + k), limit);
      FreshFrontMeansNoneExpired(starts[k..], at(k), limit);
    }
    hide Dropped, Ordered;
  }

  /** The scan of an arbitrary queue misses an expired connection exactly when, within the surplus, behind expired ones
      only, there is a fresh one in front of one that has already expired: the queue is out of order. */
  lemma ScanMissesIff(starts: seq<nat>, surplus: nat, at: nat -> nat, limit: nat)
    ensures var k := Dropped(starts, surplus, at, 0, limit);
            (k < surplus && exists j :: k <= j < |starts| && Expired(starts[j], at(k), limit))
            <==> exists i: nat, j: nat :: HidesExpired(starts, surplus, at, limit, i, j)
    ensures (exists i: nat, j: nat :: HidesExpired(starts, surplus, at, limit, i, j)) ==> !Ordered(starts)
  {
    var k := Dropped(starts, surplus, at, 0, limit);
    forall i: nat, j: nat | HidesExpired(starts, surplus, at, limit, i, j) ensures i == k && starts[j] < starts[i] {
    }
    if j: nat :| k < surplus && k <= j < |starts| && Expired(starts[j], at(k), limit) {
      assert !Expired(starts[k], at(0 + k), limit);
      forall h | 0 <= h < k ensures Expired(starts[h], at(h), limit) {
        assert Expired(starts[h], at(0 + h), limit);
      }
      assert HidesExpired(starts, surplus, at, limit, k, j);
    }
  }

  /** The scan comes to the fresh connection `i` while `j` behind it has expired. */
  predicate HidesExpired(starts: seq<nat>, surplus: nat, at: nat -> nat, limit: nat, i: nat, j: nat) {
    && i < j < |starts| && i < surplus
    && (forall h :: 0 <= h < i ==> Expired(starts[h], at(h), limit))
    && !Expired(starts[i], at(i), limit) && Expired(starts[j], at(i), limit)
  }

  /** All queued connections are dropped exactly when each has expired by the time it is looked at and none is needed
      to keep the initial size. */
  lemma {:induction false} DropsAllIff(starts: seq<nat>, surplus: nat, at: nat -> nat, n: nat, limit: nat)
    ensures Dropped(starts, surplus, at, n, limit) == |starts|
       <==> |starts| <= surplus && forall i :: 0 <= i < |starts| ==> Expired(starts[i], at(n + i), limit)
  {
    var k := Dropped(starts, surplus, at, n, limit);
    if k < |starts| && k < surplus {
      assert !Expired(starts[k], at(n + k), limit);
    }
  }

  ghost function Starts(q: seq<MysqlConnection>): (s: seq<nat>)
    reads q
    ensures |s| == |q| && forall i :: 0 <= i < |q| ==> s[i] == q[i].aliveTime
  {
    seq(|q|, i requires 0 <= i < |q| reads q => q[i].aliveTime)
  }

  /** Nobody is queued twice or leased as well, and the queue is in the order in which its connections became idle. */
  ghost predicate QueueSound(q: seq<MysqlConnection>, leased: set<MysqlConnection>, clock: nat)
    reads q
  {
    && (forall c :: c in q ==> c !in leased && c.aliveTime <= clock)
    && (forall i, j :: 0 <= i < j < |q| ==> q[i] != q[j])
    && Ordered(Starts(q))
  }

  /** Each connection has expired by the time the scan would come to it. */
  ghost predicate AllExpireInTurn(q: seq<MysqlConnection>, at: nat -> nat, limit: nat)
    reads q
  {
    forall i :: 0 <= i < |q| ==> at(i) - q[i].aliveTime >= limit
  }

  /** None had been idle for so long. */
  ghost predicate NoneExpired(q: seq<MysqlConnection>, now: nat, limit: nat)
    reads q
  {
    forall c :: c in q ==> now - c.aliveTime < limit
  }

  lemma SoundTail(q: seq<MysqlConnection>, leased: set<MysqlConnection>, clock: nat, k: nat, now: nat)
    requires QueueSound(q, leased, clock) && k <= |q| && clock <= now
    ensures QueueSound(q[k..], leased, now)
  {
    hide Ordered;
    OrderedTail(q, k);
    assert forall c :: c in q[k..] ==> c in q;
  }

  function Max(a: nat, b: nat): nat { if a < b then b else a }

  class MysqlConnectionPool {
    const initSize: nat
    const maxSize: nat
    const maxIdleTime: nat
    var connectionQue: seq<MysqlConnection>
    var connectionCnt: nat
    ghost var leased: set<MysqlConnection>
    ghost var clock: nat // the latest time anyone has read

    ghost predicate Valid()
      reads this, connectionQue
    {
      // every connection is counted once, either queued or leased
      && connectionCnt == |connectionQue| + |leased|
      && QueueSound(connectionQue, leased, clock)
      && initSize <= connectionCnt <= Max(initSize, maxSize)
    }

    /** Builds the initial connections, the k-th one at time `times[k]`. */
    constructor (initSize: nat, maxSize: nat, maxIdleTime: nat, times: seq<nat>)
      requires |times| == initSize && Ordered(times)
      ensures Valid() && leased == {} && connectionCnt == initSize
      ensures this.initSize == initSize && this.maxSize == maxSize && this.maxIdleTime == maxIdleTime
      ensures Starts(connectionQue) == times && forall c :: c in connectionQue ==> fresh(c)
      ensures clock == if times == [] then 0 else times[|times| - 1]
    {
      this.initSize, this.maxSize, this.maxIdleTime := initSize, maxSize, maxIdleTime;
      connectionQue, connectionCnt, leased := [], 0, {};
      clock := if times == [] then 0 else times[|times| - 1];
      new;
      var i := 0;
      while i < initSize
        invariant 0 <= i <= initSize && |connectionQue| == connectionCnt == i && leased == {}
        invariant clock == if times == [] then 0 else times[|times| - 1]
        invariant forall k :: 0 <= k < i ==> connectionQue[k].aliveTime == times[k]
        invariant forall c :: c in connectionQue ==> fresh(c)
        invariant forall k, l :: 0 <= k < l < i ==> connectionQue[k] != connectionQue[l]
      {
        var p := new MysqlConnection(times[i]);
        connectionQue := connectionQue + [p];
        connectionCnt := connectionCnt + 1;
        i := i + 1;
      }
      assert Starts(connectionQue) == times;
      forall c | c in connectionQue ensures c.aliveTime <= clock {
        var k :| 0 <= k < |connectionQue| && connectionQue[k] == c;
        assert k < |times| - 1 ==> times[k] <= times[|times| - 1];
      }
    }

    /** After the wait: nothing if the queue is (still) empty, else the connection that has been idle longest. */
    method GetMysqlConnection() returns (c: MysqlConnection?)
      requires Valid()
      modifies this`connectionQue, this`leased
      ensures Valid()
      ensures c == null <==> old(connectionQue) == []
      ensures c == null ==> connectionQue == old(connectionQue) && leased == old(leased)
      ensures c != null ==>
                old(connectionQue) == [c] + connectionQue && leased == old(leased) + {c} && c !in old(leased)
    {
      if connectionQue == [] {
        return null;
      }
      hide Ordered;
      OrderedTail(connectionQue, 1);
      c := connectionQue[0];
      leased := leased + {c};
      connectionQue := connectionQue[1..];
    }

    /** The deleter of a lease: back to the end of the queue, idle from now on. */
    method GiveBack(c: MysqlConnection, now: nat)
      requires Valid() && c in leased && clock <= now
      modifies this`connectionQue, this`leased, this`clock, c
      ensures Valid() && clock == now
      ensures connectionQue == old(connectionQue) + [c] && leased == old(leased) - {c}
      ensures c.aliveTime == now
    {
      c.RefreshAliveTime(now);
      leased := leased - {c};
      connectionQue := connectionQue + [c];
      clock := now;
    }

    /** One round of the producer: with an empty queue it adds a connection, up to the maximum. */
    method ProduceConnection(now: nat)
      requires Valid() && clock <= now
      modifies this`connectionQue, this`connectionCnt, this`clock
      ensures Valid() && clock == now && leased == old(leased)
      ensures if old(connectionQue) == [] && old(connectionCnt) < maxSize
              then |connectionQue| == 1 && fresh(connectionQue[0]) && connectionQue[0].aliveTime == now
              else connectionQue == old(connectionQue)
    {
      clock := now;
      if connectionQue != [] {
        return;
      }
      if connectionCnt < maxSize {
        var p := new MysqlConnection(now);
        connectionQue := connectionQue + [p];
        connectionCnt := connectionCnt + 1;
      }
    }

    /** One scan; `at` are the readings of the clock, one for each connection looked at. The source reads the front of
        the queue without asking whether there is one; `defined` says that it never did so on an empty queue. That goes
        wrong exactly when more than the initial number of connections is leased and every queued one has expired by
        the time it is looked at. Otherwise the scan ends at the initial size or with nothing in the queue that had
        expired at the last reading. */
    method ScanConnections(at: nat -> nat) returns (defined: bool, ghost k: nat)
      requires Valid() && clock <= at(0) && Monotone(at)
      modifies this`connectionQue, this`connectionCnt, this`clock
      ensures Valid() && leased == old(leased)
      ensures var q, limit := old(connectionQue), maxIdleTime * 1000;
              && k == old(Dropped(Starts(connectionQue), connectionCnt - initSize, at, 0, limit))
              && k <= |q| && connectionQue == q[k..]
              && clock == (if k < |q| && connectionCnt > initSize then at(k)
                           else if k > 0 then at(k - 1) else old(clock))
              && k <= old(connectionCnt) - initSize && connectionCnt == old(connectionCnt) - k
              && old(AllExpireInTurn(connectionQue[..k], at, limit))
              && (defined <==> !(|leased| > initSize && old(AllExpireInTurn(connectionQue, at, limit))))
              && (connectionCnt > initSize ==> NoneExpired(connectionQue, at(k), limit))
    {
      hide AllExpireInTurn, NoneExpired, Expired, Starts, Dropped, QueueSound, Monotone, Max;
      var limit := maxIdleTime * TICKS_PER_UNIT;
      k := Dropped(Starts(connectionQue), connectionCnt - initSize, at, 0, limit);
      ScanOutcome(connectionQue, connectionCnt - initSize, leased, clock, at, limit);
      LastReading(at, clock, k);
      ghost var now := if k < |connectionQue| && k < connectionCnt - initSize then at(k)
                       else if k > 0 then at(k - 1) else clock;
      SoundTail(connectionQue, leased, clock, k, now);
      ghost var dropped;
      defined, dropped := DropExpired(at, limit);
      clock := now;
    }

    /** The loop of the scan: how many connections it drops, and whether it stopped before reading a front that is not
        there. */
    method DropExpired(at: nat -> nat, limit: nat) returns (defined: bool, ghost k: nat)
      requires initSize <= connectionCnt
      modifies this`connectionQue, this`connectionCnt
      ensures var q, surplus := old(connectionQue), old(connectionCnt) - initSize;
              && k == old(Dropped(Starts(connectionQue), connectionCnt - initSize, at, 0, limit))
              && connectionQue == q[k..] && connectionCnt == old(connectionCnt) - k
              && (!defined <==> k == |q| && k < surplus)
    {
      hide Expired, Starts, DroppedFrom, MysqlConnection.GetAliveTime;
      ghost var q0, surplus := connectionQue, connectionCnt - initSize;
      var n := 0;
      defined := true;
      FromTheStart(q0, surplus, at, limit);
      while connectionCnt > initSize
        invariant 0 <= n <= |q0| && n <= surplus
        invariant connectionQue == q0[n..] && connectionCnt == initSize + surplus - n && defined
        invariant DroppedFrom(q0, 0, surplus, at, limit) == n + DroppedFrom(q0, n, surplus, at, limit)
        decreases connectionCnt
      {
        OneRound(q0, n, surplus, at, limit);
        if connectionQue == [] {
          defined := false;
          break;
        }
        var p := connectionQue[0];
        if p.GetAliveTime(at(n)) >= limit {
          connectionQue := connectionQue[1..];
          connectionCnt := connectionCnt - 1;
          n := n + 1;
        } else {
          break;
        }
      }
      OneRound(q0, n, surplus, at, limit);
      k := n;
    }
  }

  lemma LastReading(at: nat -> nat, clock: nat, k: nat)
    requires Monotone(at) && clock <= at(0)
    ensures clock <= at(k) && (k > 0 ==> clock <= at(k - 1))
  {
  }

  /** Where a scan ends, on the connections themselves. */
  lemma ScanOutcome(q: seq<MysqlConnection>, surplus: nat, leased: set<MysqlConnection>, clock: nat, at: nat -> nat,
                    limit: nat)
    requires QueueSound(q, leased, clock) && Monotone(at)
    ensures var k := Dropped(Starts(q), surplus, at, 0, limit);
            && k <= |q|
            && (k == |q| && k < surplus <==> |q| < surplus && AllExpireInTurn(q, at, limit))
            && AllExpireInTurn(q[..k], at, limit)
            && (k < surplus ==> NoneExpired(q[k..], at(k), limit))
  {
    ScanIsComplete(Starts(q), surplus, at, limit);
    DropsAllIff(Starts(q), surplus, at, 0, limit);
    var k := Dropped(Starts(q), surplus, at, 0, limit);
    assert forall i :: 0 <= i < |q| ==> Starts(q)[i] == q[i].aliveTime && at(0 + i) == at(i);
    QueueOfStarts(q, k, at(k), limit);
    hide Dropped, Ordered, Expired;
  }

  /** How many more the scan drops after `n` rounds. */
  ghost function DroppedFrom(q: seq<MysqlConnection>, n: nat, surplus: nat, at: nat -> nat, limit: nat): nat
    reads q
    requires n <= |q| && n <= surplus
  {
    Dropped(Starts(q)[n..], surplus - n, at, n, limit)
  }

  lemma FromTheStart(q: seq<MysqlConnection>, surplus: nat, at: nat -> nat, limit: nat)
    ensures DroppedFrom(q, 0, surplus, at, limit) == Dropped(Starts(q), surplus, at, 0, limit)
  {
    assert Starts(q)[0..] == Starts(q);
  }

  /** One round of the scanning loop, if there is one. */
  lemma OneRound(q: seq<MysqlConnection>, n: nat, surplus: nat, at: nat -> nat, limit: nat)
    requires n <= |q| && n <= surplus
    ensures DroppedFrom(q, n, surplus, at, limit)
         == if n == |q| || n == surplus || q[n].GetAliveTime(at(n)) < limit then 0
            else 1 + DroppedFrom(q, n + 1, surplus, at, limit)
  {
    if n < |q| {
      assert Starts(q)[n..][1..] == Starts(q)[n + 1..];
    }
  }

  lemma OrderedTail(q: seq<MysqlConnection>, k: nat)
    requires k <= |q|
    ensures Starts(q[k..]) == Starts(q)[k..]
    ensures Ordered(Starts(q)) ==> Ordered(Starts(q[k..]))
  {
  }

  lemma QueueOfStarts(q: seq<MysqlConnection>, k: nat, now: nat, limit: nat)
    requires k <= |q|
    ensures Starts(q[k..]) == Starts(q)[k..]
    ensures (forall c :: c in q ==> Expired(c.aliveTime, now, limit)) <==>
              (forall s :: s in Starts(q) ==> Expired(s, now, limit))
    ensures (forall s :: s in Starts(q)[k..] ==> !Expired(s, now, limit)) ==>
              forall c :: c in q[k..] ==> !Expired(c.aliveTime, now, limit)
  {
    forall c | c in q ensures c.aliveTime in Starts(q) {
      var i :| 0 <= i < |q| && q[i] == c;
      assert Starts(q)[i] == c.aliveTime;
    }
    forall s | s in Starts(q) ensures exists c :: c in q && c.aliveTime == s {
      var i :| 0 <= i < |q| && Starts(q)[i] == s;
      assert q[i] in q;
    }
    forall c | c in q[k..] ensures c.aliveTime in Starts(q)[k..] {
      var i :| k <= i < |q| && q[i] == c;
      assert Starts(q)[k..][i - k] == c.aliveTime;
    }
  }

  /** The unguarded front is reachable: lease the only initial connection, let the producer add one, lease that,
      scan. */
  method ScanOfEmptyQueue(maxIdleTime: nat, at: nat -> nat) returns (defined: bool)
    requires Monotone(at)
    ensures !defined
  {
    hide MysqlConnectionPool.Valid;
    var pool := new MysqlConnectionPool(1, 2, maxIdleTime, [0]);
    assert |Starts(pool.connectionQue)| == 1;
    var first := pool.GetMysqlConnection();
    pool.ProduceConnection(0);
    var second := pool.GetMysqlConnection();
    assert |pool.leased| == 2;
    ghost var dropped;
    defined, dropped := pool.ScanConnections(at);
  }
}
