/** The server object, its connections with their channels and pollers, and the queues of its loops, changed step by
    step: each member, run by the thread it belongs to, is one step of the life cycle. */
module Servers {
  import opened ConnStates
  import opened Pollers
  import opened Lifecycle
  import Effects

  // ---------------------------------------------------------------- masks and kernel entries

  /** The masks that enabling and disabling can produce. */
  predicate Plain(m: Mask) {
    m == NONE_EVENT || m == READ_EVENT || m == WRITE_EVENT || m == READ_EVENT | WRITE_EVENT
  }

  lemma PlainMasks(m: Mask)
    requires Plain(m)
    ensures Plain(With(m, READ_EVENT)) && Plain(With(m, WRITE_EVENT)) && Plain(Without(m, WRITE_EVENT))
            && Plain(NONE_EVENT)
    ensures m == NONE_EVENT <==> !Reads(m) && !Writes(m)
  {
  }

  /** What the kernel watches the descriptor for; once the channel has left its loop the number may be another's. */
  ghost function WatchOf(c: Channel): Watch
    reads c.poller`kernel, c.poller`channels
  {
    var k := c.poller.kernel;
    if c in c.poller.channels && c.fd in k then Watched(Reads(k[c.fd]), Writes(k[c.fd])) else Unwatched
  }

  /** What an update of the channel does is what the life cycle says it does. */
  lemma UpdateAgrees(c: Conn, c': Conn, reading: bool, writing: bool)
    requires c.index in {K_NEW, K_ADDED, K_DELETED} && !c.refused && (c.watch.Watched? <==> c.index == K_ADDED)
    requires var present := reading || writing || c.index != K_ADDED;
             c' == c.(reading := reading, writing := writing, index := if present then K_ADDED else K_DELETED,
                      watch := if present then Watched(reading, writing) else Unwatched)
    ensures c' == Updated(c.(reading := reading, writing := writing))
  {
  }

  lemma RemovalAgrees(c: Conn, c': Conn)
    requires !c.refused && (c.watch.Watched? <==> c.index == K_ADDED)
    requires c' == c.(index := K_NEW, watch := Unwatched)
    ensures c' == Removed(c)
  {
  }

  // ---------------------------------------------------------------- one connection

  class Connection {
    const id: ConnId
    const loop: LoopId
    const channel: Channel
    var state: ConnState
    var enableInactiveRelease: bool
    var timer: Timer             // the entry of this id in the wheel of its loop
    ghost var log: seq<Callback>
    ghost var stage: Stage

    ghost function Model(): Conn
      reads this, channel, channel.poller`kernel, channel.poller`channels
    {
      Conn(loop, state, channel.index, channel.IsReading(), channel.IsWriting(), WatchOf(channel), false,
           enableInactiveRelease, timer, log, stage)
    }

    ghost predicate Valid()
      reads this, channel, channel.poller, channel.poller.channels
    {
      channel.poller.Valid() && channel in channel.poller.channels && Plain(channel.events)
    }

    /** A connection on a new channel. */
    constructor (id: ConnId, loop: LoopId, channel: Channel, garbage: bool, ghost stage: Stage)
      requires channel.poller.Valid() && channel in channel.poller.channels
      requires channel.events == NONE_EVENT && channel.index == K_NEW
      ensures this.id == id && this.channel == channel && Valid()
      ensures Model() == Conn(loop, Connecting, K_NEW, false, false, Unwatched, false, garbage, NoTimer, [], stage)
    {
      this.id, this.loop, this.channel, this.stage := id, loop, channel, stage;
      state, enableInactiveRelease, timer, log := Connecting, garbage, NoTimer, [];
      new;
      PlainMasks(NONE_EVENT);
      channel.poller.KnownChannel(channel);
      hide EPollPoller.Valid;
    }

    /** Only the kernel entry of this connection may change. */
    twostate predicate OthersWatched()
      reads channel.poller
    {
      channel.poller.kernel - {channel.fd} == old(channel.poller.kernel) - {channel.fd}
    }

    method EnableReading()
      requires Valid()
      modifies channel, channel.poller`kernel, channel.poller`channelMap
      ensures Valid() && OthersWatched() && Model() == Updated(old(Model()).(reading := true))
    {
      hide EPollPoller.Valid, Reads, Writes, With, Without, Plain, Updated;
      PlainMasks(channel.events);
      channel.poller.KnownChannel(channel);
      channel.EnableReading();
      PlainMasks(channel.events);
      UpdateAgrees(old(Model()), Model(), true, channel.IsWriting());
    }

    method SetWriting(on: bool)
      requires Valid()
      modifies channel, channel.poller`kernel, channel.poller`channelMap
      ensures Valid() && OthersWatched() && Model() == Updated(old(Model()).(writing := on))
    {
      hide EPollPoller.Valid, Reads, Writes, With, Without, Plain, Updated;
      PlainMasks(channel.events);
      channel.poller.KnownChannel(channel);
      if on {
        channel.EnableWriting();
      } else {
        channel.DisableWriting();
      }
      PlainMasks(channel.events);
      UpdateAgrees(old(Model()), Model(), channel.IsReading(), on);
    }

    method DisableAll()
      requires Valid()
      modifies channel, channel.poller`kernel, channel.poller`channelMap
      ensures Valid() && OthersWatched() && Model() == Updated(old(Model()).(reading := false, writing := false))
    {
      hide EPollPoller.Valid, Reads, Writes, With, Without, Plain, Updated;
      PlainMasks(channel.events);
      channel.poller.KnownChannel(channel);
      channel.DisableAll();
      PlainMasks(channel.events);
      UpdateAgrees(old(Model()), Model(), false, false);
    }

    method RemoveChannel()
      requires Valid()
      modifies channel, channel.poller`kernel, channel.poller`channelMap
      ensures Valid() && OthersWatched() && Model() == Removed(old(Model()))
    {
      hide EPollPoller.Valid, Reads, Writes, Plain, Removed;
      channel.poller.KnownChannel(channel);
      channel.Remove();
      RemovalAgrees(old(Model()), Model());
    }

    method EnableInactiveReleaseInLoop()
      modifies this
      ensures Model() == EnableTimerOn(old(Model()))
    {
      enableInactiveRelease := true;
      if timer == NoTimer {
        timer := Armed(false);
      }
      stage := if stage.AwaitsTimer? then AwaitsUp else stage;
    }

    method CancelInactiveReleaseInLoop()
      modifies this`enableInactiveRelease, this`timer
      ensures Model() == CancelledOn(old(Model()))
    {
      enableInactiveRelease := false;
      if timer != NoTimer {
        timer := Armed(true);
      }
    }

    method ConnectEstablished()
      requires Valid()
      modifies this, channel, channel.poller`kernel, channel.poller`channelMap
      ensures Valid() && OthersWatched() && Model() == EstablishedOn(old(Model()))
    {
      hide EPollPoller.Valid, WatchOf, Updated;
      state := Connected;
      EnableReading();
      UpdateIsLocal(old(Model()).(reading := true), state);
      log, stage := log + [Up], Alive;
    }

    method ConnectDestroyed()
      requires Valid()
      modifies this, channel, channel.poller`kernel, channel.poller`channelMap
      ensures Valid() && OthersWatched() && Model() == DestroyedOn(old(Model()))
    {
      hide EPollPoller.Valid, WatchOf, Updated, Removed, Plain;
      if state == Connected {
        DisconnectLate();
      }
      if timer != NoTimer {
        CancelInactiveReleaseInLoop();
      }
      RemoveChannel();
      log, stage := log + [Destroyed], Gone;
    }

    /** What `connectDestroyed` does first with a connection that nobody has closed. */
    method DisconnectLate()
      requires Valid()
      modifies this`state, this`log, channel, channel.poller`kernel, channel.poller`channelMap
      ensures Valid() && OthersWatched()
      ensures var c := old(Model());
              Model() == Updated(c.(reading := false, writing := false)).(state := Disconnected, log := c.log + [Down])
    {
      hide EPollPoller.Valid, WatchOf, Updated, Plain;
      state := Disconnected;
      DisableAll();
      UpdateIsLocal(old(Model()).(reading := false, writing := false), state);
      log := log + [Down];
    }

    /** `handlerClose`, up to the close callback. */
    method Disconnect()
      requires Valid()
      modifies this, channel, channel.poller`kernel, channel.poller`channelMap
      ensures Valid() && OthersWatched() && Model() == ClosedOn(old(Model()))
    {
      hide EPollPoller.Valid, WatchOf, Updated, Plain;
      DisconnectLate();
      stage := Closed;
    }

    method Shutdown()
      modifies this`state
      ensures Model() == ShutdownOn(old(Model()))
    {
      if state == Connected {
        state := Disconnecting;
      }
    }

    /** The wheel drops its last reference to the timer: unless it was cancelled it shuts the connection down. */
    method TimerDropped()
      requires timer.Armed?
      modifies this
      ensures Model() == DroppedOn(old(Model()))
    {
      if !timer.cancelled {
        log := log + [TimerShutdown];
        Shutdown();
      }
      timer := NoTimer;
    }
  }

  /** Updating a channel has nothing to do with the state of the connection. */
  lemma UpdateIsLocal(c: Conn, state: ConnState)
    ensures Updated(c.(state := state)) == Updated(c).(state := state)
  {
    hide Ctl;
    CtlIsLocal(c, state, CtlAdd);
    CtlIsLocal(c, state, CtlMod);
    CtlIsLocal(c, state, CtlDel);
  }

  lemma CtlIsLocal(c: Conn, state: ConnState, op: CtlOp)
    ensures Ctl(c.(state := state), op) == Ctl(c, op).(state := state)
  {
  }

  // ---------------------------------------------------------------- the server

  ghost function Models(m: map<ConnId, Connection>): map<ConnId, Conn>
    reads m.Values, (set c | c in m.Values :: c.channel), (set c | c in m.Values :: c.channel.poller)`kernel
    reads (set c | c in m.Values :: c.channel.poller)`channels
  {
    map id | id in m :: m[id].Model()
  }

  predicate Keyed(m: map<ConnId, Connection>) {
    forall id :: id in m ==> m[id].id == id
  }

  lemma ModelsWith(m: map<ConnId, Connection>, c: Connection)
    ensures Models(m[c.id := c]) == Models(m)[c.id := c.Model()]
  {
  }

  lemma ModelOf(m: map<ConnId, Connection>, id: ConnId)
    requires id in m
    ensures id in Models(m) && Models(m)[id] == m[id].Model() && m[id] in m.Values
  {
  }

  lemma OtherEntry(k: map<int, Mask>, k': map<int, Mask>, fd: int, other: int)
    ensures k' - {fd} == k - {fd} && other != fd ==>
              (other in k' <==> other in k) && (other in k ==> k'[other] == k[other])
  {
    if k' - {fd} == k - {fd} && other != fd {
      assert other in k' <==> other in k' - {fd};
      assert other in k <==> other in k - {fd};
    }
  }

  lemma StartsAfterRegistering(s: Server, l: LoopId, garbage: bool, s1: Server)
    requires var id := s.nextId + 1;
             s1 == SetConn(s, id, Fresh(l, garbage, s.idleTimeout))
                   .(nextId := id, byName := s.byName + {id}, byId := s.byId + {id})
    ensures var id := s.nextId + 1;
            var s2 := if s.idleTimeout then Lifecycle.RunInLoop(s1, MAIN, l, EnableTimer(id)) else s1;
            && id in s1.conns && id in s2.conns
            && Lifecycle.NewConnection(s, l, garbage) == Lifecycle.RunInLoop(s2, MAIN, l, Task.ConnectEstablished(id))
  {
    hide Fresh, EnableTimerOn, EstablishedOn, DestroyedOn;
  }

  /** Every open descriptor is that of a connection, the one it was accepted on. */
  ghost predicate ServedOn(m: map<ConnId, Connection>, channels: set<Channel>, last: ConnId, fds: ConnId -> int) {
    && (forall id :: id in m ==> id <= last && m[id].channel.fd == fds(id))
    && (forall d :: d in channels ==> exists id :: id in m && m[id].channel == d)
  }

  lemma OneMoreServed(m: map<ConnId, Connection>, channels: set<Channel>, id: ConnId, c: Connection, fds: ConnId -> int)
    requires id >= 1 && ServedOn(m, channels, id - 1, fds) && c.channel.fd == fds(id)
    ensures ServedOn(m[id := c], channels + {c.channel}, id, fds)
    ensures m[id := c].Values <= m.Values + {c}
  {
    var n := m[id := c];
    assert n[id].channel == c.channel;
    forall d | d in channels ensures exists j :: j in n && n[j].channel == d {
      var j :| j in m && m[j].channel == d;
      assert n[j].channel == d;
    }
  }

  class TcpServer {
    const idleTimeout: bool
    const pollers: seq<EPollPoller>              // one for each loop, the first for the main loop
    var connections: map<ConnId, Connection>     // all that were ever accepted
    var connectionMap: map<ConnId, Connection>   // by name; names end in the id
    var connectionIdMap: map<ConnId, Connection>
    var nextConnId: nat
    var queues: map<LoopId, seq<Task>>           // the pending functors of each loop that concern connections
    ghost var channels: set<Channel>             // the channels of all connections

    ghost function Model(): Server
      reads this, connections.Values
      reads (set c | c in connections.Values :: c.channel), (set c | c in connections.Values :: c.channel.poller)`kernel
      reads (set c | c in connections.Values :: c.channel.poller)`channels
    {
      Server(Models(connections), connectionMap.Keys, connectionIdMap.Keys, nextConnId, queues, idleTimeout)
    }

    /** A connection sits on a channel of its own in the poller of its loop. */
    ghost predicate Placed(c: Connection)
      reads this`channels, c.channel, pollers
    {
      && c.loop < |pollers| && c.channel in channels
      && c.channel.poller == pollers[c.loop] && c.channel in pollers[c.loop].channels && Plain(c.channel.events)
    }

    /** A connection that is over has closed its socket, and its channel has left the loop. */
    ghost predicate Retired(c: Connection)
      reads c`state, c`stage, c.channel`index, pollers
    {
      && c.loop < |pollers| && c.channel.poller == pollers[c.loop] && c.channel !in pollers[c.loop].channels
      && c.channel.index == K_NEW && c.stage.Gone? && !c.state.Connected?
    }

    /** The connection still holds its descriptor. */
    ghost predicate Live(id: ConnId)
      reads this`connections, this`channels
    {
      id in connections && connections[id].channel in channels
    }

    /** A queued call keeps its connection from being destroyed. */
    ghost predicate Held()
      reads this`connections, this`channels, this`queues
    {
      forall l, t :: l in queues && t in queues[l] && t.id in connections ==> Live(t.id)
    }

    /** Connections have their own channels, and those that are not over their own descriptors. */
    ghost predicate OwnDescriptors()
      reads this`connections, this`channels
    {
      forall i, j :: i in connections && j in connections && i != j ==>
        && connections[i].channel != connections[j].channel
        && (Live(i) && Live(j) ==> connections[i].channel.fd != connections[j].channel.fd)
    }

    ghost predicate PollersValid()
      reads this`channels, channels, pollers
    {
      forall p :: p in pollers ==> p.channels <= channels && p.Valid()
    }

    ghost predicate Situated(c: Connection)
      reads this`channels, c`state, c`stage, c.channel, pollers
    {
      if c.channel in channels then Placed(c) else Retired(c)
    }

    ghost predicate Valid()
      reads this`connections, this`channels, this`queues, connections.Values, channels, pollers
      reads set c | c in connections.Values :: c.channel
    {
      && |pollers| >= 1 && Keyed(connections) && PollersValid() && OwnDescriptors() && Held()
      && forall id :: id in connections ==> Situated(connections[id])
    }

    constructor (idleTimeout: bool, pollers: seq<EPollPoller>)
      requires |pollers| >= 1 && forall p :: p in pollers ==> p.Valid() && p.channels == {}
      ensures Valid() && Model() == Started(idleTimeout) && connections == map[] && channels == {}
              && this.pollers == pollers
    {
      this.idleTimeout, this.pollers := idleTimeout, pollers;
      connections, connectionMap, connectionIdMap, nextConnId, queues, channels := map[], map[], map[], 0, map[], {};
    }

    /** What a member of connection `id` may have done: to itself, and if it is not over to its channel and its own
        kernel entry. */
    twostate predicate OnlyTouched(id: ConnId)
      requires id in connections
      reads this`connections, this`channels, connections.Values, channels, pollers
      reads set c | c in connections.Values :: c.channel
    {
      var c := connections[id];
      && connections == old(connections) && channels == old(channels)
      && (forall d :: d in connections.Values && d != c ==> unchanged(d))
      && (forall d :: d in connections.Values && d.channel != c.channel ==> unchanged(d.channel))
      && (forall ch :: ch in channels && ch != c.channel ==> unchanged(ch))
      && (forall p :: p in pollers ==>
            && p.channels == old(p.channels)
            && if p != c.channel.poller || !Live(id) then unchanged(p)
               else p.kernel - {c.channel.fd} == old(p.kernel) - {c.channel.fd})
    }

    /** The pollers of the other loops have not seen it. */
    twostate lemma PollersStayValid(id: ConnId)
      requires old(PollersValid()) && id in connections && OnlyTouched(id) && connections[id].channel.poller.Valid()
      ensures PollersValid()
    {
      var c := connections[id];
      forall p | p in pollers ensures p.channels <= channels && p.Valid() {
        if p != c.channel.poller {
          assert c.channel !in p.channels;
        }
      }
    }

    /** Nor has any other connection. */
    twostate lemma OthersStay(id: ConnId)
      requires old(OwnDescriptors()) && id in connections && OnlyTouched(id)
      requires forall j :: j in connections ==> old(Situated(connections[j]))
      ensures forall j :: j in connections && j != id ==>
                Situated(connections[j]) && connections[j].Model() == old(connections[j].Model())
    {
      hide EPollPoller.Valid, Plain;
      var c := connections[id];
      forall j | j in connections && j != id
        ensures Situated(connections[j]) && connections[j].Model() == old(connections[j].Model())
      {
        var d := connections[j];
        assert c in connections.Values && d in connections.Values && d != c && d.channel != c.channel;
        OtherEntry(old(d.channel.poller.kernel), d.channel.poller.kernel, c.channel.fd, d.channel.fd);
      }
    }

    /** Such a change leaves the others as they were. */
    twostate lemma OneChanged(id: ConnId)
      requires old(Valid()) && id in connections && OnlyTouched(id) && unchanged(this)
      requires connections[id].channel.poller.Valid() && Situated(connections[id])
      ensures Valid() && Model() == SetConn(old(Model()), id, connections[id].Model())
    {
      hide PollersValid, Situated, OnlyTouched, EPollPoller.Valid, WatchOf;
      PollersStayValid(id);
      OthersStay(id);
    }

    method QueueInLoop(l: LoopId, t: Task)
      requires Valid() && Live(t.id)
      modifies this`queues
      ensures Valid() && Model() == Enqueue(old(Model()), l, t)
    {
      hide Models, PollersValid, Situated, OwnDescriptors, Keyed;
      queues := queues[l := (if l in queues then queues[l] else []) + [t]];
    }

    /** A queued call runs. */
    method Execute(t: Task)
      requires Valid() && Live(t.id)
      modifies this`queues, this`connectionMap, this`connectionIdMap
      modifies connections[t.id], connections[t.id].channel, connections[t.id].channel.poller`kernel,
               connections[t.id].channel.poller`channelMap
      ensures Valid() && OnlyTouched(t.id) && Model() == Lifecycle.Execute(old(Model()), t)
    {
      hide Keyed, Model, Models, Updated, Removed, EPollPoller.Valid, EnableTimerOn, EstablishedOn, DestroyedOn;
      hide PollersValid, OwnDescriptors, Held;
      var c := connections[t.id];
      Own(t.id);
      match t
      case EnableTimer(id) =>
        c.EnableInactiveReleaseInLoop();
        OneChanged(id);
      case ConnectEstablished(id) =>
        c.ConnectEstablished();
        OneChanged(id);
      case RemoveConnection(id) =>
        RemoveConnectionInLoop(id);
      case ConnectDestroyed(id) =>
        c.ConnectDestroyed();
        OneChanged(id);
    }

    /** What is known of a connection, and of one that holds its descriptor. */
    lemma Own(id: ConnId)
      requires Valid() && id in connections
      ensures connections[id] in connections.Values && connections[id].id == id && Situated(connections[id])
      ensures connections[id].loop < |pollers| && connections[id].channel.poller == pollers[connections[id].loop]
      ensures connections[id].channel.poller.Valid() && (Live(id) ==> connections[id].Valid())
      ensures id in Models(connections) && Models(connections)[id] == connections[id].Model()
      ensures id in Model().conns && Model().conns[id] == connections[id].Model()
    {
      hide EPollPoller.Valid;
      ModelOf(connections, id);
      assert Situated(connections[id]);
    }

    method Unregister(id: ConnId)
      modifies this`connectionMap, this`connectionIdMap
      ensures Model() == old(Model()).(byName := old(Model()).byName - {id}, byId := old(Model()).byId - {id})
    {
      hide Models;
      connectionMap := connectionMap - {id};
      connectionIdMap := connectionIdMap - {id};
    }

    /** Out of both maps; the destruction is queued in the loop of the connection. */
    method RemoveConnectionInLoop(id: ConnId)
      requires Valid() && Live(id)
      modifies this`queues, this`connectionMap, this`connectionIdMap
      modifies connections[id], connections[id].channel, connections[id].channel.poller`kernel,
               connections[id].channel.poller`channelMap
      ensures Valid() && OnlyTouched(id) && Model() == RemoveInLoop(old(Model()), id)
    {
      hide Keyed, Model, Models, EPollPoller.Valid, WatchOf, PollersValid, OwnDescriptors, Held;
      Own(id);
      NoteUnregistered(id);
      Unregister(id);
      QueueInLoop(connections[id].loop, ConnectDestroyed(id));
    }

    ghost method NoteUnregistered(id: ConnId)
      requires Valid() && Live(id)
      modifies connections[id]
      ensures Valid() && OnlyTouched(id)
      ensures var c: Conn := old(connections[id].Model());
              Model() == SetConn(old(Model()), id, c.(stage := Unregistered))
    {
      hide Keyed, Model, Models, EPollPoller.Valid, WatchOf, PollersValid, OwnDescriptors, Held;
      Own(id);
      var conn := connections[id];
      conn.stage := Unregistered;
      OneChanged(id);
    }

    method RunInLoop(current: LoopId, l: LoopId, t: Task)
      requires Valid() && Live(t.id)
      modifies this`queues, this`connectionMap, this`connectionIdMap
      modifies connections[t.id], connections[t.id].channel, connections[t.id].channel.poller`kernel,
               connections[t.id].channel.poller`channelMap
      ensures Valid() && OnlyTouched(t.id) && Model() == Lifecycle.RunInLoop(old(Model()), current, l, t)
    {
      hide Models, Valid, Lifecycle.Execute;
      Own(t.id);
      if current == l {
        Execute(t);
      } else {
        QueueInLoop(l, t);
      }
    }

    /** The timer first, if inactive release is on, then `connectEstablished`. */
    method StartConnection(l: LoopId, id: ConnId)
      requires Valid() && Live(id)
      modifies this`queues, this`connectionMap, this`connectionIdMap
      modifies connections[id], connections[id].channel, connections[id].channel.poller`kernel,
               connections[id].channel.poller`channelMap
      ensures var s := old(Model());
              var s2 := if idleTimeout then Lifecycle.RunInLoop(s, MAIN, l, EnableTimer(id)) else s;
              && id in s.conns && id in s2.conns
              && Valid() && Model() == Lifecycle.RunInLoop(s2, MAIN, l, Task.ConnectEstablished(id))
    {
      hide Models, Valid, Lifecycle.RunInLoop;
      Own(id);
      if idleTimeout {
        RunInLoop(MAIN, l, EnableTimer(id));
        Own(id);
      }
      RunInLoop(MAIN, l, Task.ConnectEstablished(id));
    }

    /** Nothing about connection `j` has changed, nor has it got another place. */
    twostate predicate Undisturbed(j: ConnId)
      requires old(j in connections) && connections == old(connections)
      reads this`connections, this`channels
      reads connections.Values, (set c | c in connections.Values :: c.channel)
      reads (set c | c in connections.Values :: c.channel.poller)
    {
      var d := connections[j];
      && d in connections.Values && unchanged(d) && unchanged(d.channel)
      && d.channel.poller.kernel == old(d.channel.poller.kernel)
      && (d.channel in channels <==> d.channel in old(channels))
      && (d.channel in d.channel.poller.channels <==> d.channel in old(d.channel.poller.channels))
    }

    twostate lemma UndisturbedStay()
      requires connections == old(connections) && forall j :: j in connections ==> old(Situated(connections[j]))
      ensures forall j :: j in connections && Undisturbed(j) ==>
                Situated(connections[j]) && connections[j].Model() == old(connections[j].Model())
    {
      hide EPollPoller.Valid, Plain, Reads, Writes;
    }

    /** When sockets are opened or closed, all is well if every connection is where it belongs. */
    twostate lemma OnlyChannels()
      requires old(Valid()) && PollersValid() && Held()
      requires connections == old(connections) && queues == old(queues) && nextConnId == old(nextConnId)
      requires connectionMap == old(connectionMap) && connectionIdMap == old(connectionIdMap)
      requires forall j :: j in connections ==>
                 && Situated(connections[j]) && connections[j].Model() == old(connections[j].Model())
                 && (Live(j) ==> old(Live(j)))
      ensures Valid() && Model() == old(Model())
    {
      hide PollersValid, Held, Situated, WatchOf;
    }

    /** Connection `id` is over and no queued call holds it: its socket is closed and its descriptor free again. */
    ghost method Retire(id: ConnId)
      requires Valid() && Live(id) && Released(Model(), id) && GoneIsClosed(Model())
      modifies this`channels, connections[id].channel.poller`channels
      ensures Valid() && Model() == old(Model()) && channels == old(channels) - {connections[id].channel}
    {
      hide Model, Models, EPollPoller.Valid, PollersValid, OwnDescriptors, Held, Situated, Released, GoneIsClosed;
      Own(id);
      OverIsNew(id);
      connections[id].channel.poller.Retire(connections[id].channel);
      channels := channels - {connections[id].channel};
      PollersLoseOne(id);
      OneRetired(id);
      OneOver(id);
      OnlyChannels();
    }

    lemma OverIsNew(id: ConnId)
      requires Valid() && Live(id) && Released(Model(), id) && GoneIsClosed(Model())
      ensures Placed(connections[id]) && connections[id].channel.index == K_NEW
      ensures forall l, t :: l in queues && t in queues[l] ==> t.id != id
    {
      hide EPollPoller.Valid, PollersValid, OwnDescriptors, Keyed, WatchOf;
      Own(id);
      forall l, t | l in queues && t in queues[l] ensures t.id != id {
        assert t in Q(Model(), l);
      }
    }

    /** The channel of connection `id`, and nothing else, has left its loop. */
    twostate predicate Dropped(id: ConnId)
      reads this, connections.Values, (set c | c in connections.Values :: c.channel), channels, pollers
    {
      && id in connections
      && var ch := connections[id].channel;
      && connections == old(connections) && queues == old(queues) && channels == old(channels) - {ch}
      && (forall d :: d in connections.Values ==> unchanged(d) && unchanged(d.channel))
      && (forall d :: d in channels ==> unchanged(d))
      && (forall p :: p in pollers ==>
            && p.kernel == old(p.kernel)
            && if p == ch.poller then p.channels == old(p.channels) - {ch} else unchanged(p))
    }

    twostate lemma PollersLoseOne(id: ConnId)
      requires old(PollersValid()) && Dropped(id) && connections[id].channel.poller.Valid()
      ensures PollersValid()
    {
      var ch := connections[id].channel;
      forall p | p in pollers ensures p.channels <= channels && p.Valid() {
        if p != ch.poller {
          assert ch !in p.channels;
        }
      }
    }

    twostate lemma OneRetired(id: ConnId)
      requires old(Valid()) && old(Live(id)) && Dropped(id)
      requires forall l, t :: l in queues && t in queues[l] ==> t.id != id
      ensures Held() && forall j :: j in connections ==> (Live(j) ==> old(Live(j))) && (j != id ==>
                Situated(connections[j]) && connections[j].Model() == old(connections[j].Model()))
    {
      hide EPollPoller.Valid, PollersValid, WatchOf;
      forall j | j in connections && j != id ensures Undisturbed(j) {
        assert old(Situated(connections[j])) && old(Situated(connections[id]));
      }
      UndisturbedStay();
    }

    twostate lemma OneOver(id: ConnId)
      requires old(Valid()) && old(Live(id)) && old(Released(Model(), id)) && old(GoneIsClosed(Model())) && Dropped(id)
      ensures Situated(connections[id]) && connections[id].Model() == old(connections[id].Model())
    {
      hide Held, OwnDescriptors, Keyed;
    }

    /** A new channel on the descriptor `fd`, which no socket that is open uses, for a new connection. */
    method NewChannel(p: EPollPoller, fd: int) returns (ch: Channel)
      requires Valid() && p in pollers && forall d :: d in channels ==> d.fd != fd
      modifies this`channels, p`channels
      ensures Valid() && fresh(ch) && channels == old(channels) + {ch} && Model() == old(Model())
      ensures ch.fd == fd && ch.poller == p && ch in p.channels && ch.events == NONE_EVENT && ch.index == K_NEW
    {
      hide EPollPoller.Valid, Models, Model, Plain, Keyed, OwnDescriptors, Situated, Held;
      ch := new Channel(fd, p);
      p.Adopt(ch);
      channels := channels + {ch};
      AllStay();
      OnlyChannels();
    }

    /** New channels do not touch what is there. */
    twostate lemma AllStay()
      requires old(Valid()) && connections == old(connections) && old(channels) <= channels
      requires forall ch :: ch in channels && ch !in old(channels) ==> fresh(ch)
      requires forall p :: p in pollers ==> p.kernel == old(p.kernel) && old(p.channels) <= p.channels <= channels
      requires forall d :: d in connections.Values ==> unchanged(d) && unchanged(d.channel)
      requires queues == old(queues)
      ensures Held() && forall j :: j in connections ==>
                Situated(connections[j]) && connections[j].Model() == old(connections[j].Model())
    {
      hide EPollPoller.Valid, PollersValid, WatchOf, OwnDescriptors;
      forall j | j in connections ensures Undisturbed(j) {
        assert old(Situated(connections[j]));
      }
      UndisturbedStay();
    }

    method Register(conn: Connection)
      requires Valid() && Placed(conn) && NewDescriptor(conn.channel)
      modifies this`connections, this`connectionMap, this`connectionIdMap
      ensures Valid() && connections == old(connections)[conn.id := conn]
      ensures Model() == SetConn(old(Model()), conn.id, conn.Model())
                         .(byName := old(Model()).byName + {conn.id}, byId := old(Model()).byId + {conn.id})
    {
      hide Model, Models, Valid, Placed, NewDescriptor;
      AddConnection(conn);
      EnterMaps(conn);
    }

    method EnterMaps(conn: Connection)
      modifies this`connectionMap, this`connectionIdMap
      ensures Model() == old(Model()).(byName := old(Model()).byName + {conn.id}, byId := old(Model()).byId + {conn.id})
    {
      hide Models;
      connectionMap := connectionMap[conn.id := conn];
      connectionIdMap := connectionIdMap[conn.id := conn];
    }

    /** No connection uses this channel, and none that is open its descriptor. */
    ghost predicate NewDescriptor(ch: Channel)
      reads this`connections, this`channels
    {
      && ch in channels
      && forall id :: id in connections ==>
           connections[id].channel != ch && (Live(id) ==> connections[id].channel.fd != ch.fd)
    }

    method AddConnection(conn: Connection)
      requires Valid() && Placed(conn) && NewDescriptor(conn.channel)
      modifies this`connections
      ensures Valid() && connections == old(connections)[conn.id := conn]
              && connections.Values <= old(connections.Values) + {conn}
      ensures Model() == SetConn(old(Model()), conn.id, conn.Model())
    {
      hide Models, EPollPoller.Valid, Placed, Retired, PollersValid;
      ModelsWith(connections, conn);
      connections := connections[conn.id := conn];
    }

    /** `handlerClose`, run by the loop of the connection: the close callback goes to the main loop. */
    method HandlerClose(id: ConnId)
      requires Valid() && Live(id)
      modifies this`queues, this`connectionMap, this`connectionIdMap
      modifies connections[id], connections[id].channel, connections[id].channel.poller`kernel,
               connections[id].channel.poller`channelMap
      ensures Valid() && OnlyTouched(id) && Model() == Lifecycle.HandlerClose(old(Model()), id)
    {
      hide Keyed, Model, Models, EPollPoller.Valid, PollersValid, OwnDescriptors, Held, Lifecycle.RunInLoop, ClosedOn;
      Own(id);
      connections[id].Disconnect();
      OneChanged(id);
      RunInLoop(connections[id].loop, MAIN, RemoveConnection(id));
    }

    /** A new connection on a new channel is registered in both maps and handed to its loop. */
    method NewConnection(l: LoopId, fd: int, garbage: bool)
      requires Valid() && l < |pollers| && (forall d :: d in channels ==> d.fd != fd)
      modifies this, pollers[l]
      ensures Valid() && Model() == Lifecycle.NewConnection(old(Model()), l, garbage)
      ensures Added(fd) && connections[nextConnId].channel.poller == pollers[l]
    {
      hide Model, Models, Valid, Fresh, SetConn, Lifecycle.RunInLoop, Lifecycle.NewConnection;
      ghost var s := Model();
      RegisterNew(l, fd, garbage);
      StartsAfterRegistering(s, l, garbage, Model());
      StartConnection(l, nextConnId);
    }

    /** The next number is given to one new connection with one new channel. */
    twostate predicate Added(fd: int)
      reads this
    {
      && nextConnId == old(nextConnId) + 1 && nextConnId in connections
      && var c := connections[nextConnId];
         && fresh(c) && fresh(c.channel) && c.channel.fd == fd
         && connections == old(connections)[nextConnId := c] && channels == old(channels) + {c.channel}
    }

    method CountUp()
      modifies this`nextConnId
      ensures nextConnId == old(nextConnId) + 1 && old(Model()).nextId == old(nextConnId)
      ensures Model() == old(Model()).(nextId := nextConnId) && Model().idleTimeout == idleTimeout
    {
      hide Models;
      nextConnId := nextConnId + 1;
    }

    method RegisterNew(l: LoopId, fd: int, garbage: bool)
      requires Valid() && l < |pollers| && (forall d :: d in channels ==> d.fd != fd)
      modifies this, pollers[l]
      ensures Valid() && Added(fd) && connections[nextConnId].channel.poller == pollers[l]
      ensures var s, id: ConnId := old(Model()), old(Model()).nextId + 1;
              && nextConnId == id && Model().idleTimeout == s.idleTimeout == idleTimeout
              && Model() == SetConn(s, id, Fresh(l, garbage, s.idleTimeout))
                            .(nextId := id, byName := s.byName + {id}, byId := s.byId + {id})
    {
      hide Model, Models, Valid, Placed, NewDescriptor, Fresh;
      CountUp();
      var conn := Build(nextConnId, l, fd, garbage);
      Register(conn);
    }

    method Build(id: ConnId, l: LoopId, fd: int, garbage: bool) returns (conn: Connection)
      requires Valid() && l < |pollers| && (forall d :: d in channels ==> d.fd != fd)
      modifies this`channels, pollers[l]
      ensures Valid() && Model() == old(Model()) && Placed(conn) && fresh(conn) && fresh(conn.channel)
      ensures conn.id == id && conn.Model() == Fresh(l, garbage, idleTimeout) && NewDescriptor(conn.channel)
      ensures channels == old(channels) + {conn.channel} && conn.channel.fd == fd && conn.channel.poller == pollers[l]
    {
      hide Models, Valid, Placed, EPollPoller.Valid, Plain;
      var ch := NewChannel(pollers[l], fd);
      PollerOf(l);
      conn := new Connection(id, l, ch, garbage, if idleTimeout then AwaitsTimer else AwaitsUp);
      PlacedNow(conn);
    }

    method HandlerRead(id: ConnId, read: ReadOutcome, userShutdown: bool)
      requires Valid() && Live(id)
      modifies this`queues, this`connectionMap, this`connectionIdMap
      modifies connections[id], connections[id].channel, connections[id].channel.poller`kernel,
               connections[id].channel.poller`channelMap
      ensures Valid() && OnlyTouched(id) && Model() == Lifecycle.HandlerRead(old(Model()), id, read, userShutdown)
    {
      hide Model, Models, Keyed, EPollPoller.Valid, PollersValid, OwnDescriptors, Held;
      hide Lifecycle.HandlerClose, ShutdownOn;
      Own(id);
      match read
      case Data =>
        if userShutdown {
          connections[id].Shutdown();
          OneChanged(id);
        }
      case EndOfFile => HandlerClose(id);
      case ReadFailed =>
    }

    method HandlerWrite(id: ConnId, drained: bool)
      requires Valid() && Live(id)
      modifies this`queues, this`connectionMap, this`connectionIdMap
      modifies connections[id], connections[id].channel, connections[id].channel.poller`kernel,
               connections[id].channel.poller`channelMap
      ensures Valid() && OnlyTouched(id) && Model() == Lifecycle.HandlerWrite(old(Model()), id, drained)
    {
      hide Model, Models, Keyed, EPollPoller.Valid, PollersValid, OwnDescriptors, Held, Updated;
      Own(id);
      if drained && connections[id].channel.IsWriting() {
        connections[id].SetWriting(false);
        OneChanged(id);
      }
    }

    /** `HandlerEventWithGuard` */
    method HandlerEvent(id: ConnId, e: Revents, read: ReadOutcome, userShutdown: bool, drained: bool)
      requires Valid() && Live(id)
      modifies this`queues, this`connectionMap, this`connectionIdMap
      modifies connections[id], connections[id].channel, connections[id].channel.poller`kernel,
               connections[id].channel.poller`channelMap
      ensures Valid() && connections == old(connections) && channels == old(channels)
      ensures Model() == Lifecycle.HandlerEvent(old(Model()), id, e, read, userShutdown, drained)
      ensures var c: Conn := old(connections[id].Model());
              Effects.Served(c) && !(e.hup && e.pri && !e.in_ && read.EndOfFile?) ==>
                var closes := (e.hup && !e.in_) || ((e.in_ || e.pri) && read.EndOfFile?);
                && connections[id].log == c.log + (if closes then [Down] else [])
                && (connections[id].state.Disconnected? <==> closes)
                && (connections[id].channel.IsWriting() <==> c.writing && !closes && !(e.out && drained))
    {
      ghost var s, c: Conn := Model(), connections[id].Model();
      if Effects.Served(c) && !(e.hup && e.pri && !e.in_ && read.EndOfFile?) {
        Own(id);
        Effects.DispatchEffect(s, id, e, read, userShutdown, drained);
      }
      hide Model, Effects.Served, Lifecycle.HandlerEvent;
      DispatchInOrder(id, e, read, userShutdown, drained);
      Own(id);
    }

    method DispatchInOrder(id: ConnId, e: Revents, read: ReadOutcome, userShutdown: bool, drained: bool)
      requires Valid() && Live(id)
      modifies this`queues, this`connectionMap, this`connectionIdMap
      modifies connections[id], connections[id].channel, connections[id].channel.poller`kernel,
               connections[id].channel.poller`channelMap
      ensures Valid() && connections == old(connections) && channels == old(channels)
      ensures Model() == Lifecycle.HandlerEvent(old(Model()), id, e, read, userShutdown, drained)
    {
      hide Models, Valid, OnlyTouched, Lifecycle.HandlerClose, Lifecycle.HandlerRead, Lifecycle.HandlerWrite;
      Own(id);
      if e.hup && !e.in_ {
        HandlerClose(id);
        Own(id);
      }
      if e.in_ || e.pri {
        HandlerRead(id, read, userShutdown);
        Own(id);
      }
      if e.out {
        HandlerWrite(id, drained);
      }
    }

    lemma PollerOf(l: LoopId)
      requires Valid() && l < |pollers|
      ensures pollers[l].Valid()
    {
      hide EPollPoller.Valid;
    }

    lemma PlacedNow(conn: Connection)
      requires conn.loop < |pollers| && conn.channel in channels
      requires conn.channel.poller == pollers[conn.loop] && conn.channel in pollers[conn.loop].channels
               && conn.channel.events == NONE_EVENT
      ensures Placed(conn)
    {
    }

    /** Loop `l` runs the oldest of its queued calls. */
    method RunTask(l: LoopId)
      requires Valid() && l in queues && queues[l] != [] && Live(queues[l][0].id)
      modifies this`queues, this`connectionMap, this`connectionIdMap, connections[queues[l][0].id]
      modifies connections[queues[l][0].id].channel
      modifies connections[queues[l][0].id].channel.poller`kernel,
               connections[queues[l][0].id].channel.poller`channelMap
      ensures Valid() && Model() == Step(old(Model()), Action.RunTask(l))
    {
      hide Models, PollersValid, OwnDescriptors, Situated, Keyed, OnlyTouched, Lifecycle.Execute;
      var t := queues[l][0];
      queues := queues[l := queues[l][1..]];
      Own(t.id);
      Execute(t);
    }

    /** Any action of any loop; a connection that is accepted sits on the descriptor `fd`. */
    method Perform(a: Action, fd: int)
      requires Valid() && Enabled(Model(), a)
      requires a.Accept? ==> a.l < |pollers| && forall d :: d in channels ==> d.fd != fd
      modifies this, connections.Values, channels, pollers
      ensures Valid() && Model() == Step(old(Model()), a)
      ensures if a.Accept? then Added(fd)
              else connections == old(connections) && channels == old(channels) && nextConnId == old(nextConnId)
    {
      hide Models, Valid, OnlyTouched, Lifecycle.NewConnection, Lifecycle.HandlerEvent, Lifecycle.Execute;
      hide Updated, ShutdownOn, DroppedOn;
      match a
      case Accept(l, garbage) => NewConnection(l, fd, garbage);
      case RunTask(l) =>
        QueuedIsLive(l);
        RunTask(l);
      case ChannelEvent(id, e, read, userShutdown, drained) =>
        OpenIsLive(id);
        HandlerEvent(id, e, read, userShutdown, drained);
      case StartWriting(id) =>
        OpenIsLive(id);
        StartWriting(id);
      case _ =>
        KnownConnections();
        Own(a.id);
        PerformLocally(a);
    }

    lemma KnownConnections()
      ensures Model().conns.Keys == connections.Keys
    {
    }

    method StartWriting(id: ConnId)
      requires Valid() && Live(id) && connections[id].state.Connected?
      modifies connections[id], connections[id].channel, connections[id].channel.poller`kernel,
               connections[id].channel.poller`channelMap
      ensures Valid() && Model() == Step(old(Model()), Action.StartWriting(id))
    {
      hide Model, Models, Keyed, EPollPoller.Valid, PollersValid, OwnDescriptors, Held, Updated;
      Own(id);
      connections[id].SetWriting(true);
      OneChanged(id);
    }

    /** The actions that change the state of one connection and nothing else; it may be over. */
    method PerformLocally(a: Action)
      requires Valid() && Enabled(Model(), a) && (a.UserShutdown? || a.TimerDropped?) && a.id in connections
      modifies connections[a.id]
      ensures Valid() && Model() == Step(old(Model()), a)
    {
      hide Model, Models, Keyed, EPollPoller.Valid, PollersValid, OwnDescriptors, Held, Placed;
      Own(a.id);
      match a
      case UserShutdown(id) =>
        connections[id].Shutdown();
        OneChanged(id);
      case TimerDropped(id) =>
        connections[id].TimerDropped();
        OneChanged(id);
    }

    lemma QueuedIsLive(l: LoopId)
      requires Valid() && Enabled(Model(), Action.RunTask(l))
      ensures l in queues && queues[l] != [] && Live(queues[l][0].id)
      ensures Reachable(queues[l][0].id)
    {
      hide EPollPoller.Valid, OwnDescriptors, PollersValid;
      Own(queues[l][0].id);
    }

    lemma OpenIsLive(id: ConnId)
      requires Valid() && id in Model().conns
      requires Model().conns[id].index == K_ADDED || Model().conns[id].state.Connected?
      ensures Live(id) && Reachable(id) && (Model().conns[id].state.Connected? ==> connections[id].state.Connected?)
    {
      hide EPollPoller.Valid, OwnDescriptors, PollersValid;
      Own(id);
    }

    ghost predicate Served(fds: ConnId -> int)
      reads this`connections, this`channels, this`nextConnId
    {
      ServedOn(connections, channels, nextConnId, fds)
    }

    lemma NoneServed(fds: ConnId -> int)
      requires connections == map[] && channels == {}
      ensures Served(fds)
    {
    }

    /** The descriptor of the next connection is made free: if a connection that is over had it, its channel goes. */
    ghost method Vacate(fds: ConnId -> int)
      requires Valid() && Served(fds) && GoneIsClosed(Model())
      requires forall id :: id in Model().conns && fds(id) == fds(nextConnId + 1) ==> Released(Model(), id)
      modifies this`channels, pollers
      ensures Valid() && Model() == old(Model()) && Served(fds) && channels <= old(channels)
      ensures forall d :: d in channels ==> d.fd != fds(nextConnId + 1)
    {
      hide Models, EPollPoller.Valid, PollersValid, Held, Keyed, Situated, GoneIsClosed, Released;
      if d :| d in channels && d.fd == fds(nextConnId + 1) {
        var id :| id in connections && connections[id].channel == d;
        Own(id);
        Retire(id);
      }
    }

    /** Any action again, where an accepted connection is given the descriptor `fds` has for it; a connection that is
        over and had the same one is gone by then. */
    method Advance(a: Action, fds: ConnId -> int)
      requires Valid() && Served(fds) && GoneIsClosed(Model()) && Enabled(Model(), a)
      requires a.Accept? ==> a.l < |pollers|
      requires a.Accept? ==>
                 forall id :: id in Model().conns && fds(id) == fds(Model().nextId + 1) ==> Released(Model(), id)
      modifies this, connections.Values, channels, pollers
      ensures Valid() && Served(fds) && GoneIsClosed(Model()) && Model() == Step(old(Model()), a)
      ensures forall c :: c in connections.Values ==> c in old(connections.Values) || fresh(c)
      ensures forall d :: d in channels ==> d in old(channels) || fresh(d)
    {
      hide Models, Model, Valid, Step, Enabled, ServedOn, GoneIsClosed, Released;
      StepKeepsGoneClosed(Model(), a);
      var fd := NextDescriptor(fds);
      if a.Accept? {
        Vacate(fds);
      }
      ghost var connectionsBefore, channelsBefore := connections, channels;
      Perform(a, fd);
      if a.Accept? {
        OneMoreServed(connectionsBefore, channelsBefore, nextConnId, connections[nextConnId], fds);
      }
    }

    method NextDescriptor(fds: ConnId -> int) returns (fd: int)
      ensures fd == fds(nextConnId + 1) == fds(Model().nextId + 1)
    {
      hide Models;
      fd := fds(nextConnId + 1);
    }

    /** The objects that members of a connection change belong to the server. */
    ghost predicate Reachable(id: ConnId)
      reads this`connections, this`channels
    {
      && id in connections && connections[id] in connections.Values && connections[id].channel in channels
      && connections[id].channel.poller in pollers
    }
  }

  /** The connection has been destroyed and no queued call holds it. */
  ghost predicate Released(s: Server, id: ConnId) {
    id in s.conns && s.conns[id].stage.Gone? && forall l: LoopId, t :: t in Q(s, l) ==> t.id != id
  }

  /** What the system owes: connection `id` is accepted on the descriptor `fds(id)`, a number that no earlier connection
      has whose socket is still open. */
  ghost predicate Descriptors(s: Server, actions: seq<Action>, fds: ConnId -> int)
    requires Legal(s, actions)
    decreases |actions|
  {
    actions == [] ||
    (&& (actions[0].Accept? ==> forall id :: id in s.conns && fds(id) == fds(s.nextId + 1) ==> Released(s, id))
     && Descriptors(Step(s, actions[0]), actions[1..], fds))
  }

  /** Every run of the server with `loops` loops, from its start, is a run of the life cycle, when connection `id` is
      accepted on the descriptor `fds(id)`, which may have been another's before; if no dispatch closes twice it keeps
      the life-cycle invariant. */
  method RunServer(idleTimeout: bool, loops: nat, fds: ConnId -> int, actions: seq<Action>) returns (s: TcpServer)
    requires Legal(Started(idleTimeout), actions) && Descriptors(Started(idleTimeout), actions, fds)
    requires loops >= 1 && forall a :: a in actions && a.Accept? ==> a.l < loops
    ensures fresh(s) && s.Valid() && s.Model() == Run(Started(idleTimeout), actions)
    ensures (forall a :: a in actions ==> !ClosesTwice(a)) ==> Invariant(s.Model())
  {
    hide Models, Step, Enabled, Invariant, ClosesTwice, TcpServer.Valid, TcpServer.Model, EPollPoller.Valid, Released;
    hide TcpServer.Served, GoneIsClosed;
    var pollers := BuildPollers(loops);
    s := new TcpServer(idleTimeout, pollers);
    s.NoneServed(fds);
    NoneGone(idleTimeout);
    var k := 0;
    assert actions[0..] == actions;
    assert forall i :: 0 <= i < loops ==> s.pollers[i] in pollers;
    while k < |actions|
      invariant 0 <= k <= |actions| && fresh(s) && s.Valid() && |s.pollers| == loops
      invariant s.Served(fds) && GoneIsClosed(s.Model())
      invariant forall c :: c in s.connections.Values ==> fresh(c)
      invariant forall d :: d in s.channels ==> fresh(d)
      invariant forall i :: 0 <= i < loops ==> fresh(s.pollers[i])
      invariant Legal(s.Model(), actions[k..]) && Descriptors(s.Model(), actions[k..], fds)
      invariant Run(s.Model(), actions[k..]) == Run(Started(idleTimeout), actions)
    {
      assert actions[k..][0] == actions[k] && actions[k..][1..] == actions[k + 1..] && actions[k] in actions;
      s.Advance(actions[k], fds);
      k := k + 1;
    }
    if forall a :: a in actions ==> !ClosesTwice(a) {
      NewServerIsSound(idleTimeout);
      RunKeepsInvariant(Started(idleTimeout), actions);
    }
  }

  lemma NoneGone(idleTimeout: bool)
    ensures GoneIsClosed(Started(idleTimeout))
  {
  }

  method BuildPollers(n: nat) returns (pollers: seq<EPollPoller>)
    ensures |pollers| == n && forall p :: p in pollers ==> fresh(p) && p.Valid() && p.channels == {}
  {
    hide EPollPoller.Valid;
    pollers := [];
    while |pollers| < n
      invariant |pollers| <= n && forall p :: p in pollers ==> fresh(p) && p.Valid() && p.channels == {}
    {
      var p := new EPollPoller();
      pollers := pollers + [p];
    }
  }
}
