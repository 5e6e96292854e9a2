/** The life of the connections of a running server: the main loop accepts and unregisters them, each is served by
    its own loop, and the loops hand tasks to each other through their FIFO queues. A step system over the atomic
    actions of all the loop threads. */
module Lifecycle {
  import opened ConnStates
  import opened Pollers

  type ConnId = nat
  type LoopId = nat

  const MAIN: LoopId := 0

  /** Tasks about a connection that one loop queues in another. */
  datatype Task =
    | EnableTimer(id: ConnId) | ConnectEstablished(id: ConnId)
    | RemoveConnection(id: ConnId) | ConnectDestroyed(id: ConnId)

  /** What happens to a connection that its users or its timer can see. */
  datatype Callback = Up | Down | TimerShutdown | Destroyed

  datatype Timer = NoTimer | Armed(cancelled: bool)

  /** The entry the kernel keeps for the descriptor of a connection in the epoll set of its loop. */
  datatype Watch = Unwatched | Watched(reading: bool, writing: bool)

  /** How far a connection has come; the source has no such field, it follows from the others. */
  datatype Stage = AwaitsTimer | AwaitsUp | Alive | Closed | Unregistered | Gone

  datatype Conn = Conn(
    loop: LoopId,
    state: ConnState,
    index: int,            // registration state of the channel
    reading: bool,
    writing: bool,
    watch: Watch,          // what the kernel watches the descriptor for
    refused: bool,         // has the kernel ever refused an `epoll_ctl` for it?
    idleRelease: bool,     // `_enable_inactive_release_`
    timer: Timer,          // the wheel entry of this id
    log: seq<Callback>,
    stage: Stage)

  datatype Server = Server(
    conns: map<ConnId, Conn>,
    byName: set<ConnId>,   // `_connectionMap_`: names end in the id, so they are as distinct as ids
    byId: set<ConnId>,     // `_connectionIdMap_`
    nextId: nat,
    queues: map<LoopId, seq<Task>>,
    idleTimeout: bool)     // is inactive release switched on?

  function Q(s: Server, l: LoopId): seq<Task> {
    if l in s.queues then s.queues[l] else []
  }

  // ---------------------------------------------------------------- the members of the source

  /** `epoll_ctl`: adding what is present, or modifying or deleting what is absent, is refused and changes nothing. */
  function Ctl(c: Conn, op: CtlOp): Conn {
    if op.CtlAdd? == c.watch.Watched? then c.(refused := true)
    else c.(watch := if op.CtlDel? then Unwatched else Watched(c.reading, c.writing))
  }

  /** `EPollPoller::updateChannel` on one channel. */
  function Updated(c: Conn): Conn {
    if c.index != K_ADDED then Ctl(c, CtlAdd).(index := K_ADDED)
    else if !c.reading && !c.writing then Ctl(c, CtlDel).(index := K_DELETED)
    else Ctl(c, CtlMod)
  }

  /** `EPollPoller::removeChannel` */
  function Removed(c: Conn): Conn {
    (if c.index == K_ADDED then Ctl(c, CtlDel) else c).(index := K_NEW)
  }

  function Enqueue(s: Server, l: LoopId, t: Task): Server {
    s.(queues := s.queues[l := Q(s, l) + [t]])
  }

  function SetConn(s: Server, id: ConnId, c: Conn): Server {
    s.(conns := s.conns[id := c])
  }

  /** `enableInactiveReleaseInLoop` */
  function EnableTimerOn(c: Conn): Conn {
    c.(idleRelease := true, timer := if c.timer.NoTimer? then Armed(false) else c.timer,
       stage := if c.stage.AwaitsTimer? then AwaitsUp else c.stage)
  }

  /** `cancelInactiveReleaseInLoop` */
  function CancelledOn(c: Conn): Conn {
    c.(idleRelease := false, timer := if c.timer.Armed? then Armed(true) else NoTimer)
  }

  /** The wheel drops its last reference to the timer, which is destroyed. */
  function DroppedOn(c: Conn): Conn
    requires c.timer.Armed?
  {
    if c.timer.cancelled then c.(timer := NoTimer)
    else ShutdownOn(c.(timer := NoTimer, log := c.log + [TimerShutdown]))
  }

  /** `connectEstablished` */
  function EstablishedOn(c: Conn): Conn {
    Updated(c.(reading := true)).(state := Connected, log := c.log + [Up], stage := Alive)
  }

  /** `connectDestroyed` */
  function DestroyedOn(c: Conn): Conn {
    var c1 := if c.state.Connected?
              then Updated(c.(reading := false, writing := false)).(state := Disconnected, log := c.log + [Down])
              else c;
    var c2 := if c1.timer.Armed? then CancelledOn(c1) else c1;
    Removed(c2).(log := c2.log + [Destroyed], stage := Gone)
  }

  /** `handlerClose`, up to the close callback */
  function ClosedOn(c: Conn): Conn {
    Updated(c.(reading := false, writing := false)).(state := Disconnected, log := c.log + [Down], stage := Closed)
  }

  /** `shutdown` */
  function ShutdownOn(c: Conn): Conn {
    if c.state.Connected? then c.(state := Disconnecting) else c
  }

  /** `removeConnectionInLoop`: out of both maps, then `connectDestroyed` is queued in the loop of the connection. */
  function RemoveInLoop(s: Server, id: ConnId): Server
    requires id in s.conns
  {
    var c := s.conns[id];
    Enqueue(SetConn(s, id, c.(stage := Unregistered)).(byName := s.byName - {id}, byId := s.byId - {id}),
            c.loop, ConnectDestroyed(id))
  }

  function Execute(s: Server, t: Task): Server
    requires t.id in s.conns
  {
    var c := s.conns[t.id];
    match t
    case EnableTimer(id) => SetConn(s, id, EnableTimerOn(c))
    case ConnectEstablished(id) => SetConn(s, id, EstablishedOn(c))
    case RemoveConnection(id) => RemoveInLoop(s, id)
    case ConnectDestroyed(id) => SetConn(s, id, DestroyedOn(c))
  }

  /** `runInLoop`, called by the thread of loop `current`. */
  function RunInLoop(s: Server, current: LoopId, l: LoopId, t: Task): Server
    requires t.id in s.conns
  {
    if current == l then Execute(s, t) else Enqueue(s, l, t)
  }

  /** A connection just built; `garbage` is what the uninitialised idle-release flag happens to hold. */
  function Fresh(l: LoopId, garbage: bool, idleTimeout: bool): Conn {
    Conn(l, Connecting, K_NEW, false, false, Unwatched, false, garbage, NoTimer, [],
         if idleTimeout then AwaitsTimer else AwaitsUp)
  }

  /** `newConnection` */
  function NewConnection(s: Server, l: LoopId, garbage: bool): Server {
    var id := s.nextId + 1;
    var c := Fresh(l, garbage, s.idleTimeout);
    var s1 := SetConn(s, id, c).(nextId := id, byName := s.byName + {id}, byId := s.byId + {id});
    var s2 := if s.idleTimeout then RunInLoop(s1, MAIN, l, EnableTimer(id)) else s1;
    RunInLoop(s2, MAIN, l, ConnectEstablished(id))
  }

  /** `handlerClose`, run by the loop of the connection: the close callback goes to the main loop. */
  function HandlerClose(s: Server, id: ConnId): Server
    requires id in s.conns
  {
    var c := s.conns[id];
    RunInLoop(SetConn(s, id, ClosedOn(c)), c.loop, MAIN, RemoveConnection(id))
  }

  /** The events reported for a channel. */
  datatype Revents = Revents(in_: bool, pri: bool, out: bool, err: bool, hup: bool)

  /** What reading from the socket gives: bytes, end of file, or an error. */
  datatype ReadOutcome = Data | EndOfFile | ReadFailed

  /** The read callback: the message callback may shut the connection down (`userShutdown`); the end of file closes. */
  function HandlerRead(s: Server, id: ConnId, read: ReadOutcome, userShutdown: bool): Server
    requires id in s.conns
  {
    match read
    case Data => if userShutdown then SetConn(s, id, ShutdownOn(s.conns[id])) else s
    case EndOfFile => HandlerClose(s, id)
    case ReadFailed => s
  }

  /** The write callback, which may drain the output buffer. */
  function HandlerWrite(s: Server, id: ConnId, drained: bool): Server
    requires id in s.conns
  {
    if drained && s.conns[id].writing then SetConn(s, id, Updated(s.conns[id].(writing := false))) else s
  }

  /** `HandlerEventWithGuard`: close, error, read, write, in this order. */
  function HandlerEvent(s: Server, id: ConnId, e: Revents, read: ReadOutcome, userShutdown: bool, drained: bool): Server
    requires id in s.conns
  {
    var s1 := if e.hup && !e.in_ then HandlerClose(s, id) else s;
    var s2 := if e.in_ || e.pri then HandlerRead(s1, id, read, userShutdown) else s1;
    if e.out then HandlerWrite(s2, id, drained) else s2
  }

  // ---------------------------------------------------------------- the step system

  /** The oldest task of loop `l` leaves its queue. */
  function Taken(s: Server, l: LoopId): Server
    requires Q(s, l) != []
  {
    s.(queues := s.queues[l := Q(s, l)[1..]])
  }

  datatype Action =
    | Accept(l: LoopId, garbage: bool)      // main loop: a new connection, served by loop `l`
    | RunTask(l: LoopId)                    // loop `l` runs the oldest task of its queue
    | ChannelEvent(id: ConnId, e: Revents, read: ReadOutcome, userShutdown: bool, drained: bool)
    | UserShutdown(id: ConnId)              // `shutdown` called in the loop of the connection
    | StartWriting(id: ConnId)              // `send` left bytes in the output buffer
    | TimerDropped(id: ConnId)              // the wheel dropped the last reference to the timer of this id

  predicate Enabled(s: Server, a: Action) {
    match a
    case Accept(_, _) => true
    case RunTask(l) => Q(s, l) != [] && Q(s, l)[0].id in s.conns
    case ChannelEvent(id, e, _, _, _) => // epoll reports registered channels only
      id in s.conns && s.conns[id].index == K_ADDED
    case UserShutdown(id) => id in s.conns
    case StartWriting(id) => id in s.conns && s.conns[id].state.Connected?
    case TimerDropped(id) => id in s.conns && s.conns[id].timer.Armed?
  }

  function Step(s: Server, a: Action): Server
    requires Enabled(s, a)
  {
    match a
    case Accept(l, garbage) => NewConnection(s, l, garbage)
    case RunTask(l) => Execute(Taken(s, l), Q(s, l)[0])
    case ChannelEvent(id, e, read, userShutdown, drained) => HandlerEvent(s, id, e, read, userShutdown, drained)
    case UserShutdown(id) => SetConn(s, id, ShutdownOn(s.conns[id]))
    case StartWriting(id) => SetConn(s, id, Updated(s.conns[id].(writing := true)))
    case TimerDropped(id) => SetConn(s, id, DroppedOn(s.conns[id]))
  }

  /** The one dispatch that closes twice: hang-up and urgent data without input, and the read finds the end of file. */
  predicate ClosesTwice(a: Action) {
    a.ChannelEvent? && a.e.hup && a.e.pri && !a.e.in_ && a.read.EndOfFile?
  }

  predicate Legal(s: Server, actions: seq<Action>)
    decreases |actions|
  {
    actions == [] || (Enabled(s, actions[0]) && Legal(Step(s, actions[0]), actions[1..]))
  }

  function Run(s: Server, actions: seq<Action>): Server
    requires Legal(s, actions)
    decreases |actions|
  {
    if actions == [] then s else Run(Step(s, actions[0]), actions[1..])
  }

  function Started(idleTimeout: bool): Server {
    Server(map[], {}, {}, 0, map[], idleTimeout)
  }

  // ---------------------------------------------------------------- what one connection looks like at each stage

  /** The tasks of a queue that concern one connection. */
  function About(q: seq<Task>, id: ConnId): seq<Task> {
    if q == [] then [] else (if q[0].id == id then [q[0]] else []) + About(q[1..], id)
  }

  /** The tasks about a connection at a given stage that wait in loop `l`. */
  function Waiting(id: ConnId, loop: LoopId, stage: Stage, l: LoopId): seq<Task> {
    match stage
    case AwaitsTimer => if l == loop then [EnableTimer(id), ConnectEstablished(id)] else []
    case AwaitsUp => if l == loop then [ConnectEstablished(id)] else []
    case Closed => if l == MAIN then [RemoveConnection(id)] else []
    case Unregistered => if l == loop then [ConnectDestroyed(id)] else []
    case Alive => []
    case Gone => []
  }

  /** The log with the timer's calls left out. */
  function Life(log: seq<Callback>): seq<Callback> {
    if log == [] then [] else
      var front := Life(log[..|log| - 1]);
      if log[|log| - 1].TimerShutdown? then front else front + [log[|log| - 1]]
  }

  ghost predicate Sound(c: Conn) {
    match c.stage
    case AwaitsTimer => c.state.Connecting? && c.index == K_NEW && !c.reading && !c.writing
                        && c.timer.NoTimer? && c.log == []
    case AwaitsUp => c.state.Connecting? && c.index == K_NEW && !c.reading && !c.writing
                     && c.timer != Armed(true) && Life(c.log) == []
    case Alive => (c.state.Connected? || c.state.Disconnecting?) && c.index == K_ADDED && c.reading
                  && c.timer != Armed(true) && Life(c.log) == [Up]
    case Closed => Shut(c) && c.index == K_DELETED && c.timer != Armed(true) && Life(c.log) == [Up, Down]
    case Unregistered => Shut(c) && c.index == K_DELETED && c.timer != Armed(true) && Life(c.log) == [Up, Down]
    case Gone => Shut(c) && c.index == K_NEW && c.timer != Armed(false) && Life(c.log) == [Up, Down, Destroyed]
                 && c.log[|c.log| - 1].Destroyed?
  }

  predicate Shut(c: Conn) {
    c.state.Disconnected? && !c.reading && !c.writing
  }

  predicate Registered(stage: Stage) {
    !stage.Unregistered? && !stage.Gone?
  }

  ghost predicate Ok(s: Server, id: ConnId)
    requires id in s.conns
  {
    var c := s.conns[id];
    && Sound(c)
    && (id in s.byName <==> Registered(c.stage))
    && (id in s.byId <==> Registered(c.stage))
    && (forall l: LoopId :: About(Q(s, l), id) == Waiting(id, c.loop, c.stage, l))
  }

  ghost predicate Invariant(s: Server) {
    && (forall id :: id in s.conns ==> id <= s.nextId && Ok(s, id))
    && TasksKnown(s)
    && (forall id :: id in s.byName || id in s.byId ==> id in s.conns)
  }

  ghost predicate TasksKnown(s: Server) {
    forall l: LoopId, t :: t in Q(s, l) ==> t.id in s.conns
  }

  // ---------------------------------------------------------------- queues, seen from one connection

  lemma {:induction false} AboutAppend(q: seq<Task>, t: Task, id: ConnId)
    ensures About(q + [t], id) == About(q, id) + if t.id == id then [t] else []
  {
    var q' := q + [t];
    if q == [] {
      assert q' == [t];
    } else {
      var first, rest := if q[0].id == id then [q[0]] else [], q[1..];
      AboutAppend(rest, t, id);
      assert q'[0] == q[0] && q'[1..] == rest + [t];
      assert About(q', id) == first + About(rest + [t], id) && About(q, id) == first + About(rest, id);
    }
  }

  lemma {:induction false} AboutHasIt(q: seq<Task>, t: Task)
    ensures t in q <==> t in About(q, t.id)
  {
    if q != [] {
      AboutHasIt(q[1..], t);
      assert q == [q[0]] + q[1..];
    }
  }

  lemma {:induction false} AboutStrangers(q: seq<Task>, id: ConnId)
    requires forall t :: t in q ==> t.id != id
    ensures About(q, id) == []
  {
    if q != [] {
      AboutStrangers(q[1..], id);
    }
  }

  /** Nothing about connection `j` differs between the two servers. */
  ghost predicate SameFor(s: Server, s': Server, j: ConnId) {
    && (j in s.conns <==> j in s'.conns)
    && (j in s.conns ==> s.conns[j] == s'.conns[j])
    && (j in s.byName <==> j in s'.byName)
    && (j in s.byId <==> j in s'.byId)
    && (forall l: LoopId :: About(Q(s, l), j) == About(Q(s', l), j))
  }

  lemma EnqueueTouchesOne(s: Server, l: LoopId, t: Task)
    ensures var s' := Enqueue(s, l, t);
            && (forall j :: j != t.id ==> SameFor(s, s', j))
            && (forall k: LoopId :: About(Q(s', k), t.id) == About(Q(s, k), t.id) + if k == l then [t] else [])
            && (forall k: LoopId, u :: u in Q(s', k) ==> u in Q(s, k) || u == t)
            && s'.conns == s.conns && s'.byName == s.byName && s'.byId == s.byId && s'.nextId == s.nextId
  {
    var s' := Enqueue(s, l, t);
    forall j: ConnId, k: LoopId
      ensures About(Q(s', k), j) == About(Q(s, k), j) + if k == l && j == t.id then [t] else [] {
      AboutAppend(Q(s, l), t, j);
    }
  }

  lemma TakeTouchesOne(s: Server, l: LoopId)
    requires Q(s, l) != []
    ensures var t := Q(s, l)[0];
            var s' := Taken(s, l);
            && (forall j :: j != t.id ==> SameFor(s, s', j))
            && About(Q(s, l), t.id) == [t] + About(Q(s', l), t.id)
            && (forall k: LoopId :: k != l ==> Q(s', k) == Q(s, k))
            && (forall k: LoopId, u :: u in Q(s', k) ==> u in Q(s, k))
  {
  }

  lemma LifeAppend(log: seq<Callback>, x: Callback)
    ensures Life(log + [x]) == if x.TimerShutdown? then Life(log) else Life(log) + [x]
  {
    assert (log + [x])[..|log|] == log;
  }

  /** `s'` differs from the sound server `s` only in connection `id`, and there only the queues may still be wrong. */
  ghost predicate Draft(s: Server, s': Server, id: ConnId) {
    && Invariant(s)
    && s.nextId <= s'.nextId && id in s'.conns && id <= s'.nextId
    && (forall j :: j != id ==> SameFor(s, s', j))
    && TasksKnown(s')
    && Sound(s'.conns[id])
    && (id in s'.byName <==> Registered(s'.conns[id].stage))
    && (id in s'.byId <==> Registered(s'.conns[id].stage))
  }

  /** The queues of `s` hold about `id` exactly `tasks`, all in loop `l`. */
  ghost predicate Holds(s: Server, id: ConnId, l: LoopId, tasks: seq<Task>) {
    forall k: LoopId :: About(Q(s, k), id) == if k == l then tasks else []
  }

  /** With the right tasks waiting, a draft is sound. */
  lemma Complete(s: Server, s': Server, id: ConnId, l: LoopId)
    requires Draft(s, s', id)
    requires var c := s'.conns[id];
             && Holds(s', id, l, Waiting(id, c.loop, c.stage, l))
             && (forall k: LoopId :: k != l ==> Waiting(id, c.loop, c.stage, k) == [])
    ensures Invariant(s')
  {
    hide Sound, Waiting, About;
    forall j | j in s'.conns && j != id ensures j <= s'.nextId && Ok(s', j) {
      assert SameFor(s, s', j) && Ok(s, j);
    }
    forall j | j != id && (j in s'.byName || j in s'.byId) ensures j in s'.conns {
      assert SameFor(s, s', j);
    }
    assert Ok(s', id);
  }

  /** Queueing a task about `id` is the last change that is missing. */
  lemma EnqueueDraft(s: Server, s1: Server, l: LoopId, t: Task, tasks: seq<Task>)
    requires Draft(s, s1, t.id) && Holds(s1, t.id, l, tasks)
    ensures Draft(s, Enqueue(s1, l, t), t.id) && Holds(Enqueue(s1, l, t), t.id, l, tasks + [t])
  {
    hide Sound, About;
    EnqueueTouchesOne(s1, l, t);
    var s2 := Enqueue(s1, l, t);
    forall j | j != t.id ensures SameFor(s, s2, j) {
      assert SameFor(s, s1, j) && SameFor(s1, s2, j);
    }
  }

  /** Replacing connection `id` and its map entries, with the queues as they are. */
  lemma ReplaceDraft(s: Server, s0: Server, id: ConnId, c: Conn, s1: Server)
    requires Invariant(s) && s0.conns.Keys == s.conns.Keys && s0.nextId == s.nextId && id in s.conns && TasksKnown(s0)
    requires forall j :: j != id ==> SameFor(s, s0, j)
    requires Sound(c) && s1.conns == s0.conns[id := c] && s1.queues == s0.queues && s1.nextId == s0.nextId
    requires s1.byName == (if Registered(c.stage) then s0.byName + {id} else s0.byName - {id})
    requires s1.byId == (if Registered(c.stage) then s0.byId + {id} else s0.byId - {id})
    ensures Draft(s, s1, id) && forall k: LoopId :: Q(s1, k) == Q(s0, k)
  {
    hide Sound, About;
    assert Ok(s, id);
    assert forall k: LoopId :: Q(s1, k) == Q(s0, k);
    forall j | j != id ensures SameFor(s, s1, j) {
      assert SameFor(s, s0, j);
    }
  }

  lemma SameForItself(s: Server)
    ensures forall j :: SameFor(s, s, j)
  {
  }

  // ---------------------------------------------------------------- every action keeps the invariant

  /** A change of one connection that leaves its stage alone. */
  lemma LocalChangeKeeps(s: Server, id: ConnId, c: Conn)
    requires Invariant(s) && id in s.conns && Sound(c)
    requires c.stage == s.conns[id].stage && c.loop == s.conns[id].loop
    ensures Invariant(SetConn(s, id, c))
  {
    var s' := SetConn(s, id, c);
    assert Ok(s, id);
    hide Sound, About;
    assert forall l: LoopId :: Q(s', l) == Q(s, l);
    forall j | j in s'.conns ensures j <= s'.nextId && Ok(s', j) {
      assert Ok(s, j);
    }
    assert s'.conns.Keys == s.conns.Keys;
    assert TasksKnown(s');
  }

  lemma CloseIsSound(c: Conn)
    requires Sound(c) && c.stage.Alive?
    ensures Sound(ClosedOn(c)) && ClosedOn(c).stage.Closed? && ClosedOn(c).loop == c.loop
    ensures Sound(ClosedOn(c).(stage := Unregistered))
  {
    LifeAppend(c.log, Down);
    hide Life;
  }

  /** `removeConnectionInLoop` takes a closed connection, whose removal task is gone from the queue, to unregistered. */
  lemma RemoveKeeps(s: Server, s0: Server, id: ConnId)
    requires Invariant(s) && s0.conns.Keys == s.conns.Keys && s0.nextId == s.nextId && id in s.conns && TasksKnown(s0)
    requires forall j :: j != id ==> SameFor(s, s0, j)
    requires s0.byName == s.byName && s0.byId == s.byId
    requires s0.conns[id].stage.Closed? && Sound(s0.conns[id])
    requires Holds(s0, id, MAIN, [])
    ensures Invariant(RemoveInLoop(s0, id)) && RemoveInLoop(s0, id).conns[id].stage.Unregistered?
  {
    var c := s0.conns[id];
    var c' := c.(stage := Unregistered);
    var s1 := SetConn(s0, id, c').(byName := s0.byName - {id}, byId := s0.byId - {id});
    assert Sound(c');
    hide About, Life, Sound, Invariant, SameFor, TasksKnown;
    ReplaceDraft(s, s0, id, c', s1);
    assert Holds(s1, id, c.loop, []);
    hide Draft;
    EnqueueDraft(s, s1, c.loop, ConnectDestroyed(id), []);
    Complete(s, Enqueue(s1, c.loop, ConnectDestroyed(id)), id, c.loop);
  }

  lemma CloseKeeps(s: Server, id: ConnId)
    requires Invariant(s) && id in s.conns && s.conns[id].stage.Alive?
    ensures Invariant(HandlerClose(s, id))
    ensures id in HandlerClose(s, id).conns && HandlerClose(s, id).conns[id].stage in {Closed, Unregistered}
  {
    hide About, Life, Sound, SameFor, TasksKnown, ClosedOn;
    var c, c' := s.conns[id], ClosedOn(s.conns[id]);
    var s1 := SetConn(s, id, c');
    assert Ok(s, id);
    CloseIsSound(c);
    SameForItself(s);
    assert s.byName == s.byName + {id} && s.byId == s.byId + {id};
    ReplaceDraft(s, s, id, c', s1);
    assert Holds(s1, id, MAIN, []);
    if c.loop == MAIN {
      RemoveKeeps(s, s1, id);
    } else {
      hide Draft, Invariant;
      EnqueueDraft(s, s1, MAIN, RemoveConnection(id), []);
      Complete(s, Enqueue(s1, MAIN, RemoveConnection(id)), id, MAIN);
    }
  }

  lemma AddedIsAlive(s: Server, id: ConnId)
    requires Invariant(s) && id in s.conns && s.conns[id].index == K_ADDED
    ensures Ok(s, id) && s.conns[id].stage.Alive?
  {
    assert Ok(s, id);
  }

  lemma ReadKeeps(s: Server, id: ConnId, read: ReadOutcome, userShutdown: bool)
    requires Invariant(s) && id in s.conns && (read.EndOfFile? ==> s.conns[id].stage.Alive?)
    ensures Invariant(HandlerRead(s, id, read, userShutdown)) && id in HandlerRead(s, id, read, userShutdown).conns
  {
    hide About, Waiting, HandlerClose, TasksKnown;
    assert Ok(s, id);
    if read.EndOfFile? {
      CloseKeeps(s, id);
    } else {
      LocalChangeKeeps(s, id, ShutdownOn(s.conns[id]));
    }
  }

  lemma WriteKeeps(s: Server, id: ConnId, drained: bool)
    requires Invariant(s) && id in s.conns
    ensures Invariant(HandlerWrite(s, id, drained))
  {
    hide About, Waiting, TasksKnown;
    assert Ok(s, id);
    if drained && s.conns[id].writing {
      LocalChangeKeeps(s, id, Updated(s.conns[id].(writing := false)));
    }
  }

  lemma EventKeeps(s: Server, id: ConnId, e: Revents, read: ReadOutcome, userShutdown: bool, drained: bool)
    requires Invariant(s) && id in s.conns && s.conns[id].index == K_ADDED
    requires !(e.hup && e.pri && !e.in_ && read.EndOfFile?)
    ensures Invariant(HandlerEvent(s, id, e, read, userShutdown, drained))
  {
    hide Invariant, HandlerClose, HandlerRead, HandlerWrite, Ok;
    AddedIsAlive(s, id);
    CloseKeeps(s, id);
    var s1 := if e.hup && !e.in_ then HandlerClose(s, id) else s;
    if e.in_ || e.pri {
      ReadKeeps(s1, id, read, userShutdown);
    }
    var s2 := if e.in_ || e.pri then HandlerRead(s1, id, read, userShutdown) else s1;
    WriteKeeps(s2, id, drained);
  }

  /** Which task is at the head of a queue says at which stage its connection is, and what else waits for it. */
  lemma HeadTask(s: Server, l: LoopId)
    requires Invariant(s) && Q(s, l) != [] && Q(s, l)[0].id in s.conns
    ensures var t := Q(s, l)[0];
            var c := s.conns[t.id];
            var s0 := Taken(s, l);
            && match t
               case EnableTimer(id) => c.stage.AwaitsTimer? && l == c.loop && Holds(s0, id, l, [ConnectEstablished(id)])
               case ConnectEstablished(id) => c.stage.AwaitsUp? && l == c.loop && Holds(s0, id, l, [])
               case RemoveConnection(id) => c.stage.Closed? && l == MAIN && Holds(s0, id, l, [])
               case ConnectDestroyed(id) => c.stage.Unregistered? && l == c.loop && Holds(s0, id, l, [])
  {
    var t := Q(s, l)[0];
    var c := s.conns[t.id];
    var s0 := Taken(s, l);
    TakeTouchesOne(s, l);
    assert Ok(s, t.id);
    hide About, Sound, TasksKnown, Invariant;
    var rest := About(Q(s0, l), t.id);
    assert [t] + rest == Waiting(t.id, c.loop, c.stage, l);
    assert rest == Waiting(t.id, c.loop, c.stage, l)[1..] && t == Waiting(t.id, c.loop, c.stage, l)[0];
    assert forall k: LoopId :: k != l ==> About(Q(s0, k), t.id) == Waiting(t.id, c.loop, c.stage, k);
  }

  /** The tasks that do not queue others keep a connection sound. */
  lemma TaskIsSound(c: Conn, t: Task)
    requires Sound(c)
    ensures t.EnableTimer? && c.stage.AwaitsTimer? ==>
              Sound(EnableTimerOn(c)) && EnableTimerOn(c).stage.AwaitsUp? && EnableTimerOn(c).loop == c.loop
    ensures t.ConnectEstablished? && c.stage.AwaitsUp? ==>
              Sound(EstablishedOn(c)) && EstablishedOn(c).stage.Alive? && EstablishedOn(c).loop == c.loop
    ensures t.ConnectDestroyed? && c.stage.Unregistered? ==>
              Sound(DestroyedOn(c)) && DestroyedOn(c).stage.Gone? && DestroyedOn(c).loop == c.loop
  {
    match t {
      case EnableTimer(_) =>
      case ConnectEstablished(_) => if c.stage.AwaitsUp? { EstablishedIsSound(c); }
      case RemoveConnection(_) =>
      case ConnectDestroyed(_) => if c.stage.Unregistered? { DestroyedIsSound(c); }
    }
    hide Life, EstablishedOn, DestroyedOn;
  }

  lemma EstablishedIsSound(c: Conn)
    requires Sound(c) && c.stage.AwaitsUp?
    ensures var c' := EstablishedOn(c); Sound(c') && c'.stage.Alive? && c'.loop == c.loop
  {
    hide Life;
    LifeAppend(c.log, Up);
    assert [] + [Up] == [Up];
  }

  lemma DestroyedIsSound(c: Conn)
    requires Sound(c) && c.stage.Unregistered?
    ensures var c' := DestroyedOn(c); Sound(c') && c'.stage.Gone? && c'.loop == c.loop
  {
    hide Life, Ctl;
    LifeAppend(c.log, Destroyed);
  }

  /** Taking a task only touches the queue of its connection. */
  lemma TakenIsFrame(s: Server, l: LoopId)
    requires Invariant(s) && Enabled(s, RunTask(l))
    ensures TasksKnown(Taken(s, l)) && forall j :: j != Q(s, l)[0].id ==> SameFor(s, Taken(s, l), j)
  {
    TakeTouchesOne(s, l);
    hide SameFor, About, Ok;
    assert TasksKnown(s);
  }

  lemma MapsMatch(s: Server, id: ConnId)
    requires Invariant(s) && id in s.conns
    ensures Sound(s.conns[id])
    ensures s.byName == if Registered(s.conns[id].stage) then s.byName + {id} else s.byName - {id}
    ensures s.byId == if Registered(s.conns[id].stage) then s.byId + {id} else s.byId - {id}
  {
    assert Ok(s, id);
  }

  /** Running a task that only changes its connection, after taking it from the queue. */
  lemma ChangeAfterTaking(s: Server, l: LoopId, c: Conn)
    requires Invariant(s) && Enabled(s, RunTask(l)) && Sound(c)
    requires var id := Q(s, l)[0].id;
             && Registered(c.stage) == Registered(s.conns[id].stage)
             && Holds(Taken(s, l), id, l, Waiting(id, c.loop, c.stage, l))
             && (forall k: LoopId :: k != l ==> Waiting(id, c.loop, c.stage, k) == [])
    ensures Invariant(SetConn(Taken(s, l), Q(s, l)[0].id, c))
  {
    var id := Q(s, l)[0].id;
    var s0, s1 := Taken(s, l), SetConn(Taken(s, l), id, c);
    hide About, Life, Sound, SameFor, TasksKnown, Invariant, Waiting, Draft;
    TakenIsFrame(s, l);
    MapsMatch(s, id);
    ReplaceDraft(s, s0, id, c, s1);
    Complete(s, s1, id, l);
  }

  lemma TaskKeeps(s: Server, l: LoopId)
    requires Invariant(s) && Enabled(s, RunTask(l))
    ensures Invariant(Step(s, RunTask(l)))
  {
    hide About, Life, Sound, SameFor, TasksKnown, Invariant, EnableTimerOn, EstablishedOn, DestroyedOn;
    var t := Q(s, l)[0];
    var c := s.conns[t.id];
    MapsMatch(s, t.id);
    HeadTask(s, l);
    TaskIsSound(c, t);
    TakenIsFrame(s, l);
    match t {
      case EnableTimer(_) => ChangeAfterTaking(s, l, EnableTimerOn(c));
      case ConnectEstablished(_) => ChangeAfterTaking(s, l, EstablishedOn(c));
      case RemoveConnection(id) => RemoveKeeps(s, Taken(s, l), id);
      case ConnectDestroyed(_) => ChangeAfterTaking(s, l, DestroyedOn(c));
    }
  }

  lemma NewIsSound(l: LoopId, garbage: bool, idleTimeout: bool)
    ensures var c := Fresh(l, garbage, idleTimeout);
            && Sound(c)
            && (idleTimeout ==>
                  && Sound(EnableTimerOn(c)) && EnableTimerOn(c).stage.AwaitsUp?
                  && Sound(EstablishedOn(EnableTimerOn(c))))
            && (!idleTimeout ==> Sound(EstablishedOn(c)))
  {
    LifeAppend([], Up);
  }

  lemma AcceptDraft(s: Server, s1: Server, id: ConnId, c: Conn)
    requires Invariant(s) && id == s.nextId + 1 && Sound(c) && Registered(c.stage)
    requires s1 == SetConn(s, id, c).(nextId := id, byName := s.byName + {id}, byId := s.byId + {id})
    ensures Draft(s, s1, id) && forall l: LoopId :: Holds(s1, id, l, [])
  {
    forall k: LoopId ensures About(Q(s1, k), id) == [] {
      AboutStrangers(Q(s, k), id);
    }
    hide Sound, About;
    assert forall k: LoopId :: Q(s1, k) == Q(s, k);
  }

  lemma AcceptKeeps(s: Server, l: LoopId, garbage: bool)
    requires Invariant(s)
    ensures Invariant(NewConnection(s, l, garbage))
  {
    var id := s.nextId + 1;
    var c := Fresh(l, garbage, s.idleTimeout);
    NewIsSound(l, garbage, s.idleTimeout);
    hide About, Life, Sound, SameFor, TasksKnown, Invariant, Draft;
    if l == MAIN {
      // everything runs inline
      var c' := EstablishedOn(if s.idleTimeout then EnableTimerOn(c) else c);
      var s1 := SetConn(s, id, c').(nextId := id, byName := s.byName + {id}, byId := s.byId + {id});
      AcceptDraft(s, s1, id, c');
      Complete(s, s1, id, l);
      assert NewConnection(s, l, garbage).conns == s1.conns;
    } else {
      var s1 := SetConn(s, id, c).(nextId := id, byName := s.byName + {id}, byId := s.byId + {id});
      AcceptDraft(s, s1, id, c);
      if s.idleTimeout {
        EnqueueDraft(s, s1, l, EnableTimer(id), []);
        var s2 := Enqueue(s1, l, EnableTimer(id));
        EnqueueDraft(s, s2, l, ConnectEstablished(id), [EnableTimer(id)]);
        Complete(s, Enqueue(s2, l, ConnectEstablished(id)), id, l);
      } else {
        EnqueueDraft(s, s1, l, ConnectEstablished(id), []);
        Complete(s, Enqueue(s1, l, ConnectEstablished(id)), id, l);
      }
    }
  }

  lemma LocalIsSound(c: Conn)
    requires Sound(c)
    ensures Sound(ShutdownOn(c))
    ensures c.state.Connected? ==> Sound(Updated(c.(writing := true)))
    ensures c.timer == Armed(true) ==> Sound(c.(timer := NoTimer))
    ensures c.timer == Armed(false) ==> Sound(ShutdownOn(c.(timer := NoTimer, log := c.log + [TimerShutdown])))
  {
    LifeAppend(c.log, TimerShutdown);
    hide Life;
  }

  /** The actions that change one connection and no queue. */
  lemma LocalActionKeeps(s: Server, a: Action)
    requires Invariant(s) && Enabled(s, a) && (a.UserShutdown? || a.StartWriting? || a.TimerDropped?)
    ensures Invariant(Step(s, a))
  {
    var c := s.conns[a.id];
    MapsMatch(s, a.id);
    LocalIsSound(c);
    hide Sound, Invariant, Ok;
    LocalChangeKeeps(s, a.id, Step(s, a).conns[a.id]);
  }

  /** The timer of an idle connection shuts it down when it is dropped, exactly unless it was cancelled before; after
      a cancellation its end leaves no trace but its absence. */
  lemma DroppedTimerShutsDownIff(c: Conn)
    requires c.timer.Armed?
    ensures var d := DroppedOn(c);
            && (d.log != c.log <==> !c.timer.cancelled)
            && (d.state != c.state <==> !c.timer.cancelled && c.state.Connected?)
            && (d.state != c.state ==> d.state.Disconnecting?)
    ensures var d := DroppedOn(CancelledOn(c)); d == c.(idleRelease := false, timer := NoTimer)
    ensures CancelledOn(CancelledOn(c)) == CancelledOn(c)
  {
    assert |c.log + [TimerShutdown]| == |c.log| + 1;
  }

  lemma StepKeepsInvariant(s: Server, a: Action)
    requires Invariant(s) && Enabled(s, a) && !ClosesTwice(a)
    ensures Invariant(Step(s, a))
  {
    hide Invariant, NewConnection, HandlerEvent, Execute;
    match a {
      case Accept(l, garbage) => AcceptKeeps(s, l, garbage);
      case RunTask(l) => TaskKeeps(s, l);
      case ChannelEvent(id, e, read, userShutdown, drained) => EventKeeps(s, id, e, read, userShutdown, drained);
      case _ => LocalActionKeeps(s, a);
    }
  }

  lemma {:induction false} RunKeepsInvariant(s: Server, actions: seq<Action>)
    requires Invariant(s) && Legal(s, actions) && forall a :: a in actions ==> !ClosesTwice(a)
    ensures Invariant(Run(s, actions))
    decreases |actions|
  {
    if actions != [] {
      StepKeepsInvariant(s, actions[0]);
      hide Invariant, Step, Enabled, ClosesTwice;
      RunKeepsInvariant(Step(s, actions[0]), actions[1..]);
    }
  }

  // ---------------------------------------------------------------- one connection among the others

  lemma NoLifeYet()
    ensures Life([]) == []
  {
  }

  lemma DestroyTaskByStage(s: Server, id: ConnId)
    requires id in s.conns && Ok(s, id)
    ensures var c := s.conns[id];
            && (Down in Life(c.log) <==> c.stage.Closed? || c.stage.Unregistered? || c.stage.Gone?)
            && (Destroyed in Life(c.log) <==> c.stage.Gone?)
            && (c.stage.Closed? ==> Holds(s, id, MAIN, [RemoveConnection(id)]))
            && (c.stage.Unregistered? ==> Holds(s, id, c.loop, [ConnectDestroyed(id)]))
            && (c.stage.Gone? ==> Holds(s, id, MAIN, []))
  {
    hide About, Life;
    NoLifeYet();
  }

  /** The connection an action is about. */
  function Subject(s: Server, a: Action): ConnId
    requires Enabled(s, a)
  {
    match a
    case Accept(_, _) => s.nextId + 1
    case RunTask(l) => Q(s, l)[0].id
    case ChannelEvent(id, _, _, _, _) => id
    case UserShutdown(id) => id
    case StartWriting(id) => id
    case TimerDropped(id) => id
  }

  /** Nothing changes but connection `id`, and its log only grows. */
  ghost predicate ChangesOne(s: Server, s': Server, id: ConnId) {
    && id in s'.conns && s'.conns == s.conns[id := s'.conns[id]] && s'.nextId == s.nextId
    && (id in s.conns ==> s.conns[id].log <= s'.conns[id].log)
  }

  lemma CloseChangesOne(s: Server, id: ConnId)
    requires id in s.conns
    ensures ChangesOne(s, HandlerClose(s, id), id)
    ensures HandlerClose(s, id).conns[id].log == s.conns[id].log + [Down]
  {
  }

  lemma ExecuteChangesOne(s: Server, t: Task)
    requires t.id in s.conns
    ensures ChangesOne(s, Execute(s, t), t.id)
  {
  }

  lemma EventChangesOne(s: Server, id: ConnId, e: Revents, read: ReadOutcome, userShutdown: bool, drained: bool)
    requires id in s.conns
    ensures ChangesOne(s, HandlerEvent(s, id, e, read, userShutdown, drained), id)
  {
    hide HandlerClose, HandlerRead, HandlerWrite;
    CloseChangesOne(s, id);
    var s1 := if e.hup && !e.in_ then HandlerClose(s, id) else s;
    ReadChangesOne(s1, id, read, userShutdown);
    var s2 := if e.in_ || e.pri then HandlerRead(s1, id, read, userShutdown) else s1;
    WriteChangesOne(s2, id, drained);
  }

  lemma ReadChangesOne(s: Server, id: ConnId, read: ReadOutcome, userShutdown: bool)
    requires id in s.conns
    ensures ChangesOne(s, HandlerRead(s, id, read, userShutdown), id)
  {
    hide HandlerClose;
    CloseChangesOne(s, id);
  }

  lemma WriteChangesOne(s: Server, id: ConnId, drained: bool)
    requires id in s.conns
    ensures ChangesOne(s, HandlerWrite(s, id, drained), id)
  {
  }

  /** Every action leaves all other connections alone and keeps what was logged. */
  lemma OnlySubjectChanges(s: Server, a: Action)
    requires Enabled(s, a)
    ensures a.Accept? ==> var id := s.nextId + 1;
                          && id in Step(s, a).conns && Step(s, a).conns == s.conns[id := Step(s, a).conns[id]]
                          && Step(s, a).nextId == id
    ensures !a.Accept? ==> ChangesOne(s, Step(s, a), Subject(s, a))
  {
    match a {
      case Accept(l, garbage) =>
      case RunTask(l) =>
        ExecuteChangesOne(Taken(s, l), Q(s, l)[0]);
        hide Execute;
      case ChannelEvent(id, e, read, userShutdown, drained) =>
        EventChangesOne(s, id, e, read, userShutdown, drained);
        hide HandlerEvent;
      case _ =>
        hide NewConnection, HandlerEvent, Execute;
    }
  }

  // ---------------------------------------------------------------- the dispatch that closes twice

  /** New ids are new, even on a server whose invariant is broken. */
  ghost predicate IdsBelow(s: Server) {
    forall id :: id in s.conns ==> id <= s.nextId
  }

  lemma LogsOnlyGrow(s: Server, a: Action, id: ConnId)
    requires Enabled(s, a) && IdsBelow(s)
    ensures IdsBelow(Step(s, a))
    ensures id in s.conns ==> id in Step(s, a).conns && s.conns[id].log <= Step(s, a).conns[id].log
  {
    OnlySubjectChanges(s, a);
    hide Step, NewConnection;
  }

  function Downs(log: seq<Callback>): nat {
    multiset(log)[Down]
  }

  lemma MoreDowns(log: seq<Callback>, log': seq<Callback>)
    requires log <= log'
    ensures Downs(log) <= Downs(log')
  {
    assert log' == log + log'[|log|..];
  }

  /** Two disconnected callbacks stay two. */
  lemma {:induction false} DownsOnlyGrow(s: Server, actions: seq<Action>, id: ConnId)
    requires Legal(s, actions) && IdsBelow(s) && id in s.conns
    ensures id in Run(s, actions).conns && Downs(s.conns[id].log) <= Downs(Run(s, actions).conns[id].log)
    decreases |actions|
  {
    if actions != [] {
      var s' := Step(s, actions[0]);
      LogsOnlyGrow(s, actions[0], id);
      MoreDowns(s.conns[id].log, s'.conns[id].log);
      hide Step, Enabled, IdsBelow, Downs;
      DownsOnlyGrow(s', actions[1..], id);
    }
  }

  lemma LifeDowns(log: seq<Callback>)
    ensures Downs(log) == Downs(Life(log))
  {
    if log != [] {
      var front, last := log[..|log| - 1], log[|log| - 1];
      assert log == front + [last];
      LifeDowns(front);
    }
  }

  lemma TwiceClosed(s: Server, a: Action)
    requires Invariant(s) && Enabled(s, a) && ClosesTwice(a)
    ensures IdsBelow(Step(s, a)) && a.id in Step(s, a).conns && Downs(Step(s, a).conns[a.id].log) >= 2
  {
    hide HandlerClose, HandlerWrite, Invariant, Downs;
    var c, s1 := s.conns[a.id], HandlerClose(s, a.id);
    BelowNextId(s);
    LogsOnlyGrow(s, a, a.id);
    CloseChangesOne(s, a.id);
    CloseChangesOne(s1, a.id);
    var s2 := HandlerClose(s1, a.id);
    WriteChangesOne(s2, a.id, a.drained);
    TwoDowns(c.log, Step(s, a).conns[a.id].log);
  }

  lemma BelowNextId(s: Server)
    requires Invariant(s)
    ensures IdsBelow(s)
  {
  }

  lemma TwoDowns(log: seq<Callback>, log': seq<Callback>)
    requires log + [Down] + [Down] <= log'
    ensures Downs(log') >= 2
  {
    MoreDowns(log + [Down] + [Down], log');
  }

  ghost predicate DisconnectedOnce(s: Server) {
    forall id :: id in s.conns ==> Downs(s.conns[id].log) <= 1
  }

  ghost predicate NoDoubleClose(actions: seq<Action>) {
    forall a :: a in actions ==> !ClosesTwice(a)
  }

  lemma SoundMeansOnce(s: Server)
    requires Invariant(s)
    ensures DisconnectedOnce(s)
  {
    forall id | id in s.conns ensures Downs(s.conns[id].log) <= 1 {
      assert Ok(s, id);
      LifeDowns(s.conns[id].log);
    }
  }

  lemma {:induction false} DoubleCloseShows(s: Server, actions: seq<Action>)
    requires Invariant(s) && Legal(s, actions) && !NoDoubleClose(actions)
    ensures !DisconnectedOnce(Run(s, actions))
    decreases |actions|
  {
    var a, s' := actions[0], Step(s, actions[0]);
    if ClosesTwice(a) {
      TwiceClosed(s, a);
      DownsOnlyGrow(s', actions[1..], a.id);
    } else {
      StepKeepsInvariant(s, a);
      assert !NoDoubleClose(actions[1..]) by {
        var b :| b in actions && ClosesTwice(b);
        assert b in actions[1..];
      }
      hide Invariant, Step, Enabled, ClosesTwice, DisconnectedOnce, NoDoubleClose;
      DoubleCloseShows(s', actions[1..]);
    }
  }

  /** The disconnected callback runs at most once on every connection exactly when no dispatch reports hang-up and
      urgent data without input while the read finds the end of the stream. */
  lemma {:induction false} DisconnectedOnceIffNoDoubleClose(idleTimeout: bool, actions: seq<Action>)
    requires Legal(Started(idleTimeout), actions)
    ensures DisconnectedOnce(Run(Started(idleTimeout), actions)) <==> NoDoubleClose(actions)
  {
    NewServerIsSound(idleTimeout);
    if NoDoubleClose(actions) {
      RunKeepsInvariant(Started(idleTimeout), actions);
      SoundMeansOnce(Run(Started(idleTimeout), actions));
    } else {
      DoubleCloseShows(Started(idleTimeout), actions);
    }
  }

  lemma NewServerIsSound(idleTimeout: bool)
    ensures Invariant(Started(idleTimeout))
  {
  }

  // ---------------------------------------------------------------- connections that are over

  /** A connection that has been destroyed has a new channel and is not connected, whatever dispatches there were. */
  ghost predicate GoneIsClosed(s: Server) {
    forall id :: id in s.conns && s.conns[id].stage.Gone? ==>
      s.conns[id].index == K_NEW && !s.conns[id].state.Connected?
  }

  lemma CloseLeavesOpen(s: Server, id: ConnId)
    requires id in s.conns
    ensures var s' := HandlerClose(s, id); id in s'.conns && !s'.conns[id].stage.Gone?
  {
    hide Updated;
  }

  lemma ReadLeavesOpen(s: Server, id: ConnId, read: ReadOutcome, userShutdown: bool)
    requires id in s.conns && !s.conns[id].stage.Gone?
    ensures var s' := HandlerRead(s, id, read, userShutdown); id in s'.conns && !s'.conns[id].stage.Gone?
  {
    hide HandlerClose;
    CloseLeavesOpen(s, id);
  }

  lemma EventLeavesOpen(s: Server, id: ConnId, e: Revents, read: ReadOutcome, userShutdown: bool, drained: bool)
    requires id in s.conns && !s.conns[id].stage.Gone?
    ensures var s' := HandlerEvent(s, id, e, read, userShutdown, drained);
            id in s'.conns && !s'.conns[id].stage.Gone?
  {
    hide HandlerClose, HandlerRead, Updated;
    CloseLeavesOpen(s, id);
    var s1 := if e.hup && !e.in_ then HandlerClose(s, id) else s;
    ReadLeavesOpen(s1, id, read, userShutdown);
    var s2 := if e.in_ || e.pri then HandlerRead(s1, id, read, userShutdown) else s1;
    UpdateKeepsStage(s2.conns[id].(writing := false));
  }

  lemma UpdateKeepsStage(c: Conn)
    ensures Updated(c).stage == c.stage
  {
  }

  lemma CallsKeepGoneClosed(c: Conn)
    ensures EnableTimerOn(c).stage.Gone? ==> c.stage.Gone?
    ensures EnableTimerOn(c).index == c.index && EnableTimerOn(c).state == c.state && EstablishedOn(c).stage.Alive?
    ensures DestroyedOn(c).stage.Gone? && DestroyedOn(c).index == K_NEW && !DestroyedOn(c).state.Connected?
  {
    hide Updated, Removed;
    var c1 := Updated(c.(reading := false, writing := false)).(state := Disconnected, log := c.log + [Down]);
    RemovedKeepsState(c);
    RemovedKeepsState(CancelledOn(c));
    RemovedKeepsState(c1);
    RemovedKeepsState(CancelledOn(c1));
  }

  lemma RemovedKeepsState(c: Conn)
    ensures Removed(c).state == c.state && Removed(c).index == K_NEW
  {
  }

  lemma ExecuteKeepsGoneClosed(s: Server, t: Task)
    requires t.id in s.conns && GoneIsClosed(s)
    ensures GoneIsClosed(Execute(s, t))
  {
    hide EnableTimerOn, EstablishedOn, DestroyedOn;
    CallsKeepGoneClosed(s.conns[t.id]);
  }

  lemma NewConnectionKeepsGoneClosed(s: Server, l: LoopId, garbage: bool)
    requires GoneIsClosed(s)
    ensures GoneIsClosed(NewConnection(s, l, garbage))
  {
    hide Execute;
    var id, c := s.nextId + 1, Fresh(l, garbage, s.idleTimeout);
    var s1 := SetConn(s, id, c).(nextId := id, byName := s.byName + {id}, byId := s.byId + {id});
    ExecuteKeepsGoneClosed(s1, EnableTimer(id));
    ExecuteChangesOne(s1, EnableTimer(id));
    var s2 := if s.idleTimeout then RunInLoop(s1, MAIN, l, EnableTimer(id)) else s1;
    ExecuteKeepsGoneClosed(s2, ConnectEstablished(id));
  }

  lemma StepKeepsGoneClosed(s: Server, a: Action)
    requires Enabled(s, a) && GoneIsClosed(s)
    ensures GoneIsClosed(Step(s, a))
  {
    hide NewConnection, HandlerEvent, Execute;
    match a {
      case Accept(l, garbage) => NewConnectionKeepsGoneClosed(s, l, garbage);
      case RunTask(l) => ExecuteKeepsGoneClosed(Taken(s, l), Q(s, l)[0]);
      case ChannelEvent(id, e, read, userShutdown, drained) =>
        EventLeavesOpen(s, id, e, read, userShutdown, drained);
        EventChangesOne(s, id, e, read, userShutdown, drained);
      case _ =>
    }
  }
}
