/** What the life cycle means for a single connection, whatever happens to the others: a connection lives as if it
    were alone on its server. */
module ConnectionLives {
  import opened ConnStates
  import opened Pollers
  import opened Lifecycle

  // ---------------------------------------------------------------- strangers

  lemma SameForTrans(s: Server, s1: Server, s2: Server, j: ConnId)
    requires SameFor(s, s1, j) && SameFor(s1, s2, j)
    ensures SameFor(s, s2, j)
  {
    hide About;
  }

  lemma SetStranger(s: Server, id: ConnId, c: Conn, j: ConnId)
    requires id != j
    ensures SameFor(s, SetConn(s, id, c), j)
  {
    hide About;
    assert forall l: LoopId :: Q(SetConn(s, id, c), l) == Q(s, l);
  }

  lemma EnqueueStranger(s: Server, l: LoopId, t: Task, j: ConnId)
    requires t.id != j
    ensures SameFor(s, Enqueue(s, l, t), j)
  {
    hide About;
    EnqueueTouchesOne(s, l, t);
  }

  lemma RemoveStranger(s: Server, id: ConnId, j: ConnId)
    requires id in s.conns && id != j
    ensures SameFor(s, RemoveInLoop(s, id), j)
  {
    hide About, Enqueue;
    var c := s.conns[id].(stage := Unregistered);
    var s1 := SetConn(s, id, c).(byName := s.byName - {id}, byId := s.byId - {id});
    SetStranger(s, id, c, j);
    assert SameFor(s, s1, j) by {
      assert forall l: LoopId :: Q(s1, l) == Q(s, l);
    }
    EnqueueStranger(s1, c.loop, ConnectDestroyed(id), j);
    SameForTrans(s, s1, RemoveInLoop(s, id), j);
  }

  lemma ExecuteStranger(s: Server, t: Task, j: ConnId)
    requires t.id in s.conns && t.id != j
    ensures SameFor(s, Execute(s, t), j)
  {
    hide SameFor, EnableTimerOn, EstablishedOn, DestroyedOn, SetConn, RemoveInLoop;
    match t {
      case EnableTimer(id) => SetStranger(s, id, EnableTimerOn(s.conns[id]), j);
      case ConnectEstablished(id) => SetStranger(s, id, EstablishedOn(s.conns[id]), j);
      case RemoveConnection(id) => RemoveStranger(s, id, j);
      case ConnectDestroyed(id) => SetStranger(s, id, DestroyedOn(s.conns[id]), j);
    }
  }

  lemma RunInLoopStranger(s: Server, current: LoopId, l: LoopId, t: Task, j: ConnId)
    requires t.id in s.conns && t.id != j
    ensures SameFor(s, RunInLoop(s, current, l, t), j)
  {
    hide SameFor, Execute, Enqueue;
    ExecuteStranger(s, t, j);
    EnqueueStranger(s, l, t, j);
  }

  lemma NewStranger(s: Server, l: LoopId, garbage: bool, j: ConnId)
    requires j != s.nextId + 1
    ensures SameFor(s, NewConnection(s, l, garbage), j)
  {
    hide About, Execute, SameFor;
    var id := s.nextId + 1;
    var c := Fresh(l, garbage, s.idleTimeout);
    var s1 := SetConn(s, id, c).(nextId := id, byName := s.byName + {id}, byId := s.byId + {id});
    RegisterStranger(s, id, c, j);
    if s.idleTimeout {
      RunInLoopStranger(s1, MAIN, l, EnableTimer(id), j);
      ExecuteChangesOne(s1, EnableTimer(id));
      var s2 := RunInLoop(s1, MAIN, l, EnableTimer(id));
      SameForTrans(s, s1, s2, j);
      RunInLoopStranger(s2, MAIN, l, ConnectEstablished(id), j);
      SameForTrans(s, s2, NewConnection(s, l, garbage), j);
    } else {
      RunInLoopStranger(s1, MAIN, l, ConnectEstablished(id), j);
      SameForTrans(s, s1, NewConnection(s, l, garbage), j);
    }
  }

  lemma RegisterStranger(s: Server, id: ConnId, c: Conn, j: ConnId)
    requires id != j
    ensures SameFor(s, SetConn(s, id, c).(nextId := id, byName := s.byName + {id}, byId := s.byId + {id}), j)
  {
    hide About;
    var s1 := SetConn(s, id, c).(nextId := id, byName := s.byName + {id}, byId := s.byId + {id});
    assert forall l: LoopId :: Q(s1, l) == Q(s, l);
  }

  lemma CloseStranger(s: Server, id: ConnId, j: ConnId)
    requires id in s.conns && id != j
    ensures SameFor(s, HandlerClose(s, id), j)
  {
    hide SameFor, RunInLoop;
    var c := s.conns[id];
    var s1 := SetConn(s, id, ClosedOn(c));
    SetStranger(s, id, ClosedOn(c), j);
    RunInLoopStranger(s1, c.loop, MAIN, RemoveConnection(id), j);
    SameForTrans(s, s1, HandlerClose(s, id), j);
  }

  lemma ReadStranger(s: Server, id: ConnId, read: ReadOutcome, userShutdown: bool, j: ConnId)
    requires id in s.conns && id != j
    ensures SameFor(s, HandlerRead(s, id, read, userShutdown), j)
  {
    hide SameFor, HandlerClose, SetConn;
    CloseStranger(s, id, j);
    SetStranger(s, id, ShutdownOn(s.conns[id]), j);
    SameForItself(s);
  }

  lemma WriteStranger(s: Server, id: ConnId, drained: bool, j: ConnId)
    requires id in s.conns && id != j
    ensures SameFor(s, HandlerWrite(s, id, drained), j)
  {
    hide SameFor, SetConn;
    SetStranger(s, id, Updated(s.conns[id].(writing := false)), j);
    SameForItself(s);
  }

  lemma EventStranger(s: Server, id: ConnId, e: Revents, read: ReadOutcome, userShutdown: bool, drained: bool,
                      j: ConnId)
    requires id in s.conns && id != j
    ensures SameFor(s, HandlerEvent(s, id, e, read, userShutdown, drained), j)
  {
    hide SameFor, HandlerClose, HandlerRead, HandlerWrite;
    SameForItself(s);
    CloseStranger(s, id, j);
    CloseChangesOne(s, id);
    var s1 := if e.hup && !e.in_ then HandlerClose(s, id) else s;
    ReadStranger(s1, id, read, userShutdown, j);
    ReadChangesOne(s1, id, read, userShutdown);
    var s2 := if e.in_ || e.pri then HandlerRead(s1, id, read, userShutdown) else s1;
    WriteStranger(s2, id, drained, j);
    SameForItself(s1);
    SameForItself(s2);
    SameForTrans(s, s1, s2, j);
    SameForTrans(s, s2, HandlerEvent(s, id, e, read, userShutdown, drained), j);
  }

  /** An action about another connection changes nothing about connection `j`. */
  lemma StepStranger(s: Server, a: Action, j: ConnId)
    requires Enabled(s, a) && Subject(s, a) != j
    ensures SameFor(s, Step(s, a), j)
  {
    hide SameFor, NewConnection, HandlerEvent, Execute, About;
    match a {
      case Accept(l, garbage) => NewStranger(s, l, garbage, j);
      case RunTask(l) =>
        TakeTouchesOne(s, l);
        ExecuteStranger(Taken(s, l), Q(s, l)[0], j);
        SameForTrans(s, Taken(s, l), Step(s, a), j);
      case ChannelEvent(id, e, read, userShutdown, drained) => EventStranger(s, id, e, read, userShutdown, drained, j);
      case _ => SetStranger(s, a.id, Step(s, a).conns[a.id], j);
    }
  }

  // ---------------------------------------------------------------- a connection alone on a server

  /** `t` is what is left of the server `s` when nothing but connection `id` is kept. */
  ghost predicate Alone(s: Server, t: Server, id: ConnId) {
    && id >= 1
    && t.conns == (if id in s.conns then map[id := s.conns[id]] else map[])
    && t.nextId == (if id in s.conns then id else id - 1)
    && t.byName == s.byName * {id} && t.byId == s.byId * {id} && t.idleTimeout == s.idleTimeout
    && (forall l: LoopId :: Q(t, l) == About(Q(s, l), id))
  }

  lemma AloneStranger(s: Server, s': Server, t: Server, id: ConnId)
    requires Alone(s, t, id) && SameFor(s, s', id) && s'.idleTimeout == s.idleTimeout
    ensures Alone(s', t, id)
  {
    hide About;
  }

  lemma AloneSet(s: Server, t: Server, id: ConnId, c: Conn)
    requires Alone(s, t, id) && id in s.conns
    ensures Alone(SetConn(s, id, c), SetConn(t, id, c), id)
  {
    hide About;
    assert forall l: LoopId :: Q(SetConn(s, id, c), l) == Q(s, l) && Q(SetConn(t, id, c), l) == Q(t, l);
  }

  lemma AloneRegister(s: Server, t: Server, id: ConnId, c: Conn)
    requires Alone(s, t, id) && id !in s.conns
    ensures Alone(SetConn(s, id, c).(nextId := id, byName := s.byName + {id}, byId := s.byId + {id}),
                  SetConn(t, id, c).(nextId := id, byName := t.byName + {id}, byId := t.byId + {id}), id)
  {
    hide About;
    var s' := SetConn(s, id, c).(nextId := id, byName := s.byName + {id}, byId := s.byId + {id});
    var t' := SetConn(t, id, c).(nextId := id, byName := t.byName + {id}, byId := t.byId + {id});
    assert forall l: LoopId :: Q(s', l) == Q(s, l) && Q(t', l) == Q(t, l);
  }

  lemma AloneEnqueue(s: Server, t: Server, l: LoopId, task: Task)
    requires Alone(s, t, task.id)
    ensures Alone(Enqueue(s, l, task), Enqueue(t, l, task), task.id)
  {
    hide About;
    AboutAppend(Q(s, l), task, task.id);
    var s', t' := Enqueue(s, l, task), Enqueue(t, l, task);
    forall k: LoopId ensures Q(t', k) == About(Q(s', k), task.id) {
      assert Q(s', k) == (if k == l then Q(s, l) + [task] else Q(s, k));
      assert Q(t', k) == (if k == l then Q(t, l) + [task] else Q(t, k));
    }
  }

  lemma AloneTake(s: Server, t: Server, l: LoopId)
    requires Q(s, l) != [] && Alone(s, t, Q(s, l)[0].id)
    ensures Q(t, l) != [] && Q(t, l)[0] == Q(s, l)[0] && Alone(Taken(s, l), Taken(t, l), Q(s, l)[0].id)
  {
    var task := Q(s, l)[0];
    TakeTouchesOne(s, l);
    hide About;
    assert ([task] + About(Q(Taken(s, l), l), task.id))[1..] == About(Q(Taken(s, l), l), task.id);
  }

  lemma AloneRemove(s: Server, t: Server, id: ConnId)
    requires Alone(s, t, id) && id in s.conns
    ensures Alone(RemoveInLoop(s, id), RemoveInLoop(t, id), id)
  {
    hide About, Enqueue;
    var c := s.conns[id].(stage := Unregistered);
    AloneSet(s, t, id, c);
    var s1 := SetConn(s, id, c).(byName := s.byName - {id}, byId := s.byId - {id});
    var t1 := SetConn(t, id, c).(byName := t.byName - {id}, byId := t.byId - {id});
    assert forall l: LoopId :: Q(s1, l) == Q(s, l) && Q(t1, l) == Q(t, l);
    AloneEnqueue(s1, t1, c.loop, ConnectDestroyed(id));
  }

  lemma AloneExecute(s: Server, t: Server, task: Task)
    requires Alone(s, t, task.id) && task.id in s.conns
    ensures task.id in t.conns && Alone(Execute(s, task), Execute(t, task), task.id)
  {
    var c := s.conns[task.id];
    assert t.conns[task.id] == c;
    hide Alone, EnableTimerOn, EstablishedOn, DestroyedOn, RemoveInLoop;
    match task {
      case EnableTimer(id) => AloneSet(s, t, id, EnableTimerOn(c));
      case ConnectEstablished(id) => AloneSet(s, t, id, EstablishedOn(c));
      case RemoveConnection(id) => AloneRemove(s, t, id);
      case ConnectDestroyed(id) => AloneSet(s, t, id, DestroyedOn(c));
    }
  }

  lemma AloneRunInLoop(s: Server, t: Server, current: LoopId, l: LoopId, task: Task)
    requires Alone(s, t, task.id) && task.id in s.conns
    ensures task.id in t.conns && Alone(RunInLoop(s, current, l, task), RunInLoop(t, current, l, task), task.id)
    ensures task.id in RunInLoop(s, current, l, task).conns
  {
    AloneExecute(s, t, task);
    AloneEnqueue(s, t, l, task);
    ExecuteChangesOne(s, task);
    hide Alone, Execute;
  }

  lemma AloneNew(s: Server, t: Server, l: LoopId, garbage: bool)
    requires Alone(s, t, s.nextId + 1) && s.nextId + 1 !in s.conns
    ensures Alone(NewConnection(s, l, garbage), NewConnection(t, l, garbage), s.nextId + 1)
  {
    var id := s.nextId + 1;
    assert t.nextId + 1 == id && t.idleTimeout == s.idleTimeout;
    hide Alone, RunInLoop, Fresh;
    var c := Fresh(l, garbage, s.idleTimeout);
    AloneRegister(s, t, id, c);
    var s1 := SetConn(s, id, c).(nextId := id, byName := s.byName + {id}, byId := s.byId + {id});
    var t1 := SetConn(t, id, c).(nextId := id, byName := t.byName + {id}, byId := t.byId + {id});
    if s.idleTimeout {
      AloneRunInLoop(s1, t1, MAIN, l, EnableTimer(id));
      AloneRunInLoop(RunInLoop(s1, MAIN, l, EnableTimer(id)), RunInLoop(t1, MAIN, l, EnableTimer(id)), MAIN, l,
                     ConnectEstablished(id));
    } else {
      AloneRunInLoop(s1, t1, MAIN, l, ConnectEstablished(id));
    }
  }

  lemma AloneClose(s: Server, t: Server, id: ConnId)
    requires Alone(s, t, id) && id in s.conns
    ensures id in t.conns && Alone(HandlerClose(s, id), HandlerClose(t, id), id) && id in HandlerClose(s, id).conns
  {
    var c := s.conns[id];
    assert id in t.conns && t.conns[id] == c;
    hide Alone, RunInLoop, ClosedOn;
    AloneSet(s, t, id, ClosedOn(c));
    AloneRunInLoop(SetConn(s, id, ClosedOn(c)), SetConn(t, id, ClosedOn(c)), c.loop, MAIN, RemoveConnection(id));
  }

  lemma AloneRead(s: Server, t: Server, id: ConnId, read: ReadOutcome, userShutdown: bool)
    requires Alone(s, t, id) && id in s.conns
    ensures id in t.conns && Alone(HandlerRead(s, id, read, userShutdown), HandlerRead(t, id, read, userShutdown), id)
    ensures id in HandlerRead(s, id, read, userShutdown).conns
  {
    assert t.conns[id] == s.conns[id];
    hide Alone, HandlerClose, ShutdownOn;
    AloneClose(s, t, id);
    AloneSet(s, t, id, ShutdownOn(s.conns[id]));
  }

  lemma AloneEvent(s: Server, t: Server, id: ConnId, e: Revents, read: ReadOutcome, userShutdown: bool, drained: bool)
    requires Alone(s, t, id) && id in s.conns
    ensures id in t.conns
    ensures Alone(HandlerEvent(s, id, e, read, userShutdown, drained),
                  HandlerEvent(t, id, e, read, userShutdown, drained), id)
  {
    hide Alone, HandlerClose, HandlerRead, Updated;
    AloneClose(s, t, id);
    var s1 := if e.hup && !e.in_ then HandlerClose(s, id) else s;
    var t1 := if e.hup && !e.in_ then HandlerClose(t, id) else t;
    AloneRead(s1, t1, id, read, userShutdown);
    var s2 := if e.in_ || e.pri then HandlerRead(s1, id, read, userShutdown) else s1;
    var t2 := if e.in_ || e.pri then HandlerRead(t1, id, read, userShutdown) else t1;
    AloneSame(s2, t2, id);
    AloneSet(s2, t2, id, Updated(s2.conns[id].(writing := false)));
  }

  lemma AloneSame(s: Server, t: Server, id: ConnId)
    requires Alone(s, t, id) && id in s.conns
    ensures id in t.conns && t.conns[id] == s.conns[id]
  {
  }

  /** An action about the connection does on the small server what it does on the large one; any other does nothing. */
  lemma AloneStep(s: Server, t: Server, a: Action, id: ConnId)
    requires Enabled(s, a) && Alone(s, t, id) && IdsBelow(s)
    ensures if Subject(s, a) == id then Enabled(t, a) && Alone(Step(s, a), Step(t, a), id) else Alone(Step(s, a), t, id)
  {
    if Subject(s, a) != id {
      StepStranger(s, a, id);
      IdleTimeoutStays(s, a);
      AloneStranger(s, Step(s, a), t, id);
    } else {
      AloneOwnStep(s, t, a, id);
    }
  }

  lemma IdleTimeoutStays(s: Server, a: Action)
    requires Enabled(s, a)
    ensures Step(s, a).idleTimeout == s.idleTimeout
  {
    hide Updated, ClosedOn, EstablishedOn, DestroyedOn, EnableTimerOn, ShutdownOn, Fresh, Q, HandlerEvent;
    if a.ChannelEvent? {
      IdleTimeoutStaysInEvent(s, a.id, a.e, a.read, a.userShutdown, a.drained);
    }
  }

  lemma IdleTimeoutStaysInEvent(s: Server, id: ConnId, e: Revents, read: ReadOutcome, userShutdown: bool, drained: bool)
    requires id in s.conns
    ensures HandlerEvent(s, id, e, read, userShutdown, drained).idleTimeout == s.idleTimeout
  {
    hide Updated, ClosedOn, ShutdownOn, Q, EstablishedOn, DestroyedOn, EnableTimerOn;
  }

  lemma AloneOwnStep(s: Server, t: Server, a: Action, id: ConnId)
    requires Enabled(s, a) && Alone(s, t, id) && IdsBelow(s) && Subject(s, a) == id
    ensures Enabled(t, a) && Alone(Step(s, a), Step(t, a), id)
  {
    hide Alone, NewConnection, HandlerEvent, Execute, Updated, ShutdownOn;
    if id in s.conns {
      AloneSame(s, t, id);
    }
    match a {
      case Accept(l, garbage) => AloneNew(s, t, l, garbage);
      case RunTask(l) =>
        AloneTake(s, t, l);
        AloneExecute(Taken(s, l), Taken(t, l), Q(s, l)[0]);
      case ChannelEvent(_, e, read, userShutdown, drained) => AloneEvent(s, t, id, e, read, userShutdown, drained);
      case _ => AloneSet(s, t, id, Step(s, a).conns[id]);
    }
  }

  /** The actions of a run that are about connection `id`. */
  function Own(s: Server, actions: seq<Action>, id: ConnId): seq<Action>
    requires Legal(s, actions)
    decreases |actions|
  {
    if actions == [] then []
    else (if Subject(s, actions[0]) == id then [actions[0]] else []) + Own(Step(s, actions[0]), actions[1..], id)
  }

  /** Connections do not interfere: what a run leaves of a connection is what the actions about it, run alone, leave. */
  lemma {:induction false} AloneRun(s: Server, t: Server, actions: seq<Action>, id: ConnId)
    requires Legal(s, actions) && Alone(s, t, id) && IdsBelow(s)
    ensures Legal(t, Own(s, actions, id)) && Alone(Run(s, actions), Run(t, Own(s, actions, id)), id)
    ensures forall a :: a in actions && ClosesTwice(a) ==> (a.id == id <==> a in Own(s, actions, id))
    ensures forall a :: a in Own(s, actions, id) ==> a in actions
    decreases |actions|
  {
    if actions != [] {
      var a := actions[0];
      var s' := Step(s, a);
      AloneStep(s, t, a, id);
      LogsOnlyGrow(s, a, id);
      hide Step, Enabled, Alone, IdsBelow;
      var rest := Own(s', actions[1..], id);
      if Subject(s, a) == id {
        AloneRun(s', Step(t, a), actions[1..], id);
        assert ([a] + rest)[1..] == rest;
      } else {
        AloneRun(s', t, actions[1..], id);
        assert [] + rest == rest;
      }
      OwnMembers(s, actions, id);
    }
  }

  lemma OwnMembers(s: Server, actions: seq<Action>, id: ConnId)
    requires Legal(s, actions)
    ensures forall a :: a in Own(s, actions, id) && ClosesTwice(a) ==> a.id == id
    decreases |actions|
  {
    if actions != [] {
      OwnMembers(Step(s, actions[0]), actions[1..], id);
    }
  }

  /** A server on which the first connection to be accepted gets number `id`. */
  function StartedAt(idleTimeout: bool, id: ConnId): Server
    requires id >= 1
  {
    Started(idleTimeout).(nextId := id - 1)
  }

  /** A connection lives as if it were alone on its server. */
  lemma LivesAlone(idleTimeout: bool, actions: seq<Action>, id: ConnId)
    requires Legal(Started(idleTimeout), actions) && id >= 1
    ensures var s, t, own := Started(idleTimeout), StartedAt(idleTimeout, id), Own(Started(idleTimeout), actions, id);
            && Legal(t, own) && Alone(Run(s, actions), Run(t, own), id)
            && (forall a :: a in own ==> a in actions)
            && (forall a :: a in actions && ClosesTwice(a) ==> (a.id == id <==> a in own))
  {
    assert forall l: LoopId :: Q(Started(idleTimeout), l) == [];
    AloneRun(Started(idleTimeout), StartedAt(idleTimeout, id), actions, id);
  }

  lemma {:induction false} ZeroIsNoConnection(s: Server, actions: seq<Action>)
    requires Legal(s, actions) && 0 !in s.conns
    ensures 0 !in Run(s, actions).conns
    decreases |actions|
  {
    if actions != [] {
      StepStrangerToZero(s, actions[0]);
      hide Step, Enabled;
      ZeroIsNoConnection(Step(s, actions[0]), actions[1..]);
    }
  }

  lemma StepStrangerToZero(s: Server, a: Action)
    requires Enabled(s, a) && 0 !in s.conns
    ensures 0 !in Step(s, a).conns
  {
    hide Step;
    StepStranger(s, a, 0);
  }

  lemma {:induction false} AboutTwice(q: seq<Task>, id: ConnId)
    ensures About(About(q, id), id) == About(q, id)
  {
    if q != [] {
      var rest := About(q[1..], id);
      AboutTwice(q[1..], id);
      if q[0].id == id {
        assert About(q, id) == [q[0]] + rest && ([q[0]] + rest)[1..] == rest;
      } else {
        assert About(q, id) == [] + rest == rest;
      }
    }
  }

  lemma OkAlone(s: Server, t: Server, id: ConnId)
    requires Alone(s, t, id) && Invariant(t) && id in s.conns
    ensures Ok(s, id)
  {
    AloneSame(s, t, id);
    assert Ok(t, id);
    forall l: LoopId ensures About(Q(s, l), id) == Waiting(id, s.conns[id].loop, s.conns[id].stage, l) {
      AboutTwice(Q(s, l), id);
    }
    hide Sound, About, Waiting;
  }

  /** No dispatch of the run closes connection `id` twice. */
  ghost predicate ClosedCleanly(actions: seq<Action>, id: ConnId) {
    forall a :: a in actions && ClosesTwice(a) ==> a.id != id
  }

  lemma CleanConnectionIsOk(idleTimeout: bool, actions: seq<Action>, id: ConnId)
    requires Legal(Started(idleTimeout), actions) && ClosedCleanly(actions, id)
             && id in Run(Started(idleTimeout), actions).conns
    ensures Ok(Run(Started(idleTimeout), actions), id)
  {
    var s := Started(idleTimeout);
    ZeroIsNoConnection(s, actions);
    var t, own := StartedAt(idleTimeout, id), Own(s, actions, id);
    hide Alone, Invariant;
    LivesAlone(idleTimeout, actions, id);
    StartsSound(idleTimeout, id);
    RunKeepsInvariant(t, own);
    OkAlone(Run(s, actions), Run(t, own), id);
  }

  lemma StartsSound(idleTimeout: bool, id: ConnId)
    requires id >= 1
    ensures Invariant(StartedAt(idleTimeout, id))
  {
  }

  // ---------------------------------------------------------------- the life of one connection

  /** Connected once, disconnected at most once and only after that, destroyed at most once and only after that;
      in both maps exactly until its close has been handled by the main loop; once destroyed, in neither map, with a
      new channel that the kernel does not watch. Nothing is assumed about other connections. */
  lemma ConnectionLivesOnce(idleTimeout: bool, actions: seq<Action>, id: ConnId)
    requires Legal(Started(idleTimeout), actions) && ClosedCleanly(actions, id)
             && id in Run(Started(idleTimeout), actions).conns
    ensures var s := Run(Started(idleTimeout), actions);
            var c := s.conns[id];
            var life := Life(c.log);
            && life <= [Up, Down, Destroyed]
            && (c.state.Connected? ==> life == [Up] && c.watch.Watched?)
            && (c.state.Disconnected? <==> Down in life)
            && (id in s.byName <==> id in s.byId)
            && (id !in s.byId ==> Down in life)
            && (Down in life ==> c.watch.Unwatched?)
            && (Destroyed in life ==> id !in s.byId && c.index == K_NEW)
  {
    CleanConnectionIsOk(idleTimeout, actions, id);
    WatchFollowsIndex(idleTimeout, actions, id);
    hide About, Run, Legal;
  }

  /** Every close leads to exactly one `connectDestroyed`: it has run, or exactly one task that leads to it is
      waiting. */
  lemma EachCloseIsDestroyedOnce(idleTimeout: bool, actions: seq<Action>, id: ConnId)
    requires Legal(Started(idleTimeout), actions) && ClosedCleanly(actions, id)
             && id in Run(Started(idleTimeout), actions).conns
    ensures var s := Run(Started(idleTimeout), actions);
            var c := s.conns[id];
            Down in Life(c.log) ==>
              || (Destroyed in Life(c.log) && Holds(s, id, MAIN, []))
              || (Destroyed !in Life(c.log) && Holds(s, id, MAIN, [RemoveConnection(id)]))
              || (Destroyed !in Life(c.log) && Holds(s, id, c.loop, [ConnectDestroyed(id)]))
  {
    CleanConnectionIsOk(idleTimeout, actions, id);
    hide Run, Legal;
    DestroyTaskByStage(Run(Started(idleTimeout), actions), id);
  }

  /** Every connection is brought up: as long as it has not been told so, the call that will do it is queued in its
      loop, and afterwards it is not. */
  lemma EachConnectionIsBroughtUp(idleTimeout: bool, actions: seq<Action>, id: ConnId)
    requires Legal(Started(idleTimeout), actions) && ClosedCleanly(actions, id)
             && id in Run(Started(idleTimeout), actions).conns
    ensures var s := Run(Started(idleTimeout), actions);
            var c := s.conns[id];
            Up in Life(c.log) <==> ConnectEstablished(id) !in Q(s, c.loop)
  {
    hide Run, Legal;
    CleanConnectionIsOk(idleTimeout, actions, id);
    var s := Run(Started(idleTimeout), actions);
    AboutHasIt(Q(s, s.conns[id].loop), ConnectEstablished(id));
    NoLifeYet();
    hide About, Life;
  }

  /** A connection that has been destroyed. */
  ghost predicate Over(s: Server, id: ConnId) {
    id in s.conns && s.conns[id].stage.Gone? && Ok(s, id) && s.conns[id].watch.Unwatched?
  }

  lemma OverStays(s: Server, a: Action, id: ConnId)
    requires Enabled(s, a) && Over(s, id) && IdsBelow(s)
    ensures Over(Step(s, a), id) && Step(s, a).conns[id].log == s.conns[id].log
  {
    hide Life;
    if Subject(s, a) != id {
      hide About, Step;
      StepStranger(s, a, id);
    } else {
      if a.RunTask? {
        TakeTouchesOne(s, a.l);
      }
      hide About, NewConnection, HandlerEvent, Execute;
      assert forall l: LoopId :: Q(Step(s, a), l) == Q(s, l);
    }
  }

  lemma {:induction false} OverForGood(s: Server, actions: seq<Action>, id: ConnId)
    requires Legal(s, actions) && Over(s, id) && IdsBelow(s)
    ensures Over(Run(s, actions), id) && Run(s, actions).conns[id].log == s.conns[id].log
    decreases |actions|
  {
    if actions != [] {
      OverStays(s, actions[0], id);
      LogsOnlyGrow(s, actions[0], id);
      hide Step, Enabled, Over, IdsBelow;
      OverForGood(Step(s, actions[0]), actions[1..], id);
    }
  }

  /** Once it has been destroyed, a connection that was not closed twice stays as it is in every continuation: no
      callback runs on it again, its timer's least of all, it is in neither map, and the kernel does not watch it. */
  lemma NothingAfterDestroyed(idleTimeout: bool, before: seq<Action>, after: seq<Action>, id: ConnId)
    requires Legal(Started(idleTimeout), before) && ClosedCleanly(before, id)
    requires var s := Run(Started(idleTimeout), before);
             Legal(s, after) && id in s.conns && Destroyed in Life(s.conns[id].log)
    ensures var s := Run(Started(idleTimeout), before);
            var s' := Run(s, after);
            && id in s'.conns && s'.conns[id].log == s.conns[id].log
            && id !in s'.byName && id !in s'.byId && s'.conns[id].index == K_NEW && s'.conns[id].watch.Unwatched?
  {
    var s := Run(Started(idleTimeout), before);
    CleanConnectionIsOk(idleTimeout, before, id);
    WatchFollowsIndex(idleTimeout, before, id);
    RunKeepsIdsBelow(Started(idleTimeout), before);
    hide Run, Legal, About, Life;
    DestroyTaskByStage(s, id);
    OverForGood(s, after, id);
  }

  lemma {:induction false} RunKeepsIdsBelow(s: Server, actions: seq<Action>)
    requires Legal(s, actions) && IdsBelow(s)
    ensures IdsBelow(Run(s, actions))
    decreases |actions|
  {
    if actions != [] {
      LogsOnlyGrow(s, actions[0], 0);
      hide Step, Enabled, IdsBelow;
      RunKeepsIdsBelow(Step(s, actions[0]), actions[1..]);
    }
  }

  /** The disconnected callback runs at most once on a connection exactly when no dispatch closes that one twice. */
  lemma DisconnectedOnceIffClosedCleanly(idleTimeout: bool, actions: seq<Action>, id: ConnId)
    requires Legal(Started(idleTimeout), actions) && id in Run(Started(idleTimeout), actions).conns
    ensures Downs(Run(Started(idleTimeout), actions).conns[id].log) <= 1 <==> ClosedCleanly(actions, id)
  {
    var s := Started(idleTimeout);
    ZeroIsNoConnection(s, actions);
    var t, own := StartedAt(idleTimeout, id), Own(s, actions, id);
    LivesAlone(idleTimeout, actions, id);
    StartsSound(idleTimeout, id);
    AloneSame(Run(s, actions), Run(t, own), id);
    assert Run(t, own).conns.Keys == {id};
    hide Invariant, Alone, Legal, Run, Own, ClosesTwice;
    if ClosedCleanly(actions, id) {
      RunKeepsInvariant(t, own);
      SoundMeansOnce(Run(t, own));
    } else {
      DoubleCloseShows(t, own);
    }
  }

  lemma AcceptedInline(garbage: bool)
    ensures var s := Step(Started(false), Accept(MAIN, garbage));
            Invariant(s) && 1 in s.conns && s.conns[1].index == K_ADDED
  {
    NewServerIsSound(false);
    AcceptKeeps(Started(false), MAIN, garbage);
    hide Invariant;
  }

  /** And a dispatch that closes twice does come up: a connection served by the main loop hangs up while urgent data
      is reported, and the read finds the end of the stream. */
  lemma DoubleCloseIsReachable(garbage: bool)
    ensures var actions := [Accept(MAIN, garbage),
                            ChannelEvent(1, Revents(false, true, false, false, true), EndOfFile, false, false)];
            && Legal(Started(false), actions) && ClosesTwice(actions[1])
            && 1 in Run(Started(false), actions).conns && Downs(Run(Started(false), actions).conns[1].log) >= 2
  {
    hide Invariant, NewConnection, HandlerEvent, Downs;
    var a := Accept(MAIN, garbage);
    var b := ChannelEvent(1, Revents(false, true, false, false, true), EndOfFile, false, false);
    AcceptedInline(garbage);
    var s1 := Step(Started(false), a);
    TwiceClosed(s1, b);
    assert [a, b][1..] == [b] && [b][1..] == [];
    assert Legal(Step(s1, b), []) && Run(Step(s1, b), []) == Step(s1, b);
    assert Legal(s1, [b]) && Run(s1, [b]) == Step(s1, b);
  }

  // ---------------------------------------------------------------- what the kernel watches

  /** Registration state and kernel entry agree, and no call of the poller was ever refused. */
  predicate Mirrored(c: Conn) {
    && c.index in {K_NEW, K_ADDED, K_DELETED} && !c.refused
    && c.watch == if c.index == K_ADDED then Watched(c.reading, c.writing) else Unwatched
  }

  ghost predicate AllMirrored(s: Server) {
    forall id :: id in s.conns ==> Mirrored(s.conns[id])
  }

  lemma UpdateMirrors(c: Conn, reading: bool, writing: bool)
    requires Mirrored(c)
    ensures Mirrored(Updated(c.(reading := reading, writing := writing)))
  {
  }

  lemma CallsMirror(c: Conn)
    requires Mirrored(c)
    ensures Mirrored(EnableTimerOn(c)) && Mirrored(EstablishedOn(c)) && Mirrored(ClosedOn(c))
    ensures Mirrored(ShutdownOn(c)) && Mirrored(c.(stage := Unregistered))
    ensures forall w: bool :: Mirrored(Updated(c.(writing := w)))
  {
    UpdateMirrors(c, true, c.writing);
    UpdateMirrors(c, false, false);
    forall w: bool ensures Mirrored(Updated(c.(writing := w))) {
      UpdateMirrors(c, c.reading, w);
      assert c.(writing := w) == c.(reading := c.reading, writing := w);
    }
    assert c.(reading := true) == c.(reading := true, writing := c.writing);
    hide Updated;
  }

  lemma DestroyedMirrors(c: Conn)
    requires Mirrored(c)
    ensures Mirrored(DestroyedOn(c))
  {
  }

  lemma ExecuteMirrors(s: Server, t: Task)
    requires AllMirrored(s) && t.id in s.conns
    ensures AllMirrored(Execute(s, t))
  {
    CallsMirror(s.conns[t.id]);
    DestroyedMirrors(s.conns[t.id]);
    hide Mirrored, EnableTimerOn, EstablishedOn, DestroyedOn;
  }

  lemma CloseMirrors(s: Server, id: ConnId)
    requires AllMirrored(s) && id in s.conns
    ensures AllMirrored(HandlerClose(s, id)) && id in HandlerClose(s, id).conns
  {
    CallsMirror(s.conns[id]);
    hide Mirrored, ClosedOn, Execute;
    ExecuteMirrors(SetConn(s, id, ClosedOn(s.conns[id])), RemoveConnection(id));
    CloseChangesOne(s, id);
  }

  lemma ReadMirrors(s: Server, id: ConnId, read: ReadOutcome, userShutdown: bool)
    requires AllMirrored(s) && id in s.conns
    ensures AllMirrored(HandlerRead(s, id, read, userShutdown)) && id in HandlerRead(s, id, read, userShutdown).conns
  {
    CallsMirror(s.conns[id]);
    CloseMirrors(s, id);
    hide Mirrored, HandlerClose, ShutdownOn;
  }

  lemma EventMirrors(s: Server, id: ConnId, e: Revents, read: ReadOutcome, userShutdown: bool, drained: bool)
    requires AllMirrored(s) && id in s.conns
    ensures AllMirrored(HandlerEvent(s, id, e, read, userShutdown, drained))
  {
    hide Mirrored, HandlerClose, HandlerRead, Updated;
    CloseMirrors(s, id);
    var s1 := if e.hup && !e.in_ then HandlerClose(s, id) else s;
    ReadMirrors(s1, id, read, userShutdown);
    var s2 := if e.in_ || e.pri then HandlerRead(s1, id, read, userShutdown) else s1;
    CallsMirror(s2.conns[id]);
  }

  lemma NewMirrors(s: Server, l: LoopId, garbage: bool)
    requires AllMirrored(s)
    ensures AllMirrored(NewConnection(s, l, garbage))
  {
    hide Mirrored, Execute, Fresh;
    var id, c := s.nextId + 1, Fresh(l, garbage, s.idleTimeout);
    FreshMirrors(l, garbage, s.idleTimeout);
    var s1 := SetConn(s, id, c).(nextId := id, byName := s.byName + {id}, byId := s.byId + {id});
    ExecuteMirrors(s1, EnableTimer(id));
    ExecuteChangesOne(s1, EnableTimer(id));
    var s2 := if s.idleTimeout then RunInLoop(s1, MAIN, l, EnableTimer(id)) else s1;
    ExecuteMirrors(s2, ConnectEstablished(id));
  }

  lemma FreshMirrors(l: LoopId, garbage: bool, idleTimeout: bool)
    ensures Mirrored(Fresh(l, garbage, idleTimeout))
  {
  }

  lemma StepMirrors(s: Server, a: Action)
    requires AllMirrored(s) && Enabled(s, a)
    ensures AllMirrored(Step(s, a))
  {
    hide NewConnection, Execute, HandlerEvent, Updated, Mirrored;
    match a {
      case Accept(l, garbage) => NewMirrors(s, l, garbage);
      case RunTask(l) => ExecuteMirrors(Taken(s, l), Q(s, l)[0]);
      case ChannelEvent(id, e, read, userShutdown, drained) => EventMirrors(s, id, e, read, userShutdown, drained);
      case UserShutdown(id) => CallsMirror(s.conns[id]);
      case StartWriting(id) => CallsMirror(s.conns[id]);
      case TimerDropped(id) => DroppedMirrors(s.conns[id]);
    }
  }

  lemma DroppedMirrors(c: Conn)
    requires Mirrored(c)
    ensures c.timer.Armed? ==> Mirrored(DroppedOn(c))
  {
  }

  lemma {:induction false} RunMirrors(s: Server, actions: seq<Action>)
    requires AllMirrored(s) && Legal(s, actions)
    ensures AllMirrored(Run(s, actions))
    decreases |actions|
  {
    if actions != [] {
      StepMirrors(s, actions[0]);
      hide Step, Enabled, AllMirrored;
      RunMirrors(Step(s, actions[0]), actions[1..]);
    }
  }

  /** In every run, double closes included, the kernel watches a connection exactly while its channel is added, for
      exactly what its channel is interested in, and it never refuses a call. */
  lemma WatchFollowsIndex(idleTimeout: bool, actions: seq<Action>, id: ConnId)
    requires Legal(Started(idleTimeout), actions) && id in Run(Started(idleTimeout), actions).conns
    ensures var c := Run(Started(idleTimeout), actions).conns[id];
            && (c.watch.Watched? <==> c.index == K_ADDED) && !c.refused
            && (c.watch.Watched? ==> c.watch == Watched(c.reading, c.writing))
  {
    RunMirrors(Started(idleTimeout), actions);
  }
}
