/** What every action of a server does to the connection it is about, told from the action and the connection before it:
    which dispatch closes, what accepting, each queued call and each local call leave behind. */
module Effects {
  import opened ConnStates
  import opened Pollers
  import opened Lifecycle
  import ConnectionLives

  /** A connection that is served: its channel is added and the kernel watches it for what it is interested in. */
  ghost predicate Served(c: Conn) {
    Sound(c) && c.index == K_ADDED && !c.refused && c.watch == Watched(c.reading, c.writing)
  }

  lemma ClosedEffect(c: Conn)
    requires c.index == K_ADDED && c.watch.Watched? && !c.refused
    ensures ClosedOn(c) == c.(reading := false, writing := false, watch := Unwatched, index := K_DELETED,
                              state := Disconnected, log := c.log + [Down], stage := Closed)
  {
  }

  lemma CloseEffect(s: Server, id: ConnId)
    requires id in s.conns && s.conns[id].index == K_ADDED && s.conns[id].watch.Watched? && !s.conns[id].refused
    ensures var c, s' := s.conns[id], HandlerClose(s, id);
            && id in s'.conns
            && s'.conns[id] == c.(reading := false, writing := false, watch := Unwatched, index := K_DELETED,
                                  state := Disconnected, log := c.log + [Down],
                                  stage := if c.loop == MAIN then Unregistered else Closed)
            && (c.loop != MAIN ==> s'.byName == s.byName && s'.byId == s.byId)
            && (c.loop == MAIN ==> s'.byName == s.byName - {id} && s'.byId == s.byId - {id})
            && Q(s', MAIN) == Q(s, MAIN) + [if c.loop == MAIN then ConnectDestroyed(id) else RemoveConnection(id)]
  {
    hide ClosedOn;
    ClosedEffect(s.conns[id]);
  }

  /** Which dispatch closes a connection that is served, and what any dispatch that does not close it twice leaves of
      it: a hang-up without input closes, and so does reading the end of the stream on input or urgent data; the
      connection is told so at once, watched no more, and on its way out of the maps. */
  lemma DispatchEffect(s: Server, id: ConnId, e: Revents, read: ReadOutcome, userShutdown: bool, drained: bool)
    requires id in s.conns && Served(s.conns[id])
    requires !(e.hup && e.pri && !e.in_ && read.EndOfFile?)
    ensures var c, s' := s.conns[id], HandlerEvent(s, id, e, read, userShutdown, drained);
            && id in s'.conns
            && var c', closes := s'.conns[id], (e.hup && !e.in_) || ((e.in_ || e.pri) && read.EndOfFile?);
               && c'.log == c.log + (if closes then [Down] else [])
               && (c'.state.Disconnected? <==> closes)
               && (!closes ==> (c'.state.Disconnecting? <==>
                                  c.state.Disconnecting? || ((e.in_ || e.pri) && read.Data? && userShutdown)))
               && (c'.reading <==> !closes)
               && (c'.writing <==> c.writing && !closes && !(e.out && drained))
               && c'.watch == (if closes then Unwatched else Watched(true, c'.writing))
               && c'.loop == c.loop && c'.timer == c.timer && c'.idleRelease == c.idleRelease
               && (closes && c.loop != MAIN ==> Q(s', MAIN) == Q(s, MAIN) + [RemoveConnection(id)])
               && (closes && c.loop == MAIN ==>
                     id !in s'.byName && id !in s'.byId && Q(s', MAIN) == Q(s, MAIN) + [ConnectDestroyed(id)])
               && (!closes ==> s' == s.(conns := s'.conns))
  {
    hide HandlerClose, Life, Updated;
    var c := s.conns[id];
    CloseEffect(s, id);
    WriteEffect(c);
    WriteEffect(ShutdownOn(c));
  }

  lemma WriteEffect(c: Conn)
    requires c.index == K_ADDED && c.reading && c.watch.Watched?
    ensures Updated(c.(writing := false)) == c.(writing := false, watch := Watched(true, false))
  {
  }

  /** The same in any run, whatever other connections have been through. */
  lemma DispatchInARun(idleTimeout: bool, actions: seq<Action>, a: Action)
    requires Legal(Started(idleTimeout), actions) && a.ChannelEvent? && Enabled(Run(Started(idleTimeout), actions), a)
    requires ConnectionLives.ClosedCleanly(actions, a.id)
    requires !(a.e.hup && a.e.pri && !a.e.in_ && a.read.EndOfFile?)
    ensures var s := Run(Started(idleTimeout), actions);
            && a.id in Step(s, a).conns
            && var c, c' := s.conns[a.id], Step(s, a).conns[a.id];
               var closes := (a.e.hup && !a.e.in_) || ((a.e.in_ || a.e.pri) && a.read.EndOfFile?);
               && c'.log == c.log + (if closes then [Down] else [])
               && (c'.state.Disconnected? <==> closes)
               && (!closes ==> (c'.state.Disconnecting? <==>
                                  c.state.Disconnecting? || ((a.e.in_ || a.e.pri) && a.read.Data? && a.userShutdown)))
               && (c'.writing <==> c.writing && !closes && !(a.e.out && a.drained))
               && (c'.watch.Watched? <==> !closes)
  {
    hide Run, Legal, HandlerEvent, Life;
    ConnectionLives.CleanConnectionIsOk(idleTimeout, actions, a.id);
    ConnectionLives.WatchFollowsIndex(idleTimeout, actions, a.id);
    var s := Run(Started(idleTimeout), actions);
    DispatchEffect(s, a.id, a.e, a.read, a.userShutdown, a.drained);
  }

  /** Accepting: on the main loop the connection is up at once, with its timer if idle release is on; on another loop
      the calls that bring it up are queued there, the timer first. */
  lemma AcceptEffect(s: Server, l: LoopId, garbage: bool)
    ensures var id, s' := s.nextId + 1, Step(s, Accept(l, garbage));
            && id in s'.conns && s'.nextId == id && s'.byName == s.byName + {id} && s'.byId == s.byId + {id}
            && var c := s'.conns[id];
               && c.loop == l && !c.writing && !c.refused
               && (c.idleRelease <==> garbage || (s.idleTimeout && l == MAIN))
               && (l == MAIN ==>
                     && c.state.Connected? && c.log == [Up] && c.watch == Watched(true, false) && c.reading
                     && c.timer == (if s.idleTimeout then Armed(false) else NoTimer)
                     && forall k: LoopId :: Q(s', k) == Q(s, k))
               && (l != MAIN ==>
                     && c.state.Connecting? && c.log == [] && c.watch == Unwatched && c.timer == NoTimer
                     && Q(s', l) == Q(s, l) + (if s.idleTimeout then [EnableTimer(id)] else [])
                                    + [ConnectEstablished(id)]
                     && forall k: LoopId :: k != l ==> Q(s', k) == Q(s, k))
  {
  }

  /** What a queued call finds and leaves, in a server none of whose dispatches closed twice. */
  lemma TaskEffect(s: Server, l: LoopId)
    requires Invariant(s) && Enabled(s, RunTask(l))
    requires ConnectionLives.Mirrored(s.conns[Q(s, l)[0].id])
    ensures var t, s' := Q(s, l)[0], Step(s, RunTask(l));
            && t.id in s'.conns
            && var c, c' := s.conns[t.id], s'.conns[t.id];
               && c'.loop == c.loop
               && match t
                  case EnableTimer(_) =>
                    && l == c.loop && c.timer == NoTimer && c'.timer == Armed(false)
                    && c'.log == c.log && c'.state == c.state && c'.watch == c.watch
                  case ConnectEstablished(_) =>
                    && l == c.loop && c.state.Connecting? && c'.state.Connected? && c'.log == c.log + [Up]
                    && c'.watch == Watched(true, false) && c'.timer == c.timer
                  case RemoveConnection(id) =>
                    && l == MAIN && id in s.byId && id in s.byName
                    && s'.byId == s.byId - {id} && s'.byName == s.byName - {id}
                    && Q(s', c.loop) == Q(Taken(s, l), c.loop) + [ConnectDestroyed(id)] && c'.log == c.log
                  case ConnectDestroyed(id) =>
                    && l == c.loop && id !in s.byId && id !in s.byName
                    && c'.log == c.log + [Destroyed] && c'.state.Disconnected? && c'.watch == Unwatched
                    && c'.index == K_NEW && (c'.timer.Armed? ==> c'.timer.cancelled)
  {
    var t := Q(s, l)[0];
    HeadTask(s, l);
    assert Ok(s, t.id);
    hide Life, About, Invariant;
    EstablishedEffect(s.conns[t.id]);
    if t.ConnectDestroyed? {
      DestroyedEffect(s.conns[t.id]);
    }
    hide EstablishedOn, DestroyedOn;
  }

  lemma EstablishedEffect(c: Conn)
    requires ConnectionLives.Mirrored(c)
    ensures var c' := EstablishedOn(c);
            && c'.state.Connected? && c'.log == c.log + [Up] && c'.timer == c.timer && c'.loop == c.loop
            && c'.watch == Watched(true, c.writing)
  {
  }

  lemma DestroyedEffect(c: Conn)
    requires ConnectionLives.Mirrored(c) && c.state.Disconnected?
    ensures var c' := DestroyedOn(c);
            && c'.log == c.log + [Destroyed] && c'.state.Disconnected? && c'.watch == Unwatched && c'.index == K_NEW
            && (c'.timer.Armed? ==> c'.timer.cancelled) && c'.loop == c.loop
  {
  }

  /** What the calls on a connection in its own loop do: `shutdown` half-closes it if it is connected, and bytes left
      over by `send` make the kernel watch for room. */
  lemma LocalEffect(s: Server, id: ConnId)
    requires id in s.conns && ConnectionLives.Mirrored(s.conns[id])
    ensures var c := s.conns[id];
            && Step(s, UserShutdown(id)) ==
                 s.(conns := s.conns[id := c.(state := if c.state.Connected? then Disconnecting else c.state)])
            && (c.state.Connected? && c.index == K_ADDED ==>
                  Step(s, StartWriting(id)) ==
                    s.(conns := s.conns[id := c.(writing := true, watch := Watched(c.reading, true))]))
  {
  }
}
