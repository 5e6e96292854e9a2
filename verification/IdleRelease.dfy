/** Idle release: the connections of a server together with the timer wheels of its loops, one step system. A loop that
    dispatches to a connection refreshes its timer, and the timers that a tick of a wheel drops shut their connections
    down. */
module IdleRelease {
  import ConnStates
  import Lifecycle
  import ConnectionLives
  import Deadlines

  type ConnId = Lifecycle.ConnId
  type LoopId = Lifecycle.LoopId

  /** The wheels are those of the loops; one that has not been used yet is empty. */
  datatype System = System(server: Lifecycle.Server, wheels: map<LoopId, Deadlines.Sched>)

  datatype Event =
    | Act(a: Lifecycle.Action)                // any action but the drop of a timer
    | Tick(l: LoopId, order: seq<ConnId>)     // a tick of the wheel of a loop, which drops timers in this order

  function WheelOf(t: System, l: LoopId): Deadlines.Sched {
    if l in t.wheels then t.wheels[l] else Deadlines.EMPTY
  }

  /** `enableInactiveReleaseInLoop`: a timer that is there is refreshed, otherwise one is added. */
  function EnableCall(w: Deadlines.Sched, id: ConnId, d: nat): Deadlines.Op {
    if id in w.entries then Deadlines.Refresh(id) else Deadlines.Add(id, d)
  }

  /** The loop of the connection that an action is about. */
  function Home(s: Lifecycle.Server, a: Lifecycle.Action): LoopId
    requires Lifecycle.Enabled(s, a)
  {
    if a.Accept? then a.l else s.conns[Lifecycle.Subject(s, a)].loop
  }

  /** What the members that run in an action call on the wheel: enabling, cancelling, and at the end of a dispatch the
      refresh, if the flag is on. */
  function Calls(s: Lifecycle.Server, w: Deadlines.Sched, a: Lifecycle.Action, d: nat): seq<Deadlines.Op>
    requires Lifecycle.Enabled(s, a)
  {
    var id := Lifecycle.Subject(s, a);
    match a
    case Accept(l, _) => if s.idleTimeout && l == Lifecycle.MAIN then [EnableCall(w, id, d)] else []
    case RunTask(l) =>
      if Lifecycle.Q(s, l)[0].EnableTimer? then [EnableCall(w, id, d)]
      else if Lifecycle.Q(s, l)[0].ConnectDestroyed? && id in w.entries then [Deadlines.Cancel(id)]
      else []
    case ChannelEvent(_, _, _, _, _) =>
      if id in Lifecycle.Step(s, a).conns && Lifecycle.Step(s, a).conns[id].idleRelease
      then [Deadlines.Refresh(id)] else []
    case _ => []
  }

  /** What the next tick drops. */
  function Due(w: Deadlines.Sched): set<ConnId> {
    set id | id in w.entries && w.entries[id].due <= w.now + 1
  }

  ghost predicate Lists(order: seq<ConnId>, ids: set<ConnId>) {
    && (forall id :: id in order <==> id in ids)
    && (forall i, j :: 0 <= i < j < |order| ==> order[i] != order[j])
  }

  function Drops(order: seq<ConnId>): seq<Lifecycle.Action> {
    if order == [] then [] else [Lifecycle.TimerDropped(order[0])] + Drops(order[1..])
  }

  ghost predicate Enabled(t: System, e: Event) {
    match e
    case Act(a) => !a.TimerDropped? && Lifecycle.Enabled(t.server, a)
    case Tick(l, order) => Lists(order, Due(WheelOf(t, l))) && Lifecycle.Legal(t.server, Drops(order))
  }

  function Step(t: System, e: Event, d: nat): System
    requires Enabled(t, e)
  {
    match e
    case Act(a) =>
      var l := Home(t.server, a);
      var w := WheelOf(t, l);
      System(Lifecycle.Step(t.server, a), t.wheels[l := Deadlines.Run(w, Calls(t.server, w, a, d))])
    case Tick(l, order) =>
      System(Lifecycle.Run(t.server, Drops(order)), t.wheels[l := Deadlines.Step(WheelOf(t, l), Deadlines.Op.Tick)])
  }

  /** A run in which timers get a delay of `d` ticks. */
  ghost predicate Legal(t: System, events: seq<Event>, d: nat)
    decreases |events|
  {
    events == [] || (Enabled(t, events[0]) && Legal(Step(t, events[0], d), events[1..], d))
  }

  function Run(t: System, events: seq<Event>, d: nat): System
    requires Legal(t, events, d)
    decreases |events|
  {
    if events == [] then t else Run(Step(t, events[0], d), events[1..], d)
  }

  function Begin(idleTimeout: bool): System {
    System(Lifecycle.Started(idleTimeout), map[])
  }

  // ---------------------------------------------------------------- connections and wheels agree

  /** The wheel has the timer of the connection, with its flag, exactly while the connection says so. */
  predicate Agrees(c: Lifecycle.Conn, w: Deadlines.Sched, id: ConnId, d: nat) {
    && (id in w.entries <==> c.timer.Armed?)
    && (id in w.entries ==> w.entries[id].cancelled == c.timer.cancelled && w.entries[id].delay == d)
    && Flagged(c)
  }

  ghost predicate Coupled(t: System, d: nat) {
    && Lifecycle.IdsBelow(t.server)
    && (forall id :: id in t.server.conns ==> Agrees(t.server.conns[id], WheelOf(t, t.server.conns[id].loop), id, d))
    && (forall l: LoopId :: WheelSound(t, l))
  }

  ghost predicate WheelSound(t: System, l: LoopId) {
    && WheelOf(t, l).WellFormed()
    && forall id :: id in WheelOf(t, l).entries ==> id in t.server.conns && t.server.conns[id].loop == l
  }

  /** What an action leaves of the timer of its connection. */
  function TimerAfter(s: Lifecycle.Server, a: Lifecycle.Action): Lifecycle.Timer
    requires Lifecycle.Enabled(s, a)
  {
    match a
    case Accept(l, _) =>
      if s.idleTimeout && l == Lifecycle.MAIN then Lifecycle.Armed(false) else Lifecycle.NoTimer
    case RunTask(l) =>
      var timer := s.conns[Lifecycle.Q(s, l)[0].id].timer;
      if Lifecycle.Q(s, l)[0].EnableTimer? && timer.NoTimer? then Lifecycle.Armed(false)
      else if Lifecycle.Q(s, l)[0].ConnectDestroyed? && timer.Armed? then Lifecycle.Armed(true)
      else timer
    case ChannelEvent(id, _, _, _, _) => s.conns[id].timer
    case UserShutdown(id) => s.conns[id].timer
    case StartWriting(id) => s.conns[id].timer
    case TimerDropped(id) => Lifecycle.NoTimer
  }

  /** How the connection of an action changes, as far as its timer is concerned. */
  ghost predicate Changes(s: Lifecycle.Server, a: Lifecycle.Action, c': Lifecycle.Conn)
    requires Lifecycle.Enabled(s, a) && !a.TimerDropped?
  {
    && c'.loop == Home(s, a) && c'.timer == TimerAfter(s, a)
    && (Lifecycle.TimerShutdown in c'.log ==>
          !a.Accept? && Lifecycle.TimerShutdown in s.conns[Lifecycle.Subject(s, a)].log)
    && (a.Accept? || Flagged(s.conns[Lifecycle.Subject(s, a)]) ==> Flagged(c'))
  }

  /** A timer that has not been cancelled is refreshed by every dispatch. */
  predicate Flagged(c: Lifecycle.Conn) {
    c.timer == Lifecycle.Armed(false) ==> c.idleRelease
  }

  lemma UpdateLeavesTimer(c: Lifecycle.Conn)
    ensures var u := Lifecycle.Updated(c);
            u.loop == c.loop && u.timer == c.timer && u.idleRelease == c.idleRelease && u.log == c.log
    ensures var r := Lifecycle.Removed(c);
            r.loop == c.loop && r.timer == c.timer && r.idleRelease == c.idleRelease && r.log == c.log
  {
  }

  /** Nothing that concerns the timer. */
  predicate SameTimer(c: Lifecycle.Conn, c': Lifecycle.Conn) {
    && c'.loop == c.loop && c'.timer == c.timer && c'.idleRelease == c.idleRelease
    && (Lifecycle.TimerShutdown in c'.log ==> Lifecycle.TimerShutdown in c.log)
  }

  lemma CloseLeavesTimer(s: Lifecycle.Server, id: ConnId)
    requires id in s.conns
    ensures var s' := Lifecycle.HandlerClose(s, id); id in s'.conns && SameTimer(s.conns[id], s'.conns[id])
  {
    hide Lifecycle.Updated;
    var c := s.conns[id];
    UpdateLeavesTimer(c.(reading := false, writing := false));
  }

  lemma ReadLeavesTimer(s: Lifecycle.Server, id: ConnId, read: Lifecycle.ReadOutcome, userShutdown: bool)
    requires id in s.conns
    ensures var s' := Lifecycle.HandlerRead(s, id, read, userShutdown);
            id in s'.conns && SameTimer(s.conns[id], s'.conns[id])
  {
    hide Lifecycle.HandlerClose;
    CloseLeavesTimer(s, id);
  }

  lemma EventLeavesTimer(s: Lifecycle.Server, id: ConnId, e: Lifecycle.Revents, read: Lifecycle.ReadOutcome,
                         userShutdown: bool, drained: bool)
    requires id in s.conns
    ensures var s' := Lifecycle.HandlerEvent(s, id, e, read, userShutdown, drained);
            id in s'.conns && SameTimer(s.conns[id], s'.conns[id])
  {
    hide Lifecycle.HandlerClose, Lifecycle.HandlerRead, Lifecycle.Updated;
    CloseLeavesTimer(s, id);
    var s1 := if e.hup && !e.in_ then Lifecycle.HandlerClose(s, id) else s;
    ReadLeavesTimer(s1, id, read, userShutdown);
    var s2 := if e.in_ || e.pri then Lifecycle.HandlerRead(s1, id, read, userShutdown) else s1;
    UpdateLeavesTimer(s2.conns[id].(writing := false));
  }

  lemma CallsOnTimer(c: Lifecycle.Conn)
    ensures SameTimer(c, Lifecycle.EstablishedOn(c))
    ensures var c' := Lifecycle.DestroyedOn(c);
            && c'.loop == c.loop && c'.timer == (if c.timer.Armed? then Lifecycle.Armed(true) else c.timer)
            && (Lifecycle.TimerShutdown in c'.log ==> Lifecycle.TimerShutdown in c.log)
  {
    hide Lifecycle.Updated, Lifecycle.Removed;
    UpdateLeavesTimer(c.(reading := true));
    UpdateLeavesTimer(c.(reading := false, writing := false));
    var c1 := if c.state.Connected?
              then Lifecycle.Updated(c.(reading := false, writing := false))
                   .(state := ConnStates.Disconnected, log := c.log + [Lifecycle.Down])
              else c;
    UpdateLeavesTimer(c1);
    UpdateLeavesTimer(Lifecycle.CancelledOn(c1));
  }

  lemma TaskOnTimer(s: Lifecycle.Server, l: LoopId)
    requires Lifecycle.Enabled(s, Lifecycle.RunTask(l))
    ensures var a := Lifecycle.RunTask(l);
            var id := Lifecycle.Subject(s, a);
            id in Lifecycle.Step(s, a).conns && Changes(s, a, Lifecycle.Step(s, a).conns[id])
  {
    hide Lifecycle.EstablishedOn, Lifecycle.DestroyedOn;
    CallsOnTimer(s.conns[Lifecycle.Q(s, l)[0].id]);
  }

  lemma AcceptOnTimer(s: Lifecycle.Server, l: LoopId, garbage: bool)
    ensures var a := Lifecycle.Accept(l, garbage);
            s.nextId + 1 in Lifecycle.Step(s, a).conns && Changes(s, a, Lifecycle.Step(s, a).conns[s.nextId + 1])
  {
    hide Lifecycle.EstablishedOn, Lifecycle.DestroyedOn;
    var c := Lifecycle.Fresh(l, garbage, s.idleTimeout);
    CallsOnTimer(c);
    CallsOnTimer(Lifecycle.EnableTimerOn(c));
  }

  lemma ActionOnTimer(s: Lifecycle.Server, a: Lifecycle.Action)
    requires Lifecycle.Enabled(s, a) && !a.TimerDropped?
    ensures var id := Lifecycle.Subject(s, a);
            id in Lifecycle.Step(s, a).conns && Changes(s, a, Lifecycle.Step(s, a).conns[id])
  {
    match a {
      case Accept(l, garbage) => AcceptOnTimer(s, l, garbage);
      case RunTask(l) => TaskOnTimer(s, l);
      case ChannelEvent(id, e, read, userShutdown, drained) =>
        hide Lifecycle.HandlerEvent;
        EventLeavesTimer(s, id, e, read, userShutdown, drained);
      case UserShutdown(id) =>
      case StartWriting(id) => UpdateLeavesTimer(s.conns[id].(writing := true));
    }
  }

  lemma OneCall(w: Deadlines.Sched, op: Deadlines.Op)
    requires w.WellFormed() && Deadlines.Allowed(w, op)
    ensures Deadlines.Legal(w, [op]) && Deadlines.Run(w, [op]) == Deadlines.Step(w, op)
    ensures Deadlines.Step(w, op).WellFormed()
    ensures Deadlines.Legal(w, []) && Deadlines.Run(w, []) == w
  {
    hide Deadlines.Step, Deadlines.Sched.WellFormed;
    Deadlines.StepKeepsWellFormed(w, op);
    assert [op][1..] == [];
    assert Deadlines.Run(Deadlines.Step(w, op), []) == Deadlines.Step(w, op);
  }

  /** Two states of a wheel at the same tick that differ in one timer at most. */
  ghost predicate OneEntry(w: Deadlines.Sched, w': Deadlines.Sched, id: ConnId) {
    && w'.now == w.now && w'.fired == w.fired && w'.WellFormed()
    && forall j :: j != id ==>
         (j in w'.entries <==> j in w.entries) && (j in w.entries ==> w'.entries[j] == w.entries[j])
  }

  lemma CallEffect(w: Deadlines.Sched, id: ConnId, d: nat)
    requires w.WellFormed() && d < Deadlines.UINT32
    ensures Deadlines.Legal(w, []) && Deadlines.Run(w, []) == w && OneEntry(w, w, id)
    ensures var w' := Deadlines.Run(w, [EnableCall(w, id, d)]);
            && Deadlines.Legal(w, [EnableCall(w, id, d)]) && OneEntry(w, w', id) && id in w'.entries
            && w'.entries[id].cancelled == (id in w.entries && w.entries[id].cancelled)
            && w'.entries[id].delay == (if id in w.entries then w.entries[id].delay else d)
            && (id !in w.entries ==> w'.entries[id].due == w.now + Deadlines.Hop(w.now, d))
    ensures var w' := Deadlines.Run(w, [Deadlines.Cancel(id)]);
            && Deadlines.Legal(w, [Deadlines.Cancel(id)]) && OneEntry(w, w', id)
            && (id in w'.entries <==> id in w.entries)
            && (id in w.entries ==> w'.entries[id] == w.entries[id].(cancelled := true))
    ensures var w' := Deadlines.Run(w, [Deadlines.Refresh(id)]);
            && Deadlines.Legal(w, [Deadlines.Refresh(id)]) && OneEntry(w, w', id)
            && (id in w'.entries <==> id in w.entries)
            && (id in w.entries ==> w'.entries[id] == Deadlines.Extended(w.entries[id], w.now))
  {
    hide Deadlines.Sched.WellFormed, Deadlines.Hop, Deadlines.Run, Deadlines.Legal;
    OneCall(w, EnableCall(w, id, d));
    OneCall(w, Deadlines.Cancel(id));
    OneCall(w, Deadlines.Refresh(id));
  }

  /** The calls of an action do to its timer what the connection says, and leave the other timers alone. */
  lemma CallsAgree(t: System, a: Lifecycle.Action, d: nat)
    requires Coupled(t, d) && Enabled(t, Act(a)) && d < Deadlines.UINT32
    ensures var w, id := WheelOf(t, Home(t.server, a)), Lifecycle.Subject(t.server, a);
            var w' := Deadlines.Run(w, Calls(t.server, w, a, d));
            && Deadlines.Legal(w, Calls(t.server, w, a, d)) && OneEntry(w, w', id)
            && id in Lifecycle.Step(t.server, a).conns
            && Changes(t.server, a, Lifecycle.Step(t.server, a).conns[id])
            && Agrees(Lifecycle.Step(t.server, a).conns[id], w', id, d)
  {
    var l, id := Home(t.server, a), Lifecycle.Subject(t.server, a);
    var w := WheelOf(t, l);
    ActionOnTimer(t.server, a);
    assert WheelSound(t, l);
    CallEffect(w, id, d);
    hide Lifecycle.Step, Deadlines.Run, Deadlines.Legal, Deadlines.Sched.WellFormed, Deadlines.Hop, OneEntry;
    if a.Accept? {
      assert id !in w.entries;
    } else {
      assert Agrees(t.server.conns[id], w, id, d);
    }
  }

  /** One connection and its entry in the wheel of its loop have changed, and agree. */
  lemma OneChangeKeepsCoupled(t: System, t': System, id: ConnId, d: nat)
    requires Coupled(t, d) && Lifecycle.IdsBelow(t'.server) && id in t'.server.conns
    requires var c' := t'.server.conns[id];
             && t'.server.conns == t.server.conns[id := c']
             && (id in t.server.conns ==> t.server.conns[id].loop == c'.loop)
             && t'.wheels == t.wheels[c'.loop := WheelOf(t', c'.loop)]
             && OneEntry(WheelOf(t, c'.loop), WheelOf(t', c'.loop), id) && Agrees(c', WheelOf(t', c'.loop), id, d)
    ensures Coupled(t', d)
  {
    hide Deadlines.Sched.WellFormed, Lifecycle.IdsBelow, Flagged;
    var l := t'.server.conns[id].loop;
    forall k: LoopId ensures WheelSound(t', k) {
      assert WheelSound(t, k);
    }
    forall j | j in t'.server.conns && j != id
      ensures Agrees(t'.server.conns[j], WheelOf(t', t'.server.conns[j].loop), j, d)
    {
      assert Agrees(t.server.conns[j], WheelOf(t, t.server.conns[j].loop), j, d);
    }
  }

  lemma ActKeepsCoupled(t: System, a: Lifecycle.Action, d: nat)
    requires Coupled(t, d) && Enabled(t, Act(a)) && d < Deadlines.UINT32
    ensures Coupled(Step(t, Act(a), d), d)
  {
    hide Lifecycle.Step, Lifecycle.Enabled, Deadlines.Run, Deadlines.Legal, Calls, OneEntry, Agrees, WheelSound;
    var s, id := t.server, Lifecycle.Subject(t.server, a);
    CallsAgree(t, a, d);
    Lifecycle.OnlySubjectChanges(s, a);
    Lifecycle.LogsOnlyGrow(s, a, id);
    OneChangeKeepsCoupled(t, Step(t, Act(a), d), id, d);
  }

  // ---------------------------------------------------------------- ticks

  ghost predicate AllArmed(s: Lifecycle.Server, order: seq<ConnId>) {
    && (forall id :: id in order ==> id in s.conns && s.conns[id].timer.Armed?)
    && (forall i, j :: 0 <= i < j < |order| ==> order[i] != order[j])
  }

  /** The drops of one tick can be made in any order: each is the drop of its own timer. */
  lemma {:induction false} DropsRun(s: Lifecycle.Server, order: seq<ConnId>)
    requires AllArmed(s, order)
    ensures Lifecycle.Legal(s, Drops(order))
    ensures var s' := Lifecycle.Run(s, Drops(order));
            && s' == s.(conns := s'.conns) && s'.conns.Keys == s.conns.Keys
            && forall id :: id in s.conns ==>
                 s'.conns[id] == if id in order then Lifecycle.DroppedOn(s.conns[id]) else s.conns[id]
    decreases |order|
  {
    hide Lifecycle.DroppedOn;
    if order != [] {
      var id, rest := order[0], order[1..];
      var a := Lifecycle.TimerDropped(id);
      var s1 := Lifecycle.SetConn(s, id, Lifecycle.DroppedOn(s.conns[id]));
      assert id in order && id !in rest;
      assert Drops(order) == [a] + Drops(rest) && Drops(order)[1..] == Drops(rest);
      DropsRun(s1, rest);
      assert Lifecycle.Step(s, a) == s1;
    }
  }

  lemma DueAreArmed(t: System, l: LoopId, order: seq<ConnId>, d: nat)
    requires Coupled(t, d) && Lists(order, Due(WheelOf(t, l)))
    ensures AllArmed(t.server, order)
    ensures forall id :: id in order ==> id in t.server.conns && t.server.conns[id].loop == l
  {
    assert WheelSound(t, l);
  }

  /** A tick is always possible, in whatever order the slot is cleared. */
  lemma TickIsEnabled(t: System, l: LoopId, order: seq<ConnId>, d: nat)
    requires Coupled(t, d) && Lists(order, Due(WheelOf(t, l)))
    ensures Enabled(t, Tick(l, order))
  {
    DueAreArmed(t, l, order, d);
    DropsRun(t.server, order);
  }

  lemma DroppedKeeps(c: Lifecycle.Conn)
    requires c.timer.Armed?
    ensures var c' := Lifecycle.DroppedOn(c);
            && c'.loop == c.loop && c'.timer.NoTimer?
            && c'.log == if c.timer.cancelled then c.log else c.log + [Lifecycle.TimerShutdown]
  {
  }

  lemma TickedWheel(t: System, l: LoopId, order: seq<ConnId>, d: nat)
    requires Coupled(t, d) && Enabled(t, Tick(l, order))
    ensures var w, w' := WheelOf(t, l), WheelOf(Step(t, Tick(l, order), d), l);
            && w'.WellFormed() && w'.now == w.now + 1
            && (forall id :: id in w'.entries <==> id in w.entries && id !in order)
            && (forall id :: id in w'.entries ==> w'.entries[id] == w.entries[id])
  {
    hide Lifecycle.Run, Lifecycle.Legal;
    assert WheelSound(t, l);
    Deadlines.StepKeepsWellFormed(WheelOf(t, l), Deadlines.Op.Tick);
    hide Deadlines.Sched.WellFormed;
  }

  /** What a tick makes of a connection: its timer is dropped or nothing happens. */
  lemma TickedConnection(t: System, l: LoopId, order: seq<ConnId>, d: nat, id: ConnId)
    requires Coupled(t, d) && Enabled(t, Tick(l, order)) && id in t.server.conns
    ensures var s' := Step(t, Tick(l, order), d).server;
            && s' == t.server.(conns := s'.conns) && s'.conns.Keys == t.server.conns.Keys
            && (id in order ==> t.server.conns[id].timer.Armed? && t.server.conns[id].loop == l)
            && s'.conns[id] ==
                 if id in order then Lifecycle.DroppedOn(t.server.conns[id]) else t.server.conns[id]
    ensures NotAsked(t.server, id) ==> NotAsked(Step(t, Tick(l, order), d).server, id)
  {
    DueAreArmed(t, l, order, d);
    DropsRun(t.server, order);
    assert forall k: LoopId :: Lifecycle.Q(Step(t, Tick(l, order), d).server, k) == Lifecycle.Q(t.server, k);
    hide Lifecycle.Run, Lifecycle.Legal, Lifecycle.DroppedOn;
  }

  lemma TickKeepsAgreement(t: System, l: LoopId, order: seq<ConnId>, d: nat, id: ConnId)
    requires Coupled(t, d) && Enabled(t, Tick(l, order)) && id in t.server.conns
    ensures var t' := Step(t, Tick(l, order), d);
            && id in t'.server.conns && t'.server.conns[id].loop == t.server.conns[id].loop
            && Agrees(t'.server.conns[id], WheelOf(t', t'.server.conns[id].loop), id, d)
  {
    hide Lifecycle.Run, Lifecycle.Legal, Lifecycle.DroppedOn, Enabled, Deadlines.Sched.WellFormed;
    TickedConnection(t, l, order, d, id);
    TickedWheel(t, l, order, d);
    if id in order {
      DroppedKeeps(t.server.conns[id]);
    }
  }

  lemma TickKeepsCoupled(t: System, l: LoopId, order: seq<ConnId>, d: nat)
    requires Coupled(t, d) && Enabled(t, Tick(l, order))
    ensures Coupled(Step(t, Tick(l, order), d), d)
  {
    var s, t' := t.server, Step(t, Tick(l, order), d);
    hide Lifecycle.Run, Lifecycle.Legal, Lifecycle.DroppedOn, Enabled, Agrees, Deadlines.Sched.WellFormed;
    DueAreArmed(t, l, order, d);
    DropsRun(s, order);
    TickedWheel(t, l, order, d);
    forall j | j in s.conns
      ensures t'.server.conns[j].loop == s.conns[j].loop
      ensures Agrees(t'.server.conns[j], WheelOf(t', s.conns[j].loop), j, d)
    {
      TickKeepsAgreement(t, l, order, d, j);
    }
    forall k: LoopId ensures WheelSound(t', k) {
      assert WheelSound(t, k);
    }
  }

  lemma StepKeepsCoupled(t: System, e: Event, d: nat)
    requires Coupled(t, d) && Enabled(t, e) && d < Deadlines.UINT32
    ensures Coupled(Step(t, e, d), d)
  {
    hide Coupled, Step, Enabled;
    match e
    case Act(a) => ActKeepsCoupled(t, a, d);
    case Tick(l, order) => TickKeepsCoupled(t, l, order, d);
  }

  /** In every run the connections and the wheels of their loops agree about the timers. */
  lemma {:induction false} RunKeepsCoupled(t: System, events: seq<Event>, d: nat)
    requires Coupled(t, d) && Legal(t, events, d) && d < Deadlines.UINT32
    ensures Coupled(Run(t, events, d), d)
    decreases |events|
  {
    hide Coupled, Step, Enabled;
    if events != [] {
      StepKeepsCoupled(t, events[0], d);
      RunKeepsCoupled(Step(t, events[0], d), events[1..], d);
    }
  }

  lemma BeginsCoupled(idleTimeout: bool, d: nat)
    ensures Coupled(Begin(idleTimeout), d)
  {
  }

  // ---------------------------------------------------------------- when an idle connection is shut down

  /** No call that would enable the timer of the connection is queued any more. */
  ghost predicate NotAsked(s: Lifecycle.Server, id: ConnId) {
    id <= s.nextId && forall l: LoopId :: Lifecycle.EnableTimer(id) !in Lifecycle.Q(s, l)
  }

  ghost predicate AsksNothing(s: Lifecycle.Server, s': Lifecycle.Server) {
    && s'.nextId == s.nextId
    && forall l: LoopId, id ::
         Lifecycle.EnableTimer(id) in Lifecycle.Q(s', l) ==> Lifecycle.EnableTimer(id) in Lifecycle.Q(s, l)
  }

  lemma TaskAsksNothing(s: Lifecycle.Server, t: Lifecycle.Task)
    requires t.id in s.conns
    ensures AsksNothing(s, Lifecycle.Execute(s, t))
  {
    hide Lifecycle.EnableTimerOn, Lifecycle.EstablishedOn, Lifecycle.DestroyedOn;
  }

  lemma CloseAsksNothing(s: Lifecycle.Server, id: ConnId)
    requires id in s.conns
    ensures AsksNothing(s, Lifecycle.HandlerClose(s, id)) && id in Lifecycle.HandlerClose(s, id).conns
  {
    hide Lifecycle.ClosedOn;
  }

  lemma EventAsksNothing(s: Lifecycle.Server, id: ConnId, e: Lifecycle.Revents, read: Lifecycle.ReadOutcome,
                         userShutdown: bool, drained: bool)
    requires id in s.conns
    ensures AsksNothing(s, Lifecycle.HandlerEvent(s, id, e, read, userShutdown, drained))
  {
    hide Lifecycle.HandlerClose, Lifecycle.Updated, Lifecycle.ShutdownOn;
    CloseAsksNothing(s, id);
    var s1 := if e.hup && !e.in_ then Lifecycle.HandlerClose(s, id) else s;
    CloseAsksNothing(s1, id);
  }

  /** The timer of a connection is asked for when it is accepted and never again. */
  lemma StaysNotAsked(s: Lifecycle.Server, a: Lifecycle.Action, id: ConnId)
    requires Lifecycle.Enabled(s, a) && NotAsked(s, id)
    ensures NotAsked(Lifecycle.Step(s, a), id)
  {
    hide Lifecycle.Execute, Lifecycle.HandlerEvent, Lifecycle.NewConnection;
    match a {
      case Accept(l, garbage) => AcceptAsksForItsOwn(s, l, garbage, id);
      case RunTask(l) =>
        TaskAsksNothing(Lifecycle.Taken(s, l), Lifecycle.Q(s, l)[0]);
        assert forall k: LoopId ::
            Lifecycle.Q(Lifecycle.Taken(s, l), k) == if k == l then Lifecycle.Q(s, k)[1..] else Lifecycle.Q(s, k);
      case ChannelEvent(i, e, read, userShutdown, drained) => EventAsksNothing(s, i, e, read, userShutdown, drained);
      case _ =>
        assert forall k: LoopId :: Lifecycle.Q(Lifecycle.Step(s, a), k) == Lifecycle.Q(s, k);
    }
  }

  lemma CallAsksForItsOwn(s: Lifecycle.Server, current: LoopId, l: LoopId, t: Lifecycle.Task, id: ConnId)
    requires t.id in s.conns && NotAsked(s, id) && t != Lifecycle.EnableTimer(id)
    ensures NotAsked(Lifecycle.RunInLoop(s, current, l, t), id)
  {
    hide Lifecycle.Execute;
    TaskAsksNothing(s, t);
    assert forall k: LoopId ::
        Lifecycle.Q(Lifecycle.Enqueue(s, l, t), k) == Lifecycle.Q(s, k) + if k == l then [t] else [];
  }

  lemma AcceptAsksForItsOwn(s: Lifecycle.Server, l: LoopId, garbage: bool, id: ConnId)
    requires NotAsked(s, id)
    ensures NotAsked(Lifecycle.NewConnection(s, l, garbage), id)
  {
    hide Lifecycle.Execute, Lifecycle.Fresh;
    var next, c := s.nextId + 1, Lifecycle.Fresh(l, garbage, s.idleTimeout);
    var s1 := Lifecycle.SetConn(s, next, c).(nextId := next, byName := s.byName + {next}, byId := s.byId + {next});
    assert NotAsked(s1, id) by {
      assert forall k: LoopId :: Lifecycle.Q(s1, k) == Lifecycle.Q(s, k);
    }
    Lifecycle.ExecuteChangesOne(s1, Lifecycle.EnableTimer(next));
    CallAsksForItsOwn(s1, Lifecycle.MAIN, l, Lifecycle.EnableTimer(next), id);
    var s2 := if s.idleTimeout then Lifecycle.RunInLoop(s1, Lifecycle.MAIN, l, Lifecycle.EnableTimer(next)) else s1;
    CallAsksForItsOwn(s2, Lifecycle.MAIN, l, Lifecycle.ConnectEstablished(next), id);
  }

  /** The timer of the connection is running and `gap` of its `d` ticks have passed since the last dispatch. */
  ghost predicate Counting(t: System, id: ConnId, gap: nat, d: nat) {
    && 1 <= d <= Deadlines.CAPACITY && gap < d
    && id in t.server.conns && t.server.conns[id].timer == Lifecycle.Armed(false) && NotAsked(t.server, id)
    && var w := WheelOf(t, t.server.conns[id].loop);
       id in w.entries && w.entries[id].due == w.now + d - gap
  }

  /** The timer is not running and cannot be started again. */
  ghost predicate Stopped(t: System, id: ConnId) {
    id in t.server.conns && t.server.conns[id].timer != Lifecycle.Armed(false) && NotAsked(t.server, id)
  }

  ghost predicate TimedOut(t: System, id: ConnId) {
    id in t.server.conns && Lifecycle.TimerShutdown in t.server.conns[id].log
  }

  predicate Dispatches(e: Event, id: ConnId) {
    e.Act? && e.a.ChannelEvent? && e.a.id == id
  }

  /** A loop runs `connectDestroyed` of the connection. */
  predicate Destroys(t: System, e: Event, id: ConnId) {
    e.Act? && e.a.RunTask? && var q := Lifecycle.Q(t.server, e.a.l); q != [] && q[0] == Lifecycle.ConnectDestroyed(id)
  }

  predicate Ticks(t: System, e: Event, id: ConnId) {
    id in t.server.conns && e.Tick? && e.l == t.server.conns[id].loop
  }

  /** `d` ticks go by without a dispatch to the connection, `gap` of them before, and it is not destroyed before. */
  ghost predicate IdlesOut(t: System, events: seq<Event>, id: ConnId, gap: nat, d: nat)
    requires Legal(t, events, d)
    decreases |events|
  {
    events != [] &&
    var e, t', rest := events[0], Step(t, events[0], d), events[1..];
    if Ticks(t, e, id) then gap + 1 >= d || IdlesOut(t', rest, id, gap + 1, d)
    else if Dispatches(e, id) then IdlesOut(t', rest, id, 0, d)
    else !Destroys(t, e, id) && IdlesOut(t', rest, id, gap, d)
  }

  /** The loop of a connection stays, and a shutdown by the timer stays in its log. */
  lemma StaysTimedOut(t: System, e: Event, id: ConnId, d: nat)
    requires Coupled(t, d) && Enabled(t, e) && id in t.server.conns
    ensures var t' := Step(t, e, d);
            id in t'.server.conns && t.server.conns[id].log <= t'.server.conns[id].log
  {
    match e
    case Act(a) =>
      Lifecycle.LogsOnlyGrow(t.server, a, id);
      hide Lifecycle.Step;
    case Tick(l, order) =>
      DueAreArmed(t, l, order, d);
      DropsRun(t.server, order);
      if id in order {
        DroppedKeeps(t.server.conns[id]);
      }
      hide Lifecycle.DroppedOn;
  }

  lemma {:induction false} TimedOutForGood(t: System, events: seq<Event>, id: ConnId, d: nat)
    requires Coupled(t, d) && Legal(t, events, d) && d < Deadlines.UINT32 && TimedOut(t, id)
    ensures TimedOut(Run(t, events, d), id)
    decreases |events|
  {
    hide Coupled, Step, Enabled;
    if events != [] {
      StepKeepsCoupled(t, events[0], d);
      StaysTimedOut(t, events[0], id, d);
      TimedOutForGood(Step(t, events[0], d), events[1..], id, d);
    }
  }

  /** What an action makes of another connection: nothing. */
  lemma ActionOnOther(t: System, a: Lifecycle.Action, id: ConnId, d: nat)
    requires Coupled(t, d) && Enabled(t, Act(a)) && d < Deadlines.UINT32 && id in t.server.conns
    requires Lifecycle.Subject(t.server, a) != id
    ensures var t', l := Step(t, Act(a), d), t.server.conns[id].loop;
            && id in t'.server.conns && t'.server.conns[id] == t.server.conns[id]
            && OneEntry(WheelOf(t, l), WheelOf(t', l), Lifecycle.Subject(t.server, a))
  {
    hide Lifecycle.Step, Deadlines.Run, Deadlines.Legal, Deadlines.Sched.WellFormed, Lifecycle.Enabled, Calls;
    CallsAgree(t, a, d);
    Lifecycle.OnlySubjectChanges(t.server, a);
    assert WheelSound(t, t.server.conns[id].loop);
  }

  /** And of its own: the timer is cancelled by its destruction, and refreshed by a dispatch unless it is cancelled. */
  lemma ActionOnOwn(t: System, a: Lifecycle.Action, d: nat)
    requires Coupled(t, d) && Enabled(t, Act(a)) && d < Deadlines.UINT32 && !a.Accept?
    requires NotAsked(t.server, Lifecycle.Subject(t.server, a))
    ensures var s, t', id := t.server, Step(t, Act(a), d), Lifecycle.Subject(t.server, a);
            && id in t'.server.conns && t'.server.conns[id].loop == s.conns[id].loop
            && (TimedOut(t', id) ==> TimedOut(t, id))
            && t'.server.conns[id].timer == TimerAfterOwn(t, a, id)
            && var c, w, w' := s.conns[id], WheelOf(t, s.conns[id].loop), WheelOf(t', s.conns[id].loop);
               && w'.now == w.now
               && (id in w.entries && c.timer.Armed? && !c.timer.cancelled ==>
                     id in w'.entries && w'.entries[id].due == DueAfter(w, a, id))
  {
    var s, id, w := t.server, Lifecycle.Subject(t.server, a), WheelOf(t, Home(t.server, a));
    CallsAgree(t, a, d);
    assert WheelSound(t, Home(s, a)) && Agrees(s.conns[id], w, id, d);
    CallEffect(w, id, d);
    hide Lifecycle.Step, Deadlines.Run, Deadlines.Legal, Deadlines.Sched.WellFormed, Deadlines.Hop, OneEntry;
  }

  function TimerAfterOwn(t: System, a: Lifecycle.Action, id: ConnId): Lifecycle.Timer
    requires id in t.server.conns
  {
    var timer := t.server.conns[id].timer;
    if Destroys(t, Act(a), id) && timer.Armed? then Lifecycle.Armed(true) else timer
  }

  function DueAfter(w: Deadlines.Sched, a: Lifecycle.Action, id: ConnId): nat
    requires id in w.entries
  {
    if Dispatches(Act(a), id) then Deadlines.Extended(w.entries[id], w.now).due else w.entries[id].due
  }

  /** What an action makes of a connection, its own or another. */
  lemma ActionOn(t: System, a: Lifecycle.Action, id: ConnId, d: nat)
    requires Coupled(t, d) && Enabled(t, Act(a)) && d < Deadlines.UINT32 && id in t.server.conns
    requires NotAsked(t.server, id)
    ensures var s, t' := t.server, Step(t, Act(a), d);
            var c, w, w' := s.conns[id], WheelOf(t, s.conns[id].loop), WheelOf(t', s.conns[id].loop);
            && id in t'.server.conns && NotAsked(t'.server, id)
            && t'.server.conns[id].loop == c.loop && w'.now == w.now
            && (TimedOut(t', id) ==> TimedOut(t, id))
            && t'.server.conns[id].timer == TimerAfterOwn(t, a, id)
            && (id in w.entries && c.timer.Armed? && !c.timer.cancelled ==>
                  id in w'.entries && w'.entries[id].due == DueAfter(w, a, id))
  {
    hide Lifecycle.Step, Deadlines.Run, Deadlines.Legal, Deadlines.Sched.WellFormed, Calls, Deadlines.Extended, Coupled;
    StaysNotAsked(t.server, a, id);
    Below(t, d);
    if Lifecycle.Subject(t.server, a) == id {
      ActionOnOwn(t, a, d);
    } else {
      ActionOnOther(t, a, id, d);
    }
  }

  /** What a tick of a wheel makes of a connection whose timer runs. */
  lemma TickOn(t: System, e: Event, id: ConnId, gap: nat, d: nat)
    requires Coupled(t, d) && Enabled(t, e) && e.Tick? && Counting(t, id, gap, d)
    ensures var t' := Step(t, e, d);
            if !Ticks(t, e, id) then Counting(t', id, gap, d) && (TimedOut(t', id) ==> TimedOut(t, id))
            else if gap + 1 < d then Counting(t', id, gap + 1, d) && (TimedOut(t', id) ==> TimedOut(t, id))
            else TimedOut(t', id)
  {
    hide Lifecycle.Run, Lifecycle.Legal, Lifecycle.DroppedOn, Enabled, Deadlines.Sched.WellFormed;
    TickedConnection(t, e.l, e.order, d, id);
    TickedWheel(t, e.l, e.order, d);
    DueInOrder(t, e, d);
    if id in e.order {
      DroppedKeeps(t.server.conns[id]);
    }
  }

  lemma DueInOrder(t: System, e: Event, d: nat)
    requires Enabled(t, e) && e.Tick?
    ensures forall id :: id in e.order <==> id in Due(WheelOf(t, e.l))
  {
  }

  /** What an action makes of a connection whose timer runs. */
  lemma ActOn(t: System, e: Event, id: ConnId, gap: nat, d: nat)
    requires Coupled(t, d) && Enabled(t, e) && e.Act? && Counting(t, id, gap, d) && d < Deadlines.UINT32
    ensures var t' := Step(t, e, d);
            && (TimedOut(t', id) ==> TimedOut(t, id))
            && if Dispatches(e, id) then Counting(t', id, 0, d)
               else if Destroys(t, e, id) then Stopped(t', id)
               else Counting(t', id, gap, d)
  {
    hide Coupled, Enabled, Step, Deadlines.Hop;
    ActionOn(t, e.a, id, d);
    FullHop(t, id, d);
  }

  /** A timer of 1 to 60 ticks that is refreshed is due its full delay from now. */
  lemma FullHop(t: System, id: ConnId, d: nat)
    requires Coupled(t, d) && id in t.server.conns && 1 <= d <= Deadlines.CAPACITY
    ensures var w := WheelOf(t, t.server.conns[id].loop);
            id in w.entries && w.entries[id].due <= w.now + d ==>
              Deadlines.Extended(w.entries[id], w.now).due == w.now + d
  {
    assert Agrees(t.server.conns[id], WheelOf(t, t.server.conns[id].loop), id, d);
    Deadlines.HopOfUnwrapped(WheelOf(t, t.server.conns[id].loop).now, d);
    hide Deadlines.Hop;
  }

  lemma StoppedStays(t: System, e: Event, id: ConnId, d: nat)
    requires Coupled(t, d) && Enabled(t, e) && Stopped(t, id) && d < Deadlines.UINT32
    ensures Stopped(Step(t, e, d), id) && (TimedOut(Step(t, e, d), id) ==> TimedOut(t, id))
  {
    hide Lifecycle.Run, Lifecycle.Legal, Lifecycle.DroppedOn, Lifecycle.Step, Deadlines.Sched.WellFormed;
    hide Coupled, Enabled;
    match e
    case Act(a) => ActionOn(t, a, id, d);
    case Tick(l, order) =>
      TickedConnection(t, l, order, d, id);
      if id in order {
        DroppedKeeps(t.server.conns[id]);
      }
  }

  /** A connection whose timer was cancelled, or has come and gone, is not shut down by it any more. */
  lemma {:induction false} StoppedForGood(t: System, events: seq<Event>, id: ConnId, d: nat)
    requires Coupled(t, d) && Legal(t, events, d) && Stopped(t, id) && d < Deadlines.UINT32
    ensures Stopped(Run(t, events, d), id) && (TimedOut(Run(t, events, d), id) ==> TimedOut(t, id))
    decreases |events|
  {
    hide Coupled, Step, Enabled, Stopped, TimedOut;
    if events != [] {
      StepKeepsCoupled(t, events[0], d);
      StoppedStays(t, events[0], id, d);
      StoppedForGood(Step(t, events[0], d), events[1..], id, d);
    }
  }

  /** Idle release: the timer shuts a connection down exactly when as many ticks as the delay, 1 to 60, go by without a
      dispatch to it before it is destroyed. `gap` ticks have gone by already. */
  lemma {:induction false} ShutDownIffIdle(t: System, events: seq<Event>, id: ConnId, gap: nat, d: nat)
    requires Coupled(t, d) && Legal(t, events, d) && Counting(t, id, gap, d) && !TimedOut(t, id)
    ensures TimedOut(Run(t, events, d), id) <==> IdlesOut(t, events, id, gap, d)
    decreases |events|
  {
    hide Coupled, Step, Enabled, Stopped, TimedOut, Ticks, Dispatches, Destroys, IdlesOut, Run, Legal, Counting;
    Unfold(t, events, id, gap, d);
    if events != [] {
      var e, t', rest := events[0], Step(t, events[0], d), events[1..];
      SmallDelay(t, id, gap, d);
      StepKeepsCoupled(t, e, d);
      NotBoth(t, e, id);
      if e.Tick? {
        TickOn(t, e, id, gap, d);
        if !Ticks(t, e, id) {
          ShutDownIffIdle(t', rest, id, gap, d);
        } else if gap + 1 < d {
          ShutDownIffIdle(t', rest, id, gap + 1, d);
        } else {
          TimedOutForGood(t', rest, id, d);
        }
      } else {
        ActOn(t, e, id, gap, d);
        if Dispatches(e, id) {
          ShutDownIffIdle(t', rest, id, 0, d);
        } else if Destroys(t, e, id) {
          StoppedForGood(t', rest, id, d);
        } else {
          ShutDownIffIdle(t', rest, id, gap, d);
        }
      }
    }
  }

  /** What the recursions say of a run, of its first event and the rest. */
  lemma Unfold(t: System, events: seq<Event>, id: ConnId, gap: nat, d: nat)
    requires Legal(t, events, d)
    ensures events == [] ==> Run(t, events, d) == t && !IdlesOut(t, events, id, gap, d)
    ensures events != [] ==> Enabled(t, events[0]) && Legal(Step(t, events[0], d), events[1..], d)
    ensures events != [] ==>
              var e, t', rest := events[0], Step(t, events[0], d), events[1..];
              && Run(t, events, d) == Run(t', rest, d)
              && (IdlesOut(t, events, id, gap, d) <==>
                    if Ticks(t, e, id) then gap + 1 >= d || IdlesOut(t', rest, id, gap + 1, d)
                    else if Dispatches(e, id) then IdlesOut(t', rest, id, 0, d)
                    else !Destroys(t, e, id) && IdlesOut(t', rest, id, gap, d))
  {
    hide Step, Enabled, Ticks, Dispatches, Destroys;
  }

  lemma SmallDelay(t: System, id: ConnId, gap: nat, d: nat)
    requires Counting(t, id, gap, d)
    ensures gap < d < Deadlines.UINT32
  {
  }

  lemma NotBoth(t: System, e: Event, id: ConnId)
    ensures Ticks(t, e, id) ==> e.Tick?
    ensures Dispatches(e, id) || Destroys(t, e, id) ==> e.Act?
  {
  }

  /** The tick at which that happens half-closes the connection if it is connected. */
  lemma TimeoutHalfCloses(t: System, e: Event, id: ConnId, gap: nat, d: nat)
    requires Coupled(t, d) && Enabled(t, e) && Ticks(t, e, id) && Counting(t, id, gap, d) && gap + 1 == d
    ensures id in Step(t, e, d).server.conns
    ensures var c, c' := t.server.conns[id], Step(t, e, d).server.conns[id];
            && c'.log == c.log + [Lifecycle.TimerShutdown]
            && c'.state == if c.state.Connected? then ConnStates.Disconnecting else c.state
  {
    hide Lifecycle.Run, Lifecycle.Legal, Enabled, Deadlines.Sched.WellFormed;
    TickedConnection(t, e.l, e.order, d, id);
    DueInOrder(t, e, d);
  }

  // ---------------------------------------------------------------- a connection left alone

  /** No dispatch to the connection, which is not destroyed either. */
  ghost predicate LeftAlone(t: System, events: seq<Event>, id: ConnId, d: nat)
    requires Legal(t, events, d)
    decreases |events|
  {
    events == [] ||
    (!Dispatches(events[0], id) && !Destroys(t, events[0], id) && LeftAlone(Step(t, events[0], d), events[1..], id, d))
  }

  function TicksOf(events: seq<Event>, l: LoopId): nat {
    if events == [] then 0 else (if events[0].Tick? && events[0].l == l then 1 else 0) + TicksOf(events[1..], l)
  }

  lemma LoopStays(t: System, e: Event, id: ConnId, d: nat)
    requires Coupled(t, d) && Enabled(t, e) && id in t.server.conns && d < Deadlines.UINT32
    ensures var t' := Step(t, e, d); id in t'.server.conns && t'.server.conns[id].loop == t.server.conns[id].loop
  {
    hide Lifecycle.Run, Lifecycle.Legal, Lifecycle.DroppedOn, Deadlines.Sched.WellFormed, Coupled, Lifecycle.Step;
    match e
    case Act(a) =>
      Lifecycle.OnlySubjectChanges(t.server, a);
      Below(t, d);
      ActionOnTimer(t.server, a);
    case Tick(l, order) =>
      TickedConnection(t, l, order, d, id);
      if id in order {
        DroppedKeeps(t.server.conns[id]);
      }
  }

  lemma Below(t: System, d: nat)
    requires Coupled(t, d)
    ensures Lifecycle.IdsBelow(t.server)
  {
  }

  lemma {:induction false} IdlesOutByTicks(t: System, events: seq<Event>, id: ConnId, gap: nat, d: nat)
    requires Coupled(t, d) && Legal(t, events, d) && LeftAlone(t, events, id, d)
    requires id in t.server.conns && gap < d < Deadlines.UINT32
    ensures IdlesOut(t, events, id, gap, d) <==> gap + TicksOf(events, t.server.conns[id].loop) >= d
    decreases |events|
  {
    hide Coupled, Step, Enabled, Dispatches, Destroys, IdlesOut, Legal;
    Unfold(t, events, id, gap, d);
    if events != [] {
      var e := events[0];
      StepKeepsCoupled(t, e, d);
      LoopStays(t, e, id, d);
      if !Ticks(t, e, id) {
        IdlesOutByTicks(Step(t, e, d), events[1..], id, gap, d);
      } else if gap + 1 < d {
        IdlesOutByTicks(Step(t, e, d), events[1..], id, gap + 1, d);
      }
    }
  }

  /** Left alone, a connection is shut down at the tick at which its delay is over, neither earlier nor later: after any
      run that leaves it alone it has been shut down exactly when its loop has ticked that often. */
  lemma LeftAloneIsShutDownOnTime(t: System, events: seq<Event>, id: ConnId, gap: nat, d: nat)
    requires Coupled(t, d) && Legal(t, events, d) && Counting(t, id, gap, d) && !TimedOut(t, id)
    requires LeftAlone(t, events, id, d)
    ensures TimedOut(Run(t, events, d), id) <==> gap + TicksOf(events, t.server.conns[id].loop) >= d
  {
    SmallDelay(t, id, gap, d);
    ShutDownIffIdle(t, events, id, gap, d);
    IdlesOutByTicks(t, events, id, gap, d);
    hide Coupled, Legal, Run, IdlesOut, TimedOut;
  }

  // ---------------------------------------------------------------- the two systems inside

  function Acts(events: seq<Event>): seq<Lifecycle.Action> {
    if events == [] then [] else
      (match events[0]
       case Act(a) => [a]
       case Tick(_, order) => Drops(order)) + Acts(events[1..])
  }

  lemma {:induction false} RunInTwo(s: Lifecycle.Server, a: seq<Lifecycle.Action>, b: seq<Lifecycle.Action>)
    requires Lifecycle.Legal(s, a) && Lifecycle.Legal(Lifecycle.Run(s, a), b)
    ensures Lifecycle.Legal(s, a + b) && Lifecycle.Run(s, a + b) == Lifecycle.Run(Lifecycle.Run(s, a), b)
    decreases |a|
  {
    hide Lifecycle.Step, Lifecycle.Enabled;
    if a == [] {
      assert a + b == b;
    } else {
      assert (a + b)[0] == a[0] && (a + b)[1..] == a[1..] + b;
      RunInTwo(Lifecycle.Step(s, a[0]), a[1..], b);
    }
  }

  /** The server does what a server does: all that holds of every run of the life cycle holds here. */
  lemma {:induction false} ServerRuns(t: System, events: seq<Event>, d: nat)
    requires Legal(t, events, d)
    ensures Lifecycle.Legal(t.server, Acts(events))
    ensures Lifecycle.Run(t.server, Acts(events)) == Run(t, events, d).server
    decreases |events|
  {
    if events != [] {
      var t' := Step(t, events[0], d);
      var first := match events[0] case Act(a) => [a] case Tick(_, order) => Drops(order);
      ServerRuns(t', events[1..], d);
      FirstRuns(t, events[0], d, first);
      hide Step, Enabled, Lifecycle.Run, Lifecycle.Legal;
      RunInTwo(t.server, first, Acts(events[1..]));
    }
  }

  lemma FirstRuns(t: System, e: Event, d: nat, first: seq<Lifecycle.Action>)
    requires Enabled(t, e) && first == match e case Act(a) => [a] case Tick(_, order) => Drops(order)
    ensures Lifecycle.Legal(t.server, first) && Lifecycle.Run(t.server, first) == Step(t, e, d).server
  {
    if e.Act? {
      hide Lifecycle.Step, Lifecycle.Enabled;
      var s' := Lifecycle.Step(t.server, e.a);
      assert first[1..] == [] && Lifecycle.Legal(s', []) && Lifecycle.Run(s', []) == s';
    }
  }

  /** What happens to the wheel of one loop. */
  ghost function OpsOf(t: System, e: Event, l: LoopId, d: nat): seq<Deadlines.Op>
    requires Enabled(t, e)
  {
    match e
    case Act(a) => if Home(t.server, a) == l then Calls(t.server, WheelOf(t, l), a, d) else []
    case Tick(k, _) => if k == l then [Deadlines.Op.Tick] else []
  }

  ghost function Ops(t: System, events: seq<Event>, l: LoopId, d: nat): seq<Deadlines.Op>
    requires Legal(t, events, d)
    decreases |events|
  {
    if events == [] then [] else OpsOf(t, events[0], l, d) + Ops(Step(t, events[0], d), events[1..], l, d)
  }

  lemma {:induction false} WheelRunInTwo(w: Deadlines.Sched, a: seq<Deadlines.Op>, b: seq<Deadlines.Op>)
    requires Deadlines.Legal(w, a) && Deadlines.Legal(Deadlines.Run(w, a), b)
    ensures Deadlines.Legal(w, a + b) && Deadlines.Run(w, a + b) == Deadlines.Run(Deadlines.Run(w, a), b)
    decreases |a|
  {
    hide Deadlines.Step, Deadlines.Allowed;
    if a == [] {
      assert a + b == b;
    } else {
      assert (a + b)[0] == a[0] && (a + b)[1..] == a[1..] + b;
      WheelRunInTwo(Deadlines.Step(w, a[0]), a[1..], b);
    }
  }

  lemma OpsRun(t: System, e: Event, l: LoopId, d: nat)
    requires Coupled(t, d) && Enabled(t, e) && d < Deadlines.UINT32
    ensures Deadlines.Legal(WheelOf(t, l), OpsOf(t, e, l, d))
    ensures Deadlines.Run(WheelOf(t, l), OpsOf(t, e, l, d)) == WheelOf(Step(t, e, d), l)
  {
    assert WheelSound(t, l);
    OneCall(WheelOf(t, l), Deadlines.Op.Tick);
    if e.Act? {
      CallsAgree(t, e.a, d);
    }
    hide Lifecycle.Step, Lifecycle.Run, Deadlines.Run, Deadlines.Legal, Deadlines.Step, Calls, OneEntry;
  }

  /** And the wheel of each loop does what a wheel does. */
  lemma {:induction false} WheelRuns(t: System, events: seq<Event>, l: LoopId, d: nat)
    requires Coupled(t, d) && Legal(t, events, d) && d < Deadlines.UINT32
    ensures Deadlines.Legal(WheelOf(t, l), Ops(t, events, l, d))
    ensures Deadlines.Run(WheelOf(t, l), Ops(t, events, l, d)) == WheelOf(Run(t, events, d), l)
    decreases |events|
  {
    hide Coupled, Step, Enabled, OpsOf, WheelOf;
    if events != [] {
      StepKeepsCoupled(t, events[0], d);
      OpsRun(t, events[0], l, d);
      WheelRuns(Step(t, events[0], d), events[1..], l, d);
      WheelRunInTwo(WheelOf(t, l), OpsOf(t, events[0], l, d), Ops(Step(t, events[0], d), events[1..], l, d));
    }
  }

  // ---------------------------------------------------------------- from the start

  /** The action that starts the timer of the connection. */
  predicate Starts(s: Lifecycle.Server, a: Lifecycle.Action, id: ConnId) {
    || (a.Accept? && a.l == Lifecycle.MAIN && s.idleTimeout && id == s.nextId + 1)
    || (a.RunTask? && var q := Lifecycle.Q(s, a.l); q != [] && q[0] == Lifecycle.EnableTimer(id))
  }

  lemma ArmedIsNotAsked(s: Lifecycle.Server, id: ConnId)
    requires Lifecycle.Invariant(s) && id in s.conns && s.conns[id].timer.Armed?
    ensures NotAsked(s, id)
  {
    assert Lifecycle.Ok(s, id);
    forall l: LoopId ensures Lifecycle.EnableTimer(id) !in Lifecycle.Q(s, l) {
      Lifecycle.AboutHasIt(Lifecycle.Q(s, l), Lifecycle.EnableTimer(id));
    }
  }

  lemma NewTimer(s: Lifecycle.Server, a: Lifecycle.Action, id: ConnId)
    requires Lifecycle.Invariant(s) && Lifecycle.Enabled(s, a) && Starts(s, a, id)
    ensures Lifecycle.Subject(s, a) == id && !a.TimerDropped? && Lifecycle.Invariant(Lifecycle.Step(s, a))
    ensures TimerAfter(s, a) == Lifecycle.Armed(false)
    ensures id in s.conns ==> !a.Accept? && s.conns[id].timer.NoTimer? && s.conns[id].log == []
    ensures a.Accept? ==> id !in s.conns
  {
    Lifecycle.StepKeepsInvariant(s, a);
    if a.RunTask? {
      Lifecycle.AboutHasIt(Lifecycle.Q(s, a.l), Lifecycle.EnableTimer(id));
      assert Lifecycle.Ok(s, id);
    }
    hide Lifecycle.About, Lifecycle.Step;
  }

  /** The connection whose timer has just been started. */
  lemma StartedConnection(s: Lifecycle.Server, a: Lifecycle.Action, id: ConnId)
    requires Lifecycle.Invariant(s) && Lifecycle.Enabled(s, a) && Starts(s, a, id)
    ensures var s' := Lifecycle.Step(s, a);
            && id in s'.conns && s'.conns[id].loop == Home(s, a) && s'.conns[id].timer == Lifecycle.Armed(false)
            && Lifecycle.TimerShutdown !in s'.conns[id].log && NotAsked(s', id)
  {
    hide Lifecycle.Invariant, Lifecycle.Step, Starts;
    NewTimer(s, a, id);
    ActionOnTimer(s, a);
    ArmedIsNotAsked(Lifecycle.Step(s, a), id);
  }

  /** And its entry in the wheel. */
  lemma StartedEntry(t: System, a: Lifecycle.Action, id: ConnId, d: nat)
    requires Coupled(t, d) && Lifecycle.Enabled(t.server, a) && Starts(t.server, a, id) && 1 <= d <= Deadlines.CAPACITY
    requires Lifecycle.Subject(t.server, a) == id
    requires id in t.server.conns ==> !a.Accept? && t.server.conns[id].timer.NoTimer?
    ensures var w := WheelOf(t, Home(t.server, a));
            var w' := Deadlines.Run(w, Calls(t.server, w, a, d));
            id in w'.entries && w'.entries[id].due == w'.now + d
  {
    hide Lifecycle.Step, Deadlines.Run, Deadlines.Legal, Deadlines.Hop, Deadlines.Sched.WellFormed;
    var w := WheelOf(t, Home(t.server, a));
    assert WheelSound(t, Home(t.server, a));
    assert id in t.server.conns ==> Agrees(t.server.conns[id], w, id, d);
    CallEffect(w, id, d);
    Deadlines.HopOfUnwrapped(w.now, d);
  }

  /** Starting the timer starts the count. */
  lemma StartCounts(t: System, e: Event, id: ConnId, d: nat)
    requires Coupled(t, d) && Lifecycle.Invariant(t.server) && Enabled(t, e) && 1 <= d <= Deadlines.CAPACITY
    requires e.Act? && Starts(t.server, e.a, id)
    ensures Counting(Step(t, e, d), id, 0, d) && !TimedOut(Step(t, e, d), id)
  {
    hide Coupled, Lifecycle.Invariant, Lifecycle.Step, Lifecycle.Enabled, Starts, NotAsked, Calls, Deadlines.Run;
    hide Deadlines.Legal;
    NewTimer(t.server, e.a, id);
    StartedConnection(t.server, e.a, id);
    CallsAgree(t, e.a, d);
    StartedEntry(t, e.a, id, d);
  }

  /** Idle release from the start: once its timer has been started, a connection is shut down by it exactly when as many
      ticks as the delay go by without a dispatch to it before it is destroyed, whatever else happens to any other
      connection and on any other loop. */
  lemma IdleReleaseIff(idleTimeout: bool, before: seq<Event>, e: Event, after: seq<Event>, id: ConnId, d: nat)
    requires 1 <= d <= Deadlines.CAPACITY && Legal(Begin(idleTimeout), before, d)
    requires Lifecycle.NoDoubleClose(Acts(before))
    requires var t := Run(Begin(idleTimeout), before, d);
             Enabled(t, e) && e.Act? && Starts(t.server, e.a, id) && Legal(Step(t, e, d), after, d)
    ensures var t := Step(Run(Begin(idleTimeout), before, d), e, d);
            TimedOut(Run(t, after, d), id) <==> IdlesOut(t, after, id, 0, d)
  {
    hide Coupled, Enabled, Step, Starts, Counting, TimedOut, IdlesOut, Lifecycle.Invariant;
    var t := Run(Begin(idleTimeout), before, d);
    BeginsCoupled(idleTimeout, d);
    RunKeepsCoupled(Begin(idleTimeout), before, d);
    ServerRuns(Begin(idleTimeout), before, d);
    Lifecycle.NewServerIsSound(idleTimeout);
    Lifecycle.RunKeepsInvariant(Lifecycle.Started(idleTimeout), Acts(before));
    StartCounts(t, e, id, d);
    StepKeepsCoupled(t, e, d);
    ShutDownIffIdle(Step(t, e, d), after, id, 0, d);
  }

  // ---------------------------------------------------------------- whose timer runs

  /** With idle release on, the timer of a connection that has been asked for runs until it shuts the connection down,
      or until that is destroyed; with idle release off there is none. */
  predicate TimerRight(idleTimeout: bool, c: Lifecycle.Conn) {
    && (c.stage.AwaitsTimer? ==> idleTimeout)
    && (!idleTimeout ==> c.timer.NoTimer? && Lifecycle.TimerShutdown !in c.log)
    && (idleTimeout && !c.stage.AwaitsTimer? && !c.stage.Gone? ==>
          c.timer == if Lifecycle.TimerShutdown in c.log then Lifecycle.NoTimer else Lifecycle.Armed(false))
  }

  ghost predicate TimersRight(s: Lifecycle.Server) {
    forall id :: id in s.conns ==> TimerRight(s.idleTimeout, s.conns[id])
  }

  predicate OpenTimerRight(s: Lifecycle.Server, s': Lifecycle.Server, id: ConnId) {
    && id in s'.conns && s'.idleTimeout == s.idleTimeout && TimerRight(s.idleTimeout, s'.conns[id])
    && !s'.conns[id].stage.AwaitsTimer? && !s'.conns[id].stage.Gone?
  }

  lemma CloseKeepsTimerRight(s: Lifecycle.Server, id: ConnId)
    requires OpenTimerRight(s, s, id)
    ensures OpenTimerRight(s, Lifecycle.HandlerClose(s, id), id)
  {
    hide Lifecycle.Updated;
    UpdateLeavesTimer(s.conns[id].(reading := false, writing := false));
  }

  lemma ReadKeepsTimerRight(s: Lifecycle.Server, id: ConnId, read: Lifecycle.ReadOutcome, userShutdown: bool)
    requires OpenTimerRight(s, s, id)
    ensures OpenTimerRight(s, Lifecycle.HandlerRead(s, id, read, userShutdown), id)
  {
    hide Lifecycle.HandlerClose;
    CloseKeepsTimerRight(s, id);
  }

  lemma WriteKeepsTimerRight(s: Lifecycle.Server, id: ConnId, drained: bool)
    requires OpenTimerRight(s, s, id)
    ensures OpenTimerRight(s, Lifecycle.HandlerWrite(s, id, drained), id)
  {
    hide Lifecycle.Updated;
    UpdateLeavesTimer(s.conns[id].(writing := false));
    Lifecycle.UpdateKeepsStage(s.conns[id].(writing := false));
  }

  lemma OpenTransitive(s: Lifecycle.Server, s1: Lifecycle.Server, s2: Lifecycle.Server, id: ConnId)
    ensures OpenTimerRight(s, s1, id) ==> OpenTimerRight(s1, s1, id)
    ensures OpenTimerRight(s, s1, id) && OpenTimerRight(s1, s2, id) ==> OpenTimerRight(s, s2, id)
    ensures OpenTimerRight(s, s1, id) ==> id in s1.conns
  {
  }

  lemma EventKeepsTimerRight(s: Lifecycle.Server, id: ConnId, e: Lifecycle.Revents, read: Lifecycle.ReadOutcome,
                             userShutdown: bool, drained: bool)
    requires OpenTimerRight(s, s, id) && id in s.conns
    ensures OpenTimerRight(s, Lifecycle.HandlerEvent(s, id, e, read, userShutdown, drained), id)
  {
    hide Lifecycle.HandlerClose, Lifecycle.HandlerRead, Lifecycle.HandlerWrite, OpenTimerRight;
    CloseKeepsTimerRight(s, id);
    OpenTransitive(s, Lifecycle.HandlerClose(s, id), s, id);
    var s1 := if e.hup && !e.in_ then Lifecycle.HandlerClose(s, id) else s;
    ReadKeepsTimerRight(s1, id, read, userShutdown);
    OpenTransitive(s, s1, Lifecycle.HandlerRead(s1, id, read, userShutdown), id);
    var s2 := if e.in_ || e.pri then Lifecycle.HandlerRead(s1, id, read, userShutdown) else s1;
    OpenTransitive(s, s2, s2, id);
    WriteKeepsTimerRight(s2, id, drained);
    OpenTransitive(s, s2, Lifecycle.HandlerWrite(s2, id, drained), id);
  }

  lemma TaskKeepsTimerRight(s: Lifecycle.Server, l: LoopId)
    requires Lifecycle.Invariant(s) && Lifecycle.Enabled(s, Lifecycle.RunTask(l))
    requires TimerRight(s.idleTimeout, s.conns[Lifecycle.Q(s, l)[0].id])
    ensures var id, s' := Lifecycle.Q(s, l)[0].id, Lifecycle.Step(s, Lifecycle.RunTask(l));
            id in s'.conns && s'.idleTimeout == s.idleTimeout && TimerRight(s.idleTimeout, s'.conns[id])
  {
    hide Lifecycle.Invariant, Lifecycle.About, Lifecycle.Updated, Lifecycle.Removed;
    Lifecycle.HeadTask(s, l);
    Lifecycle.MapsMatch(s, Lifecycle.Q(s, l)[0].id);
    var c := s.conns[Lifecycle.Q(s, l)[0].id];
    UpdateLeavesTimer(c.(reading := true));
    hide Lifecycle.DestroyedOn;
    DestroyedTimerRight(c);
  }

  lemma DestroyedTimerRight(c: Lifecycle.Conn)
    ensures var c' := Lifecycle.DestroyedOn(c);
            && c'.stage.Gone? && (c.timer.NoTimer? ==> c'.timer.NoTimer?)
            && (Lifecycle.TimerShutdown in c'.log ==> Lifecycle.TimerShutdown in c.log)
  {
    hide Lifecycle.Updated, Lifecycle.Removed;
    CallsOnTimer(c);
  }

  lemma AcceptKeepsTimerRight(s: Lifecycle.Server, l: LoopId, garbage: bool)
    ensures var id, s' := s.nextId + 1, Lifecycle.Step(s, Lifecycle.Accept(l, garbage));
            id in s'.conns && s'.idleTimeout == s.idleTimeout && TimerRight(s.idleTimeout, s'.conns[id])
  {
    hide Lifecycle.Updated;
    var c := Lifecycle.Fresh(l, garbage, s.idleTimeout);
    UpdateLeavesTimer(c.(reading := true));
    UpdateLeavesTimer(Lifecycle.EnableTimerOn(c).(reading := true));
  }

  lemma StepKeepsTimersRight(s: Lifecycle.Server, a: Lifecycle.Action)
    requires Lifecycle.Invariant(s) && Lifecycle.Enabled(s, a) && !Lifecycle.ClosesTwice(a) && TimersRight(s)
    ensures TimersRight(Lifecycle.Step(s, a))
  {
    var s', id := Lifecycle.Step(s, a), Lifecycle.Subject(s, a);
    Lifecycle.OnlySubjectChanges(s, a);
    assert id in s'.conns && s'.idleTimeout == s.idleTimeout && TimerRight(s.idleTimeout, s'.conns[id]) by {
      SubjectKeepsTimerRight(s, a);
    }
    hide Lifecycle.Step, TimerRight, Lifecycle.Invariant;
  }

  lemma SubjectKeepsTimerRight(s: Lifecycle.Server, a: Lifecycle.Action)
    requires Lifecycle.Invariant(s) && Lifecycle.Enabled(s, a) && !Lifecycle.ClosesTwice(a) && TimersRight(s)
    ensures var s', id := Lifecycle.Step(s, a), Lifecycle.Subject(s, a);
            id in s'.conns && s'.idleTimeout == s.idleTimeout && TimerRight(s.idleTimeout, s'.conns[id])
  {
    hide Lifecycle.Invariant, Lifecycle.NewConnection, Lifecycle.HandlerEvent, Lifecycle.Execute, Lifecycle.Updated;
    match a {
      case Accept(l, garbage) => AcceptKeepsTimerRight(s, l, garbage);
      case RunTask(l) => TaskKeepsTimerRight(s, l);
      case ChannelEvent(id, e, read, userShutdown, drained) =>
        Lifecycle.MapsMatch(s, id);
        EventKeepsTimerRight(s, id, e, read, userShutdown, drained);
      case UserShutdown(id) =>
      case StartWriting(id) =>
        UpdateLeavesTimer(s.conns[id].(writing := true));
        Lifecycle.UpdateKeepsStage(s.conns[id].(writing := true));
      case TimerDropped(id) => Lifecycle.MapsMatch(s, id);
    }
  }

  lemma {:induction false} RunKeepsTimersRight(s: Lifecycle.Server, actions: seq<Lifecycle.Action>)
    requires Lifecycle.Invariant(s) && Lifecycle.Legal(s, actions) && Lifecycle.NoDoubleClose(actions) && TimersRight(s)
    ensures TimersRight(Lifecycle.Run(s, actions)) && Lifecycle.Run(s, actions).idleTimeout == s.idleTimeout
    decreases |actions|
  {
    hide Lifecycle.Invariant, Lifecycle.Step, Lifecycle.Enabled, Lifecycle.ClosesTwice, TimersRight;
    if actions != [] {
      StepKeepsTimersRight(s, actions[0]);
      Lifecycle.StepKeepsInvariant(s, actions[0]);
      ConnectionLives.IdleTimeoutStays(s, actions[0]);
      RunKeepsTimersRight(Lifecycle.Step(s, actions[0]), actions[1..]);
    }
  }

  /** Over every run of a server without double closes: idle release is for all connections or for none. If it is on,
      the timer of a connection that is up and not destroyed runs unless it has shut the connection down. */
  lemma EveryTimerRuns(idleTimeout: bool, actions: seq<Lifecycle.Action>, id: ConnId)
    requires Lifecycle.Legal(Lifecycle.Started(idleTimeout), actions) && Lifecycle.NoDoubleClose(actions)
    requires id in Lifecycle.Run(Lifecycle.Started(idleTimeout), actions).conns
    ensures var c := Lifecycle.Run(Lifecycle.Started(idleTimeout), actions).conns[id];
            && (!idleTimeout ==> c.timer.NoTimer?)
            && (idleTimeout && Lifecycle.Up in Lifecycle.Life(c.log)
                && Lifecycle.Destroyed !in Lifecycle.Life(c.log) ==>
                  c.timer == if Lifecycle.TimerShutdown in c.log then Lifecycle.NoTimer else Lifecycle.Armed(false))
  {
    hide Lifecycle.Invariant, Lifecycle.Run, Lifecycle.Legal;
    Lifecycle.NewServerIsSound(idleTimeout);
    Lifecycle.RunKeepsInvariant(Lifecycle.Started(idleTimeout), actions);
    RunKeepsTimersRight(Lifecycle.Started(idleTimeout), actions);
    Lifecycle.MapsMatch(Lifecycle.Run(Lifecycle.Started(idleTimeout), actions), id);
    Lifecycle.NoLifeYet();
    hide Lifecycle.Life;
  }
}
