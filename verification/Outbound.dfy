/** The four states of a connection. */
module ConnStates {
  datatype ConnState = Connecting | Connected | Disconnecting | Disconnected
}

/** The bytes a connection sends, as its users see them: what was accepted, what the socket took, what still waits. */
module Outbound {
  import opened Buffers
  import opened ConnStates

  /** The outcome of one `write`: a partial write, a full socket, a vanished peer (EPIPE, ECONNRESET), any other
      error. */
  datatype WriteResult = Wrote(n: nat) | WouldBlock | PeerGone | OtherError

  /** What the connection queues for later. */
  datatype Task = WriteComplete | HighWater(size: nat)

  /** Which callbacks are set, and the high-water mark. */
  datatype Config = Config(writeComplete: bool, highWater: bool, mark: nat)

  datatype Conn = Conn(
    state: ConnState,
    pending: seq<byte>,   // the contents of the output buffer
    writing: bool,        // is the channel interested in writing?
    accepted: seq<byte>,  // everything `send` took
    written: seq<byte>,   // everything the socket took
    lost: nat,            // how many accepted bytes were dropped because the peer was gone
    shutdowns: nat,       // how often the write side was shut down
    queued: seq<Task>)

  datatype Event =
    | Establish | Send(data: seq<byte>, result: WriteResult) | Writable(result: WriteResult) | Shutdown | Close

  const START := Conn(Connecting, [], false, [], [], 0, 0, [])

  /** The kernel takes no more than it is offered, and a connection is established once. */
  predicate Possible(c: Conn, e: Event) {
    match e
    case Establish => c.state.Connecting?
    case Send(data, result) => result.Wrote? ==> result.n <= |data|
    case Writable(result) => result.Wrote? ==> result.n <= |c.pending|
    case Shutdown => true
    case Close => true
  }

  function Step(c: Conn, e: Event, g: Config): Conn
    requires Possible(c, e)
  {
    match e
    case Establish => c.(state := Connected)
    case Send(data, result) => if c.state.Connected? then SendStep(c, data, result, g) else c
    case Writable(result) => WritableStep(c, result, g)
    case Shutdown =>
      if !c.state.Connected? then c
      else c.(state := Disconnecting, shutdowns := c.shutdowns + if c.writing then 0 else 1)
    case Close => c.(state := Disconnected, writing := false)
  }

  /** With nothing waiting, data is offered to the socket directly. */
  predicate Direct(c: Conn) {
    !c.writing && c.pending == []
  }

  /** How much of it the socket takes. */
  function Taken(c: Conn, data: seq<byte>, result: WriteResult): (n: nat)
    requires result.Wrote? ==> result.n <= |data|
    ensures n <= |data|
  {
    if Direct(c) && result.Wrote? then result.n else 0
  }

  function OfferStep(c: Conn, data: seq<byte>, result: WriteResult, g: Config): Conn
    requires result.Wrote? ==> result.n <= |data|
  {
    var n := Taken(c, data, result);
    c.(accepted := c.accepted + data, written := c.written + data[..n],
       queued := if Direct(c) && result.Wrote? && n == |data| && g.writeComplete
                 then c.queued + [WriteComplete] else c.queued)
  }

  /** What the socket did not take is dropped if the peer is `gone` and buffered otherwise. */
  function RestStep(c: Conn, rest: seq<byte>, gone: bool, g: Config): Conn {
    if |rest| == 0 then c
    else if gone then c.(lost := c.lost + |rest|)
    else
      c.(pending := c.pending + rest, writing := true,
         queued := if g.highWater && |c.pending| < g.mark <= |c.pending| + |rest|
                   then c.queued + [HighWater(|c.pending| + |rest|)] else c.queued)
  }

  /** A send writes what it can if nothing waits, and buffers the rest unless the peer is gone. */
  function SendStep(c: Conn, data: seq<byte>, result: WriteResult, g: Config): Conn
    requires result.Wrote? ==> result.n <= |data|
  {
    RestStep(OfferStep(c, data, result, g), data[Taken(c, data, result)..], Direct(c) && result.PeerGone?, g)
  }

  /** When the socket becomes writable, what it takes leaves the buffer; a drained buffer ends the interest in
      writing and carries out a shutdown that was waiting for it. */
  function WritableStep(c: Conn, result: WriteResult, g: Config): Conn
    requires result.Wrote? ==> result.n <= |c.pending|
  {
    if !c.writing || !result.Wrote? || result.n == 0 then c else
      var c1 := c.(written := c.written + c.pending[..result.n], pending := c.pending[result.n..]);
      if c1.pending != [] then c1 else
        c1.(writing := false,
            queued := c.queued + (if g.writeComplete then [WriteComplete] else []),
            shutdowns := c.shutdowns + if c.state.Disconnecting? then 1 else 0)
  }

  predicate Runs(c: Conn, events: seq<Event>, g: Config)
    decreases |events|
  {
    events == [] || (Possible(c, events[0]) && Runs(Step(c, events[0], g), events[1..], g))
  }

  function Run(c: Conn, events: seq<Event>, g: Config): Conn
    requires Runs(c, events, g)
    decreases |events|
  {
    if events == [] then c else Run(Step(c, events[0], g), events[1..], g)
  }

  // ---------------------------------------------------------------- what every run keeps

  ghost predicate Invariant(c: Conn) {
    // conservation: nothing is lost, duplicated or reordered unless the peer was gone
    && |c.accepted| == |c.written| + |c.pending| + c.lost
    && (c.lost == 0 ==> c.accepted == c.written + c.pending)
    // the channel waits for writability exactly while bytes wait
    && (!c.state.Disconnected? ==> (c.writing <==> c.pending != []))
    && (c.state.Disconnected? ==> !c.writing)
    // orderly half-close
    && (c.state.Connecting? ==> c.accepted == [])
    && (c.state.Connecting? || c.state.Connected? ==> c.shutdowns == 0)
    && (c.state.Disconnecting? ==> c.shutdowns == if c.pending == [] then 1 else 0)
    && c.shutdowns <= 1
    && (c.shutdowns == 1 ==> c.pending == [])
  }

  /** Appending `data` to a stream split anywhere inside it. */
  lemma SplitAppend(w: seq<byte>, p: seq<byte>, data: seq<byte>, n: nat)
    requires n <= |data| && (n == 0 || p == [])
    ensures (w + p) + data == (w + data[..n]) + (p + data[n..])
  {
    assert data == data[..n] + data[n..];
    if n == 0 {
      assert w + data[..n] == w && data[n..] == data;
      assert (w + p) + data == w + (p + data);
    } else {
      assert w + p == w && p + data[n..] == data[n..];
      assert w + (data[..n] + data[n..]) == (w + data[..n]) + data[n..];
    }
  }

  lemma SendKeepsInvariant(c: Conn, data: seq<byte>, result: WriteResult, g: Config)
    requires Invariant(c) && c.state.Connected? && (result.Wrote? ==> result.n <= |data|)
    ensures Invariant(SendStep(c, data, result, g))
  {
    var n := if !c.writing && c.pending == [] && result.Wrote? then result.n else 0;
    SplitAppend(c.written, c.pending, data, n);
    assert data[n..] == [] ==> c.pending + data[n..] == c.pending;
  }

  lemma WritableKeepsInvariant(c: Conn, result: WriteResult, g: Config)
    requires Invariant(c) && (result.Wrote? ==> result.n <= |c.pending|)
    ensures Invariant(WritableStep(c, result, g))
  {
    if result.Wrote? {
      var taken, rest := c.pending[..result.n], c.pending[result.n..];
      assert c.pending == taken + rest;
      assert c.written + (taken + rest) == (c.written + taken) + rest;
    }
  }

  lemma StepKeepsInvariant(c: Conn, e: Event, g: Config)
    requires Invariant(c) && Possible(c, e)
    ensures Invariant(Step(c, e, g))
  {
    hide SendStep, WritableStep;
    match e {
      case Send(data, result) =>
        if c.state.Connected? {
          SendKeepsInvariant(c, data, result, g);
        }
      case Writable(result) =>
        WritableKeepsInvariant(c, result, g);
      case _ =>
    }
  }

  lemma {:induction false} RunKeepsInvariant(c: Conn, events: seq<Event>, g: Config)
    requires Invariant(c) && Runs(c, events, g)
    ensures Invariant(Run(c, events, g))
    decreases |events|
  {
    if events != [] {
      StepKeepsInvariant(c, events[0], g);
      RunKeepsInvariant(Step(c, events[0], g), events[1..], g);
    }
  }

  /** Over every run: what was accepted is what the socket took followed by what waits, exactly when no byte
      was offered to a vanished peer; interest in writing means bytes wait; the write side is shut down
      at most once, and then nothing waits any more. */
  lemma {:induction false} OutboundStreamIsConserved(events: seq<Event>, g: Config)
    requires Runs(START, events, g)
    ensures var c := Run(START, events, g);
            && (c.accepted == c.written + c.pending <==> c.lost == 0)
            && (!c.state.Disconnected? ==> (c.writing <==> c.pending != []))
            && c.shutdowns <= 1
            && (c.shutdowns == 1 && c.lost == 0 ==> c.accepted == c.written)
  {
    RunKeepsInvariant(START, events, g);
  }

  /** Bytes are lost exactly by sends that the kernel answers with EPIPE or ECONNRESET while nothing waits. */
  lemma LossIsPeerGone(c: Conn, e: Event, g: Config)
    requires Invariant(c) && Possible(c, e)
    ensures Step(c, e, g).lost > c.lost
       <==> e.Send? && e.data != [] && e.result.PeerGone? && c.state.Connected? && c.pending == []
  {
  }

  /** It happens on the first byte sent: the peer is gone before it is written. */
  lemma LossIsReachable(g: Config)
    ensures var events := [Establish, Send([1], PeerGone)];
            && Runs(START, events, g) && Run(START, events, g).lost == 1
            && Run(START, events, g).accepted != Run(START, events, g).written + Run(START, events, g).pending
  {
    var connected := START.(state := Connected);
    var e := Send([1], PeerGone);
    var lost := Step(connected, e, g);
    LossIsPeerGone(connected, e, g);
    assert [Establish, e][1..] == [e] && [e][1..] == [];
    assert Runs(lost, [], g) && Run(lost, [], g) == lost;
    assert Runs(connected, [e], g) && Run(connected, [e], g) == lost;
    assert Step(START, Establish, g) == connected;
  }

  /** After the write side is shut down the socket takes no more bytes and `send` accepts none. */
  lemma {:induction false} NothingAfterShutdown(c: Conn, events: seq<Event>, g: Config)
    requires Invariant(c) && Runs(c, events, g) && c.shutdowns == 1
    ensures var c' := Run(c, events, g);
            c'.written == c.written && c'.accepted == c.accepted && c'.shutdowns == 1
    decreases |events|
  {
    if events != [] {
      StepKeepsInvariant(c, events[0], g);
      assert !c.writing;
      NothingAfterShutdown(Step(c, events[0], g), events[1..], g);
    }
  }

  /** A shutdown requested while bytes wait is carried out by the write that drains them. */
  lemma DrainCarriesOutShutdown(c: Conn, g: Config)
    requires Invariant(c) && c.state.Disconnecting? && c.pending != []
    ensures c.shutdowns == 0
    ensures var c' := Step(c, Writable(Wrote(|c.pending|)), g);
            c'.shutdowns == 1 && c'.written == c.written + c.pending && c'.pending == []
    ensures forall n: nat :: n < |c.pending| ==> Step(c, Writable(Wrote(n)), g).shutdowns == 0
  {
    assert c.pending[..|c.pending|] == c.pending;
  }

  // ---------------------------------------------------------------- the same, told from the events alone

  function AfterEstablish(events: seq<Event>): seq<Event> {
    if events == [] then [] else if events[0].Establish? then events[1..] else AfterEstablish(events[1..])
  }

  function UntilEnd(events: seq<Event>): seq<Event> {
    if events == [] || events[0].Shutdown? || events[0].Close? then [] else [events[0]] + UntilEnd(events[1..])
  }

  function SentIn(events: seq<Event>): seq<byte> {
    if events == [] then [] else (if events[0].Send? then events[0].data else []) + SentIn(events[1..])
  }

  lemma {:induction false} NothingWhileClosed(c: Conn, events: seq<Event>, g: Config)
    requires Runs(c, events, g) && (c.state.Disconnecting? || c.state.Disconnected?)
    ensures var c' := Run(c, events, g);
            && c'.accepted == c.accepted && !c'.state.Connected? && !c'.state.Connecting?
            && (c.state.Disconnected? || Close in events <==> c'.state.Disconnected?)
    decreases |events|
  {
    if events != [] {
      NothingWhileClosed(Step(c, events[0], g), events[1..], g);
    }
  }

  lemma {:induction false} AcceptedWhileOpen(c: Conn, events: seq<Event>, g: Config)
    requires Runs(c, events, g) && c.state.Connected?
    ensures var c' := Run(c, events, g);
            && c'.accepted == c.accepted + SentIn(UntilEnd(events))
            && (c'.state.Connected? <==> UntilEnd(events) == events)
            && (c'.state.Disconnected? <==> Close in events)
            && !c'.state.Connecting?
    decreases |events|
  {
    if events != [] {
      var e, c1 := events[0], Step(c, events[0], g);
      if e.Shutdown? || e.Close? {
        NothingWhileClosed(c1, events[1..], g);
      } else {
        SendAccepts(c, e, g);
        hide SendStep, WritableStep;
        AcceptedWhileOpen(c1, events[1..], g);
        assert UntilEnd(events)[1..] == UntilEnd(events[1..]);
        assert events == [e] + events[1..];
      }
    }
  }

  lemma SendAccepts(c: Conn, e: Event, g: Config)
    requires Possible(c, e) && c.state.Connected? && !e.Shutdown? && !e.Close?
    ensures var c' := Step(c, e, g);
            c'.state.Connected? && c'.accepted == c.accepted + (if e.Send? then e.data else [])
  {
  }

  /** What is accepted, and when the connection is in which state, is told by the events: the data of all sends after
      the connection was established and before it was first shut down or closed, whatever waits and whatever the kernel
      answered. */
  lemma {:induction false} AcceptedIsWhatWasSent(events: seq<Event>, g: Config)
    requires Runs(START, events, g)
    ensures var c, open := Run(START, events, g), AfterEstablish(events);
            && c.accepted == SentIn(UntilEnd(open))
            && (c.state.Connected? <==> Establish in events && UntilEnd(open) == open)
            && (c.state.Disconnected? <==> Close in events)
            && (c.state.Connecting? <==> Establish !in events && Close !in events)
  {
    AcceptedFrom(START, events, g);
    hide SendStep, WritableStep;
  }

  lemma {:induction false} AcceptedFrom(c: Conn, events: seq<Event>, g: Config)
    requires Runs(c, events, g) && c.state.Connecting? && !c.writing
    ensures var c', open := Run(c, events, g), AfterEstablish(events);
            && c'.accepted == c.accepted + SentIn(UntilEnd(open))
            && (c'.state.Connected? <==> Establish in events && UntilEnd(open) == open)
            && (c'.state.Disconnected? <==> Close in events)
            && (c'.state.Connecting? <==> Establish !in events && Close !in events)
    decreases |events|
  {
    if events != [] {
      var e, c1 := events[0], Step(c, events[0], g);
      if e.Establish? {
        AcceptedWhileOpen(c1, events[1..], g);
      } else if e.Close? {
        NeverEstablished(c1, events[1..], g);
      } else {
        AcceptedFrom(c1, events[1..], g);
      }
    }
  }

  /** A connection that was closed first cannot be established any more. */
  lemma {:induction false} NeverEstablished(c: Conn, events: seq<Event>, g: Config)
    requires Runs(c, events, g) && c.state.Disconnected?
    ensures Establish !in events && AfterEstablish(events) == []
    ensures Run(c, events, g).accepted == c.accepted && Run(c, events, g).state.Disconnected?
    decreases |events|
  {
    if events != [] {
      NeverEstablished(Step(c, events[0], g), events[1..], g);
    }
  }

  /** Where the bytes of one send go. */
  lemma SendTo(c: Conn, data: seq<byte>, result: WriteResult, g: Config)
    requires Invariant(c) && Possible(c, Send(data, result))
    ensures !c.state.Connected? ==> Step(c, Send(data, result), g) == c
    ensures c.state.Connected? ==>
              var c' := Step(c, Send(data, result), g);
              && c'.accepted == c.accepted + data && c'.state.Connected? && c'.shutdowns == c.shutdowns
              && (c.pending != [] ==> c'.written == c.written && c'.pending == c.pending + data && c'.lost == c.lost)
              && (c.pending == [] && result.Wrote? ==>
                    && c'.written == c.written + data[..result.n] && c'.pending == data[result.n..]
                    && c'.lost == c.lost)
              && (c.pending == [] && (result.WouldBlock? || result.OtherError?) ==>
                    c'.written == c.written && c'.pending == data && c'.lost == c.lost)
              && (c.pending == [] && result.PeerGone? ==>
                    c'.written == c.written && c'.pending == [] && c'.lost == c.lost + |data|)
  {
    assert data[..0] == [] && data[0..] == data;
    if c.state.Connected? && c.pending == [] && result.Wrote? && result.n == |data| {
      assert data[result.n..] == [];
    }
  }

  /** What a writable socket takes, and when: as long as bytes wait and the connection is not closed. */
  lemma WritableTakes(c: Conn, result: WriteResult, g: Config)
    requires Invariant(c) && Possible(c, Writable(result))
    ensures var c' := Step(c, Writable(result), g);
            if result.Wrote? && result.n > 0 && !c.state.Disconnected? then
              && c'.written == c.written + c.pending[..result.n] && c'.pending == c.pending[result.n..]
              && c'.accepted == c.accepted && c'.lost == c.lost && c'.state == c.state
            else c' == c
  {
  }

  /** The callbacks that an event queues: write-complete when it empties what there was to write, and high-water when
      what waits crosses the mark upwards. */
  function Callbacks(c: Conn, e: Event, g: Config): seq<Task>
    requires Possible(c, e)
  {
    if e.Send? && c.state.Connected? then
      var waits := |c.pending| + |e.data| - if c.pending == [] && e.result.Wrote? then e.result.n else 0;
      if c.pending == [] && e.result.Wrote? && e.result.n == |e.data| then
        if g.writeComplete then [WriteComplete] else []
      else if c.pending == [] && e.result.PeerGone? then []
      else if g.highWater && |c.pending| < g.mark <= waits then [HighWater(waits)]
      else []
    else if e.Writable? && !c.state.Disconnected? && e.result.Wrote? && e.result.n == |c.pending| > 0
            && g.writeComplete then [WriteComplete]
    else []
  }

  lemma StepQueues(c: Conn, e: Event, g: Config)
    requires Invariant(c) && Possible(c, e)
    ensures Step(c, e, g).queued == c.queued + Callbacks(c, e, g)
  {
    if e.Send? && c.state.Connected? && c.pending == [] {
      assert e.data[0..] == e.data;
      if e.result.Wrote? {
        assert |e.data[e.result.n..]| == |e.data| - e.result.n;
      }
    }
    if e.Writable? && e.result.Wrote? {
      assert c.pending[e.result.n..] == [] <==> e.result.n == |c.pending|;
    }
  }

  function AllCallbacks(c: Conn, events: seq<Event>, g: Config): seq<Task>
    requires Runs(c, events, g)
    decreases |events|
  {
    if events == [] then [] else Callbacks(c, events[0], g) + AllCallbacks(Step(c, events[0], g), events[1..], g)
  }

  lemma {:induction false} QueuedFrom(c: Conn, events: seq<Event>, g: Config)
    requires Invariant(c) && Runs(c, events, g)
    ensures Run(c, events, g).queued == c.queued + AllCallbacks(c, events, g)
    decreases |events|
  {
    if events != [] {
      hide Invariant, Step, Callbacks, Possible;
      StepQueues(c, events[0], g);
      StepKeepsInvariant(c, events[0], g);
      QueuedFrom(Step(c, events[0], g), events[1..], g);
    }
  }

  /** Over every run exactly these callbacks are queued, in this order. */
  lemma {:induction false} CallbacksQueued(events: seq<Event>, g: Config)
    requires Runs(START, events, g)
    ensures Run(START, events, g).queued == AllCallbacks(START, events, g)
  {
    QueuedFrom(START, events, g);
  }

  lemma {:induction false} LastEvent(c: Conn, events: seq<Event>, g: Config)
    requires Runs(c, events, g) && events != []
    ensures var init, e := events[..|events| - 1], events[|events| - 1];
            Runs(c, init, g) && Possible(Run(c, init, g), e) && Run(c, events, g) == Step(Run(c, init, g), e, g)
    decreases |events|
  {
    hide Step, Possible;
    if |events| > 1 {
      LastEvent(Step(c, events[0], g), events[1..], g);
      assert events[1..][..|events| - 2] == events[..|events| - 1][1..];
    }
  }

  /** After `i` events a shutdown had been asked for and nothing waited any more. */
  ghost predicate DrainedAt(events: seq<Event>, i: nat, g: Config) {
    && i <= |events| && Runs(START, events[..i], g)
    && var c := Run(START, events[..i], g); c.state.Disconnecting? && c.pending == []
  }

  /** The write side is shut down exactly if a shutdown was asked for and at some time after that, before a close,
      nothing waited. */
  lemma {:induction false} ShutDownIffDrained(events: seq<Event>, g: Config)
    requires Runs(START, events, g)
    ensures Run(START, events, g).shutdowns == 1 <==> exists i: nat :: DrainedAt(events, i, g)
    decreases |events|
  {
    hide Runs, Run, Step;
    RunNothing(g);
    if events == [] {
      assert forall i: nat :: !DrainedAt(events, i, g) by {
        assert events[..0] == [];
      }
    } else {
      var n := |events| - 1;
      var init := events[..n];
      LastEvent(START, events, g);
      ShutDownIffDrained(init, g);
      RunKeepsInvariant(START, init, g);
      assert events[..|events|] == events;
      DrainedBefore(events, g);
      ShutDownStep(Run(START, init, g), events[n], g);
      StepKeepsInvariant(Run(START, init, g), events[n], g);
    }
  }

  lemma RunNothing(g: Config)
    ensures Runs(START, [], g) && Run(START, [], g) == START
  {
  }

  lemma DrainedBefore(events: seq<Event>, g: Config)
    requires events != [] && Runs(START, events, g)
    ensures var init := events[..|events| - 1];
            && (forall i: nat :: i < |events| ==> (DrainedAt(events, i, g) <==> DrainedAt(init, i, g)))
            && (forall i: nat :: DrainedAt(init, i, g) ==> i < |events|)
            && (forall i: nat :: DrainedAt(events, i, g) ==> i <= |events|)
            && (DrainedAt(events, |events|, g) <==>
                  var c := Run(START, events, g); c.state.Disconnecting? && c.pending == [])
  {
    hide Runs, Run;
    var init := events[..|events| - 1];
    assert events[..|events|] == events;
    forall i: nat | i < |events| ensures DrainedAt(events, i, g) <==> DrainedAt(init, i, g) {
      assert init[..i] == events[..i];
    }
  }

  lemma ShutDownStep(c: Conn, e: Event, g: Config)
    requires Invariant(c) && Possible(c, e)
    ensures var c' := Step(c, e, g);
            c'.shutdowns == 1 <==> c.shutdowns == 1 || (c'.state.Disconnecting? && c'.pending == [])
  {
  }
}
