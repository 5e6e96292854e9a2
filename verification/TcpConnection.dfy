/** The sending side of a connection as the loop thread runs it: state, output buffer and channel changed step by
    step. */
module TcpConnections {
  import opened Buffers
  import opened ConnStates
  import opened Pollers
  import opened Outbound

  class TcpConnection {
    var state: ConnState
    const channel: Channel
    const outputBuffer: Buffer
    const config: Config
    var queued: seq<Task>           // callbacks handed to the loop, in order
    ghost var accepted: seq<byte>   // what `send` took
    ghost var written: seq<byte>    // what the socket took
    ghost var lost: nat
    ghost var shutdowns: nat        // calls of `shutdownWrite`

    ghost predicate Valid()
      reads this, outputBuffer, channel, channel.poller, channel.poller.channels
    {
      && outputBuffer.Valid()
      && channel.poller.Valid()
      && channel in channel.poller.channels
    }

    /** What the users of the connection can tell about it. */
    ghost function Model(): Conn
      requires outputBuffer.Valid()
      reads this, outputBuffer, outputBuffer.buffer, channel
    {
      Conn(state, outputBuffer.Contents(), channel.IsWriting(), accepted, written, lost, shutdowns, queued)
    }

    constructor (channel: Channel, config: Config)
      requires channel.poller.Valid() && channel in channel.poller.channels && channel.events == NONE_EVENT
      ensures Valid() && Model() == START && this.channel == channel && this.config == config
      ensures fresh(outputBuffer) && fresh(outputBuffer.buffer) && outputBuffer.buffer.Length == 8 + 1024
    {
      this.channel, this.config := channel, config;
      var b := new Buffer();
      outputBuffer := b;
      state := Connecting;
      queued, accepted, written, lost, shutdowns := [], [], [], 0, 0;
      new;
      InterestsAreIndependent(NONE_EVENT);
    }

    /** `connectEstablished`, up to the connection callback. */
    method ConnectEstablished()
      requires Valid() && state.Connecting?
      modifies this`state, channel, channel.poller`kernel, channel.poller`channelMap
      ensures Valid() && Model() == Step(old(Model()), Establish, config)
      ensures channel.IsReading() && channel.fd in channel.poller.kernel
    {
      state := Connected;
      channel.EnableReading();
      assert channel.events != NONE_EVENT by { InterestsAreIndependent(channel.events); }
    }

    /** `result` is what the kernel answers if the data is offered to the socket directly. */
    method Send(data: seq<byte>, result: WriteResult)
      requires Valid() && Possible(Model(), Event.Send(data, result))
      modifies this, outputBuffer, outputBuffer.buffer, channel, channel.poller`kernel, channel.poller`channelMap
      ensures Valid() && Model() == Step(old(Model()), Event.Send(data, result), config)
      ensures accepted == old(accepted) + if old(state).Connected? then data else []
      ensures |written| + |outputBuffer.Contents()| + lost - |accepted|
           == old(|written| + |outputBuffer.Contents()| + lost - |accepted|)
      ensures outputBuffer.buffer == old(outputBuffer.buffer) || fresh(outputBuffer.buffer)
    {
      if state == Connected {
        SendInLoop(data, result);
      }
    }

    method SendInLoop(data: seq<byte>, result: WriteResult)
      requires Valid() && Possible(Model(), Event.Send(data, result))
      modifies this, outputBuffer, outputBuffer.buffer, channel, channel.poller`kernel, channel.poller`channelMap
      ensures Valid()
      ensures Model() == if old(state).Disconnected? then old(Model()) else SendStep(old(Model()), data, result, config)
      ensures outputBuffer.buffer == old(outputBuffer.buffer) || fresh(outputBuffer.buffer)
    {
      hide OfferStep, RestStep, Taken, EPollPoller.Valid;
      if state == Disconnected {
        return;
      }
      var nwrote, faultError := WriteDirectly(data, result);
      BufferRest(data[nwrote..], faultError);
    }

    /** The first half of `sendInLoop`: with nothing waiting the data is offered to the socket. */
    method WriteDirectly(data: seq<byte>, result: WriteResult) returns (nwrote: nat, faultError: bool)
      requires Valid() && Possible(Model(), Event.Send(data, result))
      modifies this`queued, this`accepted, this`written
      ensures Valid() && Model() == OfferStep(old(Model()), data, result, config)
      ensures nwrote == Taken(old(Model()), data, result)
      ensures faultError <==> Direct(old(Model())) && result.PeerGone?
    {
      hide EPollPoller.Valid;
      nwrote, faultError := 0, false;
      if !channel.IsWriting() && outputBuffer.ReadableBytes() == 0 {
        match result {
          case Wrote(n) =>
            nwrote := n;
            if |data| - nwrote == 0 && config.writeComplete {
              queued := queued + [WriteComplete];
            }
          case WouldBlock =>
          case PeerGone => faultError := true;
          case OtherError =>
        }
      }
      accepted, written := accepted + data, written + data[..nwrote];
    }

    /** The second half: what the socket did not take goes to the output buffer, unless the peer is gone. */
    method BufferRest(rest: seq<byte>, faultError: bool)
      requires Valid()
      modifies this`queued, this`lost, outputBuffer, outputBuffer.buffer, channel, channel.poller`kernel,
               channel.poller`channelMap
      ensures Valid() && Model() == RestStep(old(Model()), rest, faultError, config)
      ensures outputBuffer.buffer == old(outputBuffer.buffer) || fresh(outputBuffer.buffer)
    {
      hide EPollPoller.Valid, EPollPoller.Updated;
      if |rest| == 0 {
        return;
      }
      if faultError {
        lost := lost + |rest|;
        return;
      }
      var oldlen := outputBuffer.ReadableBytes();
      if oldlen + |rest| >= config.mark && oldlen < config.mark && config.highWater {
        queued := queued + [HighWater(oldlen + |rest|)];
      }
      outputBuffer.Append(rest);
      if !channel.IsWriting() {
        channel.EnableWriting();
      }
    }

    /** The write callback; `result` is what the kernel answers to the offer of everything readable. */
    method HandleWrite(result: WriteResult)
      requires Valid() && Possible(Model(), Writable(result))
      modifies this, outputBuffer`readerIndex, outputBuffer`writerIndex
      modifies channel, channel.poller`kernel, channel.poller`channelMap
      ensures Valid() && Model() == Step(old(Model()), Writable(result), config)
    {
      hide EPollPoller.Valid, EPollPoller.Updated;
      if channel.IsWriting() {
        if result.Wrote? && result.n > 0 {
          written := written + outputBuffer.Contents()[..result.n];
          outputBuffer.Retrieve(result.n);
          if outputBuffer.ReadableBytes() == 0 {
            channel.DisableWriting();
            if config.writeComplete {
              queued := queued + [WriteComplete];
            }
            if state == Disconnecting {
              ShutdownInLoop();
            }
          }
        }
      }
    }

    method Shutdown()
      requires Valid()
      modifies this`state, this`shutdowns
      ensures Valid() && Model() == Step(old(Model()), Event.Shutdown, config)
    {
      if state == Connected {
        state := Disconnecting;
        ShutdownInLoop();
      }
    }

    /** `shutdownWrite` only when the channel no longer waits for writability. */
    method ShutdownInLoop()
      requires Valid()
      modifies this`shutdowns
      ensures shutdowns == old(shutdowns) + if channel.IsWriting() then 0 else 1
    {
      if !channel.IsWriting() {
        shutdowns := shutdowns + 1;
      }
    }

    /** `handlerClose`, up to the callbacks. */
    method HandlerClose()
      requires Valid()
      modifies this`state, channel, channel.poller`kernel, channel.poller`channelMap
      ensures Valid() && Model() == Step(old(Model()), Close, config)
      ensures channel.events == NONE_EVENT
    {
      state := Disconnected;
      channel.DisableAll();
    }

    method Perform(e: Event)
      requires Valid() && Possible(Model(), e)
      modifies this, outputBuffer, outputBuffer.buffer, channel, channel.poller`kernel, channel.poller`channelMap
      ensures Valid() && Model() == Step(old(Model()), e, config)
      ensures outputBuffer.buffer == old(outputBuffer.buffer) || fresh(outputBuffer.buffer)
    {
      hide SendStep, WritableStep;
      match e {
        case Establish => ConnectEstablished();
        case Send(data, result) => Send(data, result);
        case Writable(result) => HandleWrite(result);
        case Shutdown => Shutdown();
        case Close => HandlerClose();
      }
    }
  }

  /** Every run of loop-thread events on a new connection, with whatever the kernel answers, is a run of the
      outbound stream and keeps its invariant. */
  method RunConnection(channel: Channel, config: Config, events: seq<Event>) returns (c: TcpConnection)
    requires channel.poller.Valid() && channel in channel.poller.channels && channel.events == NONE_EVENT
    requires Runs(START, events, config)
    modifies channel, channel.poller`kernel, channel.poller`channelMap
    ensures fresh(c) && c.Valid() && c.Model() == Run(START, events, config) && Invariant(c.Model())
    ensures c.accepted == SentIn(UntilEnd(AfterEstablish(events)))
    ensures c.lost == 0 ==> c.written + c.outputBuffer.Contents() == SentIn(UntilEnd(AfterEstablish(events)))
    ensures c.queued == AllCallbacks(START, events, config)
    ensures c.shutdowns == 1 <==> exists i: nat :: DrainedAt(events, i, config)
  {
    hide Step, Possible;
    c := new TcpConnection(channel, config);
    var k := 0;
    assert events[0..] == events;
    while k < |events|
      invariant 0 <= k <= |events|
      invariant fresh(c) && fresh(c.outputBuffer) && fresh(c.outputBuffer.buffer) && c.channel == channel
                && c.config == config
      invariant c.Valid() && Runs(c.Model(), events[k..], config)
      invariant Run(c.Model(), events[k..], config) == Run(START, events, config)
    {
      assert events[k..][0] == events[k] && events[k..][1..] == events[k + 1..];
      c.Perform(events[k]);
      k := k + 1;
    }
    RunKeepsInvariant(START, events, config);
    AcceptedIsWhatWasSent(events, config);
    CallbacksQueued(events, config);
    ShutDownIffDrained(events, config);
  }
}
