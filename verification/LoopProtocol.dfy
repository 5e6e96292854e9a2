/** The queue and wake-up of an event loop as a step system: the loop thread and any number of other
    threads interleave between the atomic actions of the code. */
module LoopProtocol {

  type Functor = nat
  type ThreadId = nat

  /** The largest value an eventfd counter can hold; a write that would exceed it fails and leaves it. */
  const EVENTFD_MAX: nat := 0xffff_ffff_ffff_fffe

  /** Where the loop thread is. */
  datatype Pc =
    | Outside      // not inside `loop()`: before it or after it returned
    | AtTest       // about to test `_quit_`
    | AtPoll       // about to block in `poll`
    | Dispatching  // running the callbacks of active channels
    | EnterDrain   // about to set `_callingPendingFunctors_`
    | AtSwap       // about to swap the pending list under the lock
    | Draining     // running the swapped batch

  datatype Loop = Loop(
    pc: Pc,
    quit: bool,
    calling: bool,          // `_callingPendingFunctors_`
    pending: seq<Functor>,  // `_pendingFunctors_`
    batch: seq<Functor>,    // what is left of the swapped batch
    counter: nat,           // the eventfd
    ownerMid: bool,         // the loop thread has pushed and not yet decided about the wake-up
    mid: set<ThreadId>,     // other threads between their push or quit store and their wake-up
    enqueued: seq<Functor>, // everything ever pushed, in order
    executed: seq<Functor>, // everything ever started, in order
    early: seq<Functor>)    // what the loop thread pushed outside `loop()` since a batch was last swapped

  const CREATED := Loop(Outside, false, false, [], [], 0, false, {}, [], [], [])

  datatype Action =
    | EnterLoop | Test | PollReturns | HandleRead | DispatchDone | SetCalling | Swap | RunOne | DrainDone
    | OwnerPush(f: Functor) | OwnerCheck | OwnerQuit
    | ThreadPush(t: ThreadId, f: Functor) | ThreadQuit(t: ThreadId) | ThreadWake(t: ThreadId)

  /** Callbacks and functors run, so the loop thread may queue and quit, only at these places. */
  predicate OwnerFree(s: Loop) {
    !s.ownerMid && (s.pc.Outside? || s.pc.Dispatching? || s.pc.Draining?)
  }

  predicate Enabled(s: Loop, a: Action) {
    match a
    case EnterLoop => s.pc.Outside? && !s.ownerMid
    case Test => s.pc.AtTest?
    case PollReturns => s.pc.AtPoll?
    case HandleRead => s.pc.Dispatching? && !s.ownerMid
    case DispatchDone => s.pc.Dispatching? && !s.ownerMid
    case SetCalling => s.pc.EnterDrain?
    case Swap => s.pc.AtSwap?
    case RunOne => s.pc.Draining? && !s.ownerMid && s.batch != []
    case DrainDone => s.pc.Draining? && !s.ownerMid && s.batch == []
    case OwnerPush(_) => OwnerFree(s)
    case OwnerCheck => s.ownerMid
    case OwnerQuit => OwnerFree(s)
    case ThreadPush(t, _) => t !in s.mid
    case ThreadQuit(t) => t !in s.mid
    case ThreadWake(t) => t in s.mid
  }

  function Bumped(counter: nat): nat {
    if counter < EVENTFD_MAX then counter + 1 else counter
  }

  function Step(s: Loop, a: Action): Loop
    requires Enabled(s, a)
  {
    match a
    case EnterLoop => s.(pc := AtTest, quit := false)
    case Test => s.(pc := if s.quit then Outside else AtPoll)
    case PollReturns => s.(pc := Dispatching)
    case HandleRead => s.(counter := 0)
    case DispatchDone => s.(pc := EnterDrain)
    case SetCalling => s.(pc := AtSwap, calling := true)
    case Swap => s.(pc := Draining, batch := s.pending, pending := [], early := [])
    case RunOne => s.(batch := s.batch[1..], executed := s.executed + [s.batch[0]])
    case DrainDone => s.(pc := AtTest, calling := false)
    case OwnerPush(f) => s.(pending := s.pending + [f], enqueued := s.enqueued + [f], ownerMid := true,
                            early := if s.pc.Outside? then s.early + [f] else s.early)
    case OwnerCheck => s.(ownerMid := false, counter := if s.calling then Bumped(s.counter) else s.counter)
    case OwnerQuit => s.(quit := true)
    case ThreadPush(t, f) => s.(pending := s.pending + [f], enqueued := s.enqueued + [f], mid := s.mid + {t})
    case ThreadQuit(t) => s.(quit := true, mid := s.mid + {t})
    case ThreadWake(t) => s.(mid := s.mid - {t}, counter := Bumped(s.counter))
  }

  predicate Legal(s: Loop, actions: seq<Action>)
    decreases |actions|
  {
    actions == [] || (Enabled(s, actions[0]) && Legal(Step(s, actions[0]), actions[1..]))
  }

  function Run(s: Loop, actions: seq<Action>): Loop
    requires Legal(s, actions)
    decreases |actions|
  {
    if actions == [] then s else Run(Step(s, actions[0]), actions[1..])
  }

  // ---------------------------------------------------------------- invariants of every interleaving

  /** The eventfd is readable, or some other thread is about to make it so. */
  predicate Signalled(s: Loop) {
    s.counter > 0 || s.mid != {}
  }

  ghost predicate Invariant(s: Loop) {
    Placed(s) && Announced(s)
  }

  /** Every functor is in exactly one place, in the order it was queued. */
  ghost predicate Placed(s: Loop) {
    && s.enqueued == s.executed + s.batch + s.pending
    && (s.batch != [] ==> s.pc.Draining?)
  }

  /** Queued work the loop will not find by itself has been announced, except what its own thread queued outside. */
  ghost predicate Announced(s: Loop) {
    && (s.calling <==> s.pc.AtSwap? || s.pc.Draining?)
    && (s.ownerMid ==> s.pc.Outside? || s.pc.Dispatching? || s.pc.Draining?)
    && (s.pc.Draining? ==> s.early == [])
    && (forall f :: f in s.early ==> f in s.pending)
    && (s.pc.Draining? && s.pending != [] ==> Signalled(s) || s.ownerMid)
    && (s.pc.Outside? || s.pc.AtTest? || s.pc.AtPoll? ==> Signalled(s) || s.pending == s.early)
    && (s.pc.AtPoll? && s.quit ==> Signalled(s))
  }

  lemma StepKeepsInvariant(s: Loop, a: Action)
    requires Invariant(s) && Enabled(s, a)
    ensures Invariant(Step(s, a))
  {
    StepKeepsPlaced(s, a);
    StepKeepsAnnounced(s, a);
  }

  lemma StepKeepsPlaced(s: Loop, a: Action)
    requires Placed(s) && Enabled(s, a)
    ensures Placed(Step(s, a))
  {
    if a == RunOne {
      assert s.batch == [s.batch[0]] + s.batch[1..];
    }
  }

  lemma StepKeepsAnnounced(s: Loop, a: Action)
    requires Announced(s) && Enabled(s, a)
    ensures Announced(Step(s, a))
  {
    if a.ThreadPush? || a.ThreadQuit? {
      assert a.t in Step(s, a).mid;
    }
  }

  lemma {:induction false} RunKeepsInvariant(s: Loop, actions: seq<Action>)
    requires Invariant(s) && Legal(s, actions)
    ensures Invariant(Run(s, actions))
    decreases |actions|
  {
    if actions != [] {
      StepKeepsInvariant(s, actions[0]);
      RunKeepsInvariant(Step(s, actions[0]), actions[1..]);
    }
  }

  /** No lost wake-up, in any interleaving: a loop about to block finds the eventfd readable or a thread about to
      make it so, if a quit is requested or anything is queued other than by its own thread outside `loop()`. */
  lemma {:induction false} NoLostWakeup(actions: seq<Action>)
    requires Legal(CREATED, actions)
    ensures var s := Run(CREATED, actions);
            s.pc.AtPoll? && (s.quit || s.pending != s.early) ==> Signalled(s)
  {
    RunKeepsInvariant(CREATED, actions);
  }

  lemma {:induction false} LastAction(s: Loop, actions: seq<Action>)
    requires Legal(s, actions) && actions != []
    ensures var init, a := actions[..|actions| - 1], actions[|actions| - 1];
            Legal(s, init) && Enabled(Run(s, init), a) && Run(s, actions) == Step(Run(s, init), a)
    decreases |actions|
  {
    hide Step, Enabled;
    if |actions| > 1 {
      LastAction(Step(s, actions[0]), actions[1..]);
      assert actions[1..][..|actions| - 2] == actions[..|actions| - 1][1..];
    }
  }

  /** Action `i` queues a functor from the loop's own thread outside `loop()`, and no batch is swapped from then on. */
  ghost predicate QueuedOutside(actions: seq<Action>, i: nat) {
    && i < |actions| && actions[i].OwnerPush? && Swap !in actions[i..]
    && Legal(CREATED, actions[..i]) && Run(CREATED, actions[..i]).pc.Outside?
  }

  /** Work counts as queued outside exactly when such an action is in the history. */
  lemma {:induction false} EarlyIffQueuedOutside(actions: seq<Action>)
    requires Legal(CREATED, actions)
    ensures Run(CREATED, actions).early != [] <==> exists i :: QueuedOutside(actions, i)
    decreases |actions|
  {
    hide Run, Legal;
    if actions == [] {
      RunNothing(CREATED);
    } else {
      var n := |actions| - 1;
      var init, a := actions[..n], actions[n];
      LastAction(CREATED, actions);
      EarlyIffQueuedOutside(init);
      forall i | 0 <= i < n ensures QueuedOutside(actions, i) <==> QueuedOutside(init, i) && a != Swap {
        assert actions[i..] == init[i..] + [a] && actions[..i] == init[..i];
      }
      assert QueuedOutside(actions, n) <==> a.OwnerPush? && Run(CREATED, init).pc.Outside? by {
        assert actions[n..] == [a];
      }
      if i :| QueuedOutside(init, i) {
        assert a != Swap ==> QueuedOutside(actions, i);
      }
    }
  }

  /** Exactly when: about to block with nobody signalling, work goes unnoticed iff the loop's own thread queued some
      outside `loop()` and no batch was swapped since; then nothing but that work is pending. */
  lemma {:induction false} WakeupLostIffQueuedOutside(actions: seq<Action>)
    requires Legal(CREATED, actions)
    ensures var s := Run(CREATED, actions);
            s.pc.AtPoll? && !Signalled(s) ==>
              (s.pending != [] <==> exists i :: QueuedOutside(actions, i)) && s.pending == s.early
  {
    RunKeepsInvariant(CREATED, actions);
    EarlyIffQueuedOutside(actions);
  }

  /** A functor queued by the loop's own thread before `loop()` is not announced. */
  lemma QueuedOutsideIsNotAnnounced(f: Functor)
    ensures var actions := [OwnerPush(f), OwnerCheck, EnterLoop, Test];
            && Legal(CREATED, actions)
            && Run(CREATED, actions).pc.AtPoll?
            && Run(CREATED, actions).pending == [f]
            && !Signalled(Run(CREATED, actions))
  {
    RunFour(CREATED, OwnerPush(f), OwnerCheck, EnterLoop, Test);
  }

  /** Action `i` requests a quit, and the loop is not entered after it. */
  predicate StandingQuit(actions: seq<Action>, i: nat) {
    && i < |actions| && (actions[i].OwnerQuit? || actions[i].ThreadQuit?)
    && forall j :: i < j < |actions| ==> actions[j] != EnterLoop
  }

  lemma StandingQuitsBefore(init: seq<Action>, a: Action)
    ensures forall i: nat :: i < |init| ==>
              (StandingQuit(init + [a], i) <==> StandingQuit(init, i) && a != EnterLoop)
    ensures forall i: nat :: StandingQuit(init + [a], i) ==> i <= |init|
    ensures forall i: nat :: StandingQuit(init, i) ==> i < |init|
  {
    forall i | 0 <= i < |init|
      ensures StandingQuit(init + [a], i) <==> StandingQuit(init, i) && a != EnterLoop
    {
      assert (init + [a])[|init|] == a;
      if StandingQuit(init + [a], i) {
        forall j | i < j < |init| ensures init[j] != EnterLoop {
          assert (init + [a])[j] == init[j];
        }
      }
    }
  }

  lemma {:induction false} QuitSurvivesFrom(s: Loop, actions: seq<Action>)
    requires Legal(s, actions)
    ensures Run(s, actions).quit <==> (s.quit && EnterLoop !in actions) || exists i :: StandingQuit(actions, i)
    decreases |actions|
  {
    hide Run, Legal;
    if actions == [] {
      RunNothing(s);
    } else {
      var n := |actions| - 1;
      var init, a := actions[..n], actions[n];
      LastAction(s, actions);
      QuitSurvivesFrom(s, init);
      assert actions == init + [a];
      assert StandingQuit(actions, n) <==> a.OwnerQuit? || a.ThreadQuit?;
      hide StandingQuit;
      StandingQuitsBefore(init, a);
    }
  }

  /** A request to quit stands exactly when `loop()` is not entered after it: entering overwrites it. */
  lemma {:induction false} QuitSurvivesIff(actions: seq<Action>)
    requires Legal(CREATED, actions)
    ensures Run(CREATED, actions).quit <==> exists i :: StandingQuit(actions, i)
  {
    QuitSurvivesFrom(CREATED, actions);
  }

  /** A quit requested before `loop()` is overwritten on entry, and the loop blocks. */
  lemma QuitBeforeLoopIsForgotten(t: ThreadId)
    ensures var actions := [ThreadQuit(t), ThreadWake(t), EnterLoop, Test];
            && Legal(CREATED, actions)
            && Run(CREATED, actions).pc.AtPoll?
            && !Run(CREATED, actions).quit
  {
    RunFour(CREATED, ThreadQuit(t), ThreadWake(t), EnterLoop, Test);
  }

  lemma RunFour(s: Loop, a: Action, b: Action, c: Action, d: Action)
    requires Enabled(s, a) && Enabled(Step(s, a), b) && Enabled(Step(Step(s, a), b), c)
    requires Enabled(Step(Step(Step(s, a), b), c), d)
    ensures Legal(s, [a, b, c, d]) && Run(s, [a, b, c, d]) == Step(Step(Step(Step(s, a), b), c), d)
  {
    var s1, s2, s3 := Step(s, a), Step(Step(s, a), b), Step(Step(Step(s, a), b), c);
    hide Step, Enabled, Run, Legal;
    RunNothing(Step(s3, d));
    RunFirst(s3, d, []);
    RunFirst(s2, c, [d]);
    RunFirst(s1, b, [c, d]);
    RunFirst(s, a, [b, c, d]);
    assert [d] + [] == [d] && [c] + [d] == [c, d] && [b] + [c, d] == [b, c, d] && [a] + [b, c, d] == [a, b, c, d];
  }

  lemma RunNothing(s: Loop)
    ensures Legal(s, []) && Run(s, []) == s
  {
  }

  lemma RunFirst(s: Loop, a: Action, rest: seq<Action>)
    requires Enabled(s, a) && Legal(Step(s, a), rest)
    ensures Legal(s, [a] + rest) && Run(s, [a] + rest) == Run(Step(s, a), rest)
  {
    hide Step, Enabled;
    assert ([a] + rest)[1..] == rest;
  }

  /** What the history pushed, by whichever thread. */
  function Pushed(actions: seq<Action>): seq<Functor> {
    if actions == [] then []
    else (if actions[0].OwnerPush? || actions[0].ThreadPush? then [actions[0].f] else []) + Pushed(actions[1..])
  }

  lemma {:induction false} EnqueuedIsPushed(s: Loop, actions: seq<Action>)
    requires Legal(s, actions)
    ensures Run(s, actions).enqueued == s.enqueued + Pushed(actions)
    decreases |actions|
  {
    if actions != [] {
      EnqueuedIsPushed(Step(s, actions[0]), actions[1..]);
    }
  }

  /** Once queued, a functor runs exactly once and in order: what the history pushed is what has run, what is left of
      the batch and what is pending. */
  lemma {:induction false} FunctorsRunOnceInOrder(actions: seq<Action>)
    requires Legal(CREATED, actions)
    ensures var s := Run(CREATED, actions);
            && Pushed(actions) == s.executed + s.batch + s.pending && s.executed <= Pushed(actions)
            && s.enqueued == Pushed(actions)
  {
    EnqueuedIsPushed(CREATED, actions);
    RunKeepsInvariant(CREATED, actions);
    var s := Run(CREATED, actions);
    assert s.executed + s.batch + s.pending == s.executed + (s.batch + s.pending);
  }

  function Count(actions: seq<Action>, a: Action): nat {
    if actions == [] then 0 else (if actions[0] == a then 1 else 0) + Count(actions[1..], a)
  }

  /** While a batch is drained, whatever is queued, by its own functors or by other threads, goes to a later batch:
      each functor started comes from the batch, so a batch of n functors ends after n of them. */
  lemma {:induction false} DrainIsBounded(s: Loop, actions: seq<Action>)
    requires s.pc.Draining? && Legal(s, actions) && DrainDone !in actions
    ensures var s' := Run(s, actions);
            && s'.pc.Draining?
            && s'.executed + s'.batch == s.executed + s.batch
            && Count(actions, RunOne) + |s'.batch| == |s.batch|
            && s.pending <= s'.pending
    decreases |actions|
  {
    if actions != [] {
      var s' := Step(s, actions[0]);
      DrainStep(s, actions[0]);
      hide Step, Enabled;
      DrainIsBounded(s', actions[1..]);
    }
  }

  lemma DrainStep(s: Loop, a: Action)
    requires s.pc.Draining? && Enabled(s, a) && a != DrainDone
    ensures var s' := Step(s, a);
            && s'.pc.Draining?
            && s'.executed + s'.batch == s.executed + s.batch
            && |s'.batch| == |s.batch| - (if a == RunOne then 1 else 0)
            && s.pending <= s'.pending
  {
    if a == RunOne {
      assert s.batch == [s.batch[0]] + s.batch[1..];
    }
  }

  lemma {:induction false} RunAppend(s: Loop, a: seq<Action>, b: seq<Action>)
    requires Legal(s, a) && Legal(Run(s, a), b)
    ensures Legal(s, a + b) && Run(s, a + b) == Run(Run(s, a), b)
    decreases |a|
  {
    if a == [] {
      assert a + b == b;
    } else {
      hide Step, Enabled;
      assert (a + b)[1..] == a[1..] + b;
      RunAppend(Step(s, a[0]), a[1..], b);
    }
  }

  // ---------------------------------------------------------------- the eventfd, told from the history alone

  /** Action `j` raised the flag `_callingPendingFunctors_`, and it has not been lowered since. */
  ghost predicate RaisedAt(actions: seq<Action>, j: nat) {
    j < |actions| && actions[j] == SetCalling && DrainDone !in actions[j..]
  }

  /** The loop thread is between raising and lowering the flag. */
  ghost predicate InDrain(actions: seq<Action>) {
    exists j: nat :: RaisedAt(actions, j)
  }

  /** Action `i` writes the eventfd: another thread does after its push or its quit, the loop's own only in a drain. */
  ghost predicate Wakes(actions: seq<Action>, i: nat) {
    && i < |actions|
    && (actions[i].ThreadWake? || (actions[i].OwnerCheck? && InDrain(actions[..i])))
  }

  /** And it has not been read since. */
  ghost predicate StandingWake(actions: seq<Action>, i: nat) {
    Wakes(actions, i) && HandleRead !in actions[i..]
  }

  lemma RaisedBefore(init: seq<Action>, a: Action)
    ensures InDrain(init + [a]) <==> a == SetCalling || (InDrain(init) && a != DrainDone)
  {
    var actions, n := init + [a], |init|;
    forall j: nat | j < n ensures RaisedAt(actions, j) <==> RaisedAt(init, j) && a != DrainDone {
      assert actions[j..] == init[j..] + [a];
    }
    assert RaisedAt(actions, n) <==> a == SetCalling by {
      assert actions[n..] == [a];
    }
    if j: nat :| RaisedAt(init, j) {
      assert a != DrainDone ==> RaisedAt(actions, j);
    }
    if j: nat :| RaisedAt(actions, j) {
      assert j < n ==> RaisedAt(init, j);
    }
  }

  /** The flag is up exactly within a drain. */
  lemma {:induction false} CallingIffInDrain(actions: seq<Action>)
    requires Legal(CREATED, actions)
    ensures Run(CREATED, actions).calling <==> InDrain(actions)
    decreases |actions|
  {
    hide Run, Legal, InDrain;
    if actions == [] {
      RunNothing(CREATED);
      NeverRaised();
    } else {
      var n := |actions| - 1;
      LastAction(CREATED, actions);
      CallingIffInDrain(actions[..n]);
      assert actions == actions[..n] + [actions[n]];
      RaisedBefore(actions[..n], actions[n]);
    }
  }

  lemma NeverRaised()
    ensures !InDrain([])
  {
  }

  lemma WakesBefore(init: seq<Action>, a: Action)
    ensures (exists i: nat :: StandingWake(init + [a], i)) <==>
              || a.ThreadWake? || (a.OwnerCheck? && InDrain(init))
              || (a != HandleRead && exists i: nat :: StandingWake(init, i))
  {
    hide InDrain;
    var actions, n := init + [a], |init|;
    forall i: nat | i < n ensures StandingWake(actions, i) <==> StandingWake(init, i) && a != HandleRead {
      assert actions[i..] == init[i..] + [a] && actions[..i] == init[..i];
    }
    assert StandingWake(actions, n) <==> a.ThreadWake? || (a.OwnerCheck? && InDrain(init)) by {
      assert actions[n..] == [a] && actions[..n] == init;
    }
    if i: nat :| StandingWake(init, i) {
      assert a != HandleRead ==> StandingWake(actions, i);
    }
    if i: nat :| StandingWake(actions, i) {
      assert i < n ==> StandingWake(init, i);
    }
  }

  /** The eventfd is readable exactly if some wake-up has not been read since: the loop is not kept from blocking by
      wake-ups it has seen. */
  lemma {:induction false} ReadableIffWokenSince(actions: seq<Action>)
    requires Legal(CREATED, actions)
    ensures Run(CREATED, actions).counter > 0 <==> exists i: nat :: StandingWake(actions, i)
    decreases |actions|
  {
    hide Run, Legal, StandingWake;
    if actions == [] {
      RunNothing(CREATED);
      NothingStands();
    } else {
      var n := |actions| - 1;
      LastAction(CREATED, actions);
      CallingIffInDrain(actions[..n]);
      ReadableIffWokenSince(actions[..n]);
      assert actions == actions[..n] + [actions[n]];
      WakesBefore(actions[..n], actions[n]);
    }
  }

  lemma NothingStands()
    ensures forall i: nat :: !StandingWake([], i)
  {
  }

  // ---------------------------------------------------------------- rounds of the loop

  /** `loop()` returns from its test exactly when a quit stands, and otherwise goes to block. */
  lemma ReturnsIffQuitStands(actions: seq<Action>)
    requires Legal(CREATED, actions) && Enabled(Run(CREATED, actions), Test)
    ensures var s := Step(Run(CREATED, actions), Test);
            && (s.pc.Outside? <==> exists i :: StandingQuit(actions, i))
            && (s.pc.AtPoll? <==> !exists i :: StandingQuit(actions, i))
  {
    QuitSurvivesIff(actions);
  }

  /** Where the loop thread goes from each place. */
  lemma RoundOfTheLoop(s: Loop, a: Action)
    requires Enabled(s, a) && Step(s, a).pc != s.pc
    ensures var t := Step(s, a).pc;
            match s.pc
            case Outside => t.AtTest? && a == EnterLoop
            case AtTest => a == Test && (t.Outside? || t.AtPoll?)
            case AtPoll => t.Dispatching? && a == PollReturns
            case Dispatching => t.EnterDrain? && a == DispatchDone
            case EnterDrain => t.AtSwap? && a == SetCalling
            case AtSwap => t.Draining? && a == Swap
            case Draining => t.AtTest? && a == DrainDone && s.batch == []
  {
  }

  /** What was queued when `poll` returned. */
  ghost predicate OwesSince(s: Loop, queued: seq<Functor>) {
    && queued <= s.enqueued
    && (s.pc.Draining? ==> queued <= s.executed + s.batch)
    && (!s.pc.Dispatching? && !s.pc.EnterDrain? && !s.pc.AtSwap? && !s.pc.Draining? ==> queued <= s.executed)
  }

  lemma OwesStep(s: Loop, a: Action, queued: seq<Functor>)
    requires Invariant(s) && Enabled(s, a) && OwesSince(s, queued)
    ensures OwesSince(Step(s, a), queued)
  {
    var s' := Step(s, a);
    assert s.enqueued <= s'.enqueued;
    if a == Swap {
      assert s.batch == [] && s.executed + s.batch + s.pending == s.executed + s.pending;
    } else if a == RunOne {
      assert s.executed + s.batch == s.executed + [s.batch[0]] + s.batch[1..];
    } else if a == DrainDone {
      assert s.executed + s.batch == s.executed;
    }
  }

  lemma {:induction false} OwesForGood(s: Loop, actions: seq<Action>, queued: seq<Functor>)
    requires Invariant(s) && Legal(s, actions) && OwesSince(s, queued)
    ensures OwesSince(Run(s, actions), queued)
    decreases |actions|
  {
    hide Invariant, Step, Enabled, OwesSince;
    if actions != [] {
      OwesStep(s, actions[0], queued);
      StepKeepsInvariant(s, actions[0]);
      OwesForGood(Step(s, actions[0]), actions[1..], queued);
    }
  }

  /** Every round runs what was queued before it: when the loop thread tests, blocks again or returns, all that was
      queued when `poll` last returned has been started. */
  lemma {:induction false} EachRoundRunsWhatWasQueued(before: seq<Action>, after: seq<Action>)
    requires Legal(CREATED, before) && Enabled(Run(CREATED, before), PollReturns)
    requires Legal(Step(Run(CREATED, before), PollReturns), after)
    ensures var s, t := Run(CREATED, before), Run(Step(Run(CREATED, before), PollReturns), after);
            t.pc.AtTest? || t.pc.AtPoll? || t.pc.Outside? ==> s.enqueued <= t.executed
  {
    var s := Run(CREATED, before);
    RunKeepsInvariant(CREATED, before);
    StepKeepsInvariant(s, PollReturns);
    OwesForGood(Step(s, PollReturns), after, s.enqueued);
  }
}
