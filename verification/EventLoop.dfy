/** The event loop object: each of its members, run by one thread, is a run of the step system. */
module EventLoops {
  import opened LoopProtocol

  class EventLoop {
    var quit: bool
    var callingPendingFunctors: bool
    var pendingFunctors: seq<Functor>
    var wakeupCounter: nat            // the eventfd behind `_wakeupFd_`
    ghost var pc: Pc
    ghost var batch: seq<Functor>
    ghost var ownerMid: bool
    ghost var mid: set<ThreadId>
    ghost var enqueued: seq<Functor>
    ghost var executed: seq<Functor>
    ghost var early: seq<Functor>

    ghost function Model(): Loop
      reads this
    {
      Loop(pc, quit, callingPendingFunctors, pendingFunctors, batch, wakeupCounter, ownerMid, mid, enqueued, executed,
           early)
    }

    constructor ()
      ensures Model() == CREATED
    {
      quit, callingPendingFunctors, pendingFunctors, wakeupCounter := false, false, [], 0;
      pc, batch, ownerMid, mid, enqueued, executed, early := Outside, [], false, {}, [], [], [];
    }

    /** A write of one to the eventfd; it fails, harmlessly, when the counter is full. */
    method Wakeup()
      modifies this`wakeupCounter
      ensures wakeupCounter == Bumped(old(wakeupCounter)) && wakeupCounter > 0
      ensures old(wakeupCounter) < 0xffff_ffff_ffff_fffe ==> wakeupCounter == old(wakeupCounter) + 1
      ensures old(wakeupCounter) >= 0xffff_ffff_ffff_fffe ==> wakeupCounter == old(wakeupCounter)
    {
      if wakeupCounter < EVENTFD_MAX {
        wakeupCounter := wakeupCounter + 1;
      }
    }

    /** Reading the eventfd resets it. */
    method HandlerRead()
      requires Enabled(Model(), HandleRead)
      modifies this`wakeupCounter
      ensures Model() == Step(old(Model()), HandleRead) && wakeupCounter == 0
    {
      wakeupCounter := 0;
    }

    method QueueInLoop(cb: Functor, isInLoopThread: bool, ghost t: ThreadId)
      requires if isInLoopThread then OwnerFree(Model()) else t !in mid
      modifies this
      ensures isInLoopThread ==> Model() == Step(Step(old(Model()), OwnerPush(cb)), OwnerCheck)
      ensures !isInLoopThread ==> Model() == Step(Step(old(Model()), ThreadPush(t, cb)), ThreadWake(t))
      ensures pendingFunctors == old(pendingFunctors) + [cb]
      ensures !isInLoopThread || callingPendingFunctors ==> wakeupCounter > 0
      ensures isInLoopThread && !callingPendingFunctors ==> wakeupCounter == old(wakeupCounter)
    {
      if isInLoopThread {
        OwnerQueues(Model(), cb);
      } else {
        ThreadQueues(Model(), t, cb);
      }
      hide Step, Enabled;
      pendingFunctors := pendingFunctors + [cb];
      enqueued := enqueued + [cb];
      early := if isInLoopThread && pc.Outside? then early + [cb] else early;
      if !isInLoopThread || callingPendingFunctors {
        Wakeup();
      }
    }

    method Quit(isInLoopThread: bool, ghost t: ThreadId)
      requires if isInLoopThread then OwnerFree(Model()) else t !in mid
      modifies this`quit, this`wakeupCounter
      ensures isInLoopThread ==> Model() == Step(old(Model()), OwnerQuit)
      ensures !isInLoopThread ==> Model() == Step(Step(old(Model()), ThreadQuit(t)), ThreadWake(t))
      ensures quit && (!isInLoopThread ==> wakeupCounter > 0)
    {
      quit := true;
      if !isInLoopThread {
        Wakeup();
      }
      assert old(mid) + {t} - {t} == old(mid) || t in old(mid);
    }

    /** The flag goes up, then the swap under the lock. */
    method BeginDrain() returns (functors: seq<Functor>)
      requires pc.EnterDrain?
      modifies this`callingPendingFunctors, this`pendingFunctors, this`pc, this`batch, this`early
      ensures Legal(old(Model()), [SetCalling, Swap]) && Model() == Run(old(Model()), [SetCalling, Swap])
      ensures functors == old(pendingFunctors) == batch && pendingFunctors == []
      ensures pc.Draining? && callingPendingFunctors
    {
      TwoSteps(Model(), SetCalling, Swap);
      callingPendingFunctors := true;
      pc := AtSwap;
      functors := pendingFunctors;
      pendingFunctors := [];
      pc, batch, early := Draining, functors, [];
    }

    /** The flag goes down when the batch is done. */
    method EndDrain()
      requires pc.Draining? && !ownerMid && batch == []
      modifies this`callingPendingFunctors, this`pc
      ensures Legal(old(Model()), [DrainDone]) && Model() == Run(old(Model()), [DrainDone])
      ensures pc.AtTest? && !callingPendingFunctors
    {
      OneStep(Model(), DrainDone);
      callingPendingFunctors := false;
      pc := AtTest;
    }

    /** One functor of the batch: starting it, then whatever it queues itself (`own`) while other threads queue
        `others`. */
    method RunFunctor(cb: Functor, own: seq<Functor>, others: seq<(ThreadId, Functor)>)
      returns (ghost actions: seq<Action>)
      requires pc.Draining? && !ownerMid && batch != [] && batch[0] == cb && callingPendingFunctors && mid == {}
      modifies this
      ensures Legal(old(Model()), actions) && Model() == Run(old(Model()), actions) && DrainDone !in actions
      ensures pc.Draining? && callingPendingFunctors && !ownerMid && mid == {}
      ensures executed == old(executed) + [cb] && batch == old(batch)[1..]
      ensures pendingFunctors == old(pendingFunctors) + own + seq(|others|, i requires 0 <= i < |others| => others[i].1)
    {
      hide Legal, Run;
      ghost var start := Model();
      OneStep(start, RunOne);
      batch, executed := batch[1..], executed + [cb];
      ghost var first := QueueOwn(own);
      RunAppend(start, [RunOne], first);
      ghost var second := QueueOthers(others);
      RunAppend(start, [RunOne] + first, second);
      actions := [RunOne] + first + second;
    }

    /** While a functor runs it queues `own`. */
    method QueueOwn(own: seq<Functor>) returns (ghost actions: seq<Action>)
      requires pc.Draining? && callingPendingFunctors && !ownerMid
      modifies this
      ensures Legal(old(Model()), actions) && Model() == Run(old(Model()), actions) && DrainDone !in actions
      ensures pc == old(pc) && callingPendingFunctors && !ownerMid && mid == old(mid)
      ensures executed == old(executed) && batch == old(batch) && pendingFunctors == old(pendingFunctors) + own
    {
      hide Legal, Run;
      ghost var start := Model();
      actions := [];
      RunNothing(start);
      var k := 0;
      while k < |own|
        invariant 0 <= k <= |own|
        invariant Legal(start, actions) && Model() == Run(start, actions) && DrainDone !in actions
        invariant pc == start.pc && callingPendingFunctors && !ownerMid && mid == start.mid
        invariant executed == start.executed && batch == start.batch && pendingFunctors == start.pending + own[..k]
      {
        TwoSteps(Model(), OwnerPush(own[k]), OwnerCheck);
        RunAppend(start, actions, [OwnerPush(own[k]), OwnerCheck]);
        QueueInLoop(own[k], true, 0);
        actions := actions + [OwnerPush(own[k]), OwnerCheck];
        k := k + 1;
      }
    }

    /** Other threads queue `others`. */
    method QueueOthers(others: seq<(ThreadId, Functor)>) returns (ghost actions: seq<Action>)
      requires pc.Draining? && callingPendingFunctors && !ownerMid && mid == {}
      modifies this
      ensures Legal(old(Model()), actions) && Model() == Run(old(Model()), actions) && DrainDone !in actions
      ensures pc == old(pc) && callingPendingFunctors && !ownerMid && mid == {}
      ensures executed == old(executed) && batch == old(batch)
      ensures pendingFunctors == old(pendingFunctors) + seq(|others|, i requires 0 <= i < |others| => others[i].1)
    {
      hide Legal, Run;
      ghost var start := Model();
      actions := [];
      RunNothing(start);
      var k := 0;
      while k < |others|
        invariant 0 <= k <= |others|
        invariant Legal(start, actions) && Model() == Run(start, actions) && DrainDone !in actions
        invariant pc == start.pc && callingPendingFunctors && !ownerMid && mid == {}
        invariant executed == start.executed && batch == start.batch
        invariant pendingFunctors == start.pending + seq(k, i requires 0 <= i < k => others[i].1)
      {
        var (t, f) := others[k];
        TwoSteps(Model(), ThreadPush(t, f), ThreadWake(t));
        RunAppend(start, actions, [ThreadPush(t, f), ThreadWake(t)]);
        QueueInLoop(f, false, t);
        actions := actions + [ThreadPush(t, f), ThreadWake(t)];
        k := k + 1;
      }
    }

    /** Draining: everything that was pending on entry runs, in order and nothing else; what is queued meanwhile,
        by the functors (`own`) or by other threads (`others`), waits in that order for the next batch. */
    method DoPendingFunctor(own: Functor -> seq<Functor>, others: nat -> seq<(ThreadId, Functor)>)
      returns (ghost actions: seq<Action>)
      requires pc.EnterDrain? && !callingPendingFunctors && batch == [] && !ownerMid && mid == {}
      modifies this
      ensures Legal(old(Model()), actions) && Model() == Run(old(Model()), actions)
      ensures executed == old(executed) + old(pendingFunctors)
      ensures pendingFunctors == QueuedMeanwhile(old(pendingFunctors), 0, own, others)
      ensures pc.AtTest? && !callingPendingFunctors && batch == [] && !ownerMid && mid == {}
    {
      hide Step, Enabled, Legal, Run, QueuedMeanwhile;
      ghost var start := Model();
      actions := [SetCalling, Swap];
      var functors := BeginDrain();
      var k := 0;
      assert functors[0..] == functors && functors[..0] == [];
      while k < |functors|
        invariant 0 <= k <= |functors|
        invariant Legal(start, actions) && Model() == Run(start, actions)
        invariant pc.Draining? && callingPendingFunctors && !ownerMid && mid == {}
        invariant batch == functors[k..] && executed == start.executed + functors[..k]
        invariant pendingFunctors + QueuedMeanwhile(functors[k..], k, own, others)
                  == QueuedMeanwhile(functors, 0, own, others)
      {
        ghost var before := pendingFunctors;
        MeanwhileStep(before, functors[k..], k, own, others);
        ghost var more := RunFunctor(functors[k], own(functors[k]), others(k));
        RunAppend(start, actions, more);
        actions := actions + more;
        assert functors[k..][1..] == functors[k + 1..] && functors[..k + 1] == functors[..k] + [functors[k]];
        k := k + 1;
      }
      NothingMeanwhile(k, own, others);
      EndDrain();
      RunAppend(start, actions, [DrainDone]);
      actions := actions + [DrainDone];
    }
  }

  /** Queueing is a push under the lock and then the decision about the wake-up. */
  lemma OwnerQueues(s: Loop, f: Functor)
    requires OwnerFree(s)
    ensures Enabled(s, OwnerPush(f)) && Enabled(Step(s, OwnerPush(f)), OwnerCheck)
    ensures Step(Step(s, OwnerPush(f)), OwnerCheck)
            == s.(pending := s.pending + [f], enqueued := s.enqueued + [f],
                  early := if s.pc.Outside? then s.early + [f] else s.early,
                  counter := if s.calling then Bumped(s.counter) else s.counter)
  {
  }

  lemma ThreadQueues(s: Loop, t: ThreadId, f: Functor)
    requires t !in s.mid
    ensures Enabled(s, ThreadPush(t, f)) && Enabled(Step(s, ThreadPush(t, f)), ThreadWake(t))
    ensures Step(Step(s, ThreadPush(t, f)), ThreadWake(t))
            == s.(pending := s.pending + [f], enqueued := s.enqueued + [f], counter := Bumped(s.counter))
  {
    assert s.mid + {t} - {t} == s.mid;
  }

  lemma NothingMeanwhile(k: nat, own: Functor -> seq<Functor>, others: nat -> seq<(ThreadId, Functor)>)
    ensures QueuedMeanwhile([], k, own, others) == []
  {
  }

  /** What is queued while the functors of a batch run, the functor at index `k` first. */
  ghost function QueuedMeanwhile(functors: seq<Functor>, k: nat, own: Functor -> seq<Functor>,
                                 others: nat -> seq<(ThreadId, Functor)>): seq<Functor>
  {
    if functors == [] then [] else
      own(functors[0]) + seq(|others(k)|, i requires 0 <= i < |others(k)| => others(k)[i].1)
      + QueuedMeanwhile(functors[1..], k + 1, own, others)
  }

  lemma MeanwhileStep(before: seq<Functor>, functors: seq<Functor>, k: nat, own: Functor -> seq<Functor>,
                      others: nat -> seq<(ThreadId, Functor)>)
    requires functors != []
    ensures var o, t := own(functors[0]), seq(|others(k)|, i requires 0 <= i < |others(k)| => others(k)[i].1);
            before + QueuedMeanwhile(functors, k, own, others)
            == (before + o + t) + QueuedMeanwhile(functors[1..], k + 1, own, others)
  {
  }

  lemma OneStep(s: Loop, a: Action)
    requires Enabled(s, a)
    ensures Legal(s, [a]) && Run(s, [a]) == Step(s, a)
  {
    assert [a][1..] == [];
  }

  lemma TwoSteps(s: Loop, a: Action, b: Action)
    requires Enabled(s, a) && Enabled(Step(s, a), b)
    ensures Legal(s, [a, b]) && Run(s, [a, b]) == Step(Step(s, a), b)
  {
    hide Step, Enabled;
    assert [a, b][1..] == [b];
    OneStep(Step(s, a), b);
  }
}
