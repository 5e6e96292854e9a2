/** The 60-slot wheel of shared task references, proved to be a deadline map. */
module TimerWheels {
  import opened Deadlines

  class TimerTask {
    const id: TaskId
    const delay: nat
    var isCancel: bool

    constructor (id: TaskId, delay: nat)
      ensures this.id == id && this.delay == delay && !isCancel
    {
      this.id, this.delay := id, delay;
      isCancel := false;
    }

    method Canceled()
      modifies this
      ensures isCancel
    {
      isCancel := true;
    }
  }

  /** Is there still a shared reference to `t` in some slot? */
  predicate Referenced(wheel: seq<seq<TimerTask>>, t: TimerTask) {
    exists s | 0 <= s < |wheel| :: t in wheel[s]
  }

  /** With the hand on slot `tick` at time `now`, slot `s` is cleared next at this tick. */
  ghost function NextClear(tick: nat, now: nat, s: nat): (at: nat)
    requires tick < CAPACITY && s < CAPACITY
    ensures now < at <= now + CAPACITY
  {
    if tick < s then now + s - tick else now + CAPACITY + s - tick
  }

  /** The slot cleared at tick `at`. */
  ghost function SlotOf(tick: nat, now: nat, at: nat): (s: nat)
    requires tick < CAPACITY && now < at <= now + CAPACITY
    ensures s < CAPACITY && NextClear(tick, now, s) == at
  {
    if tick + (at - now) < CAPACITY then tick + (at - now) else tick + (at - now) - CAPACITY
  }

  lemma HopReachesSlot(now: nat, delay: nat)
    ensures NextClear(now % CAPACITY, now, Slot(now, delay)) == now + Hop(now, delay)
  {
    var t, s := now % CAPACITY, Slot(now, delay);
    SameModulo(s - now - 1, s - t - 1, -(now / CAPACITY));
  }

  lemma HandAdvances(now: nat)
    ensures (now + 1) % CAPACITY == if now % CAPACITY == CAPACITY - 1 then 0 else now % CAPACITY + 1
    ensures (now % CAPACITY + 1) % CAPACITY == (now + 1) % CAPACITY
  {
  }

  /** Slots, weak map and due ticks agree: a slot refers only to live tasks, and the last reference
      to each live task sits in the slot that is cleared at its due tick. */
  ghost predicate Agree(tick: nat, now: nat, wheel: seq<seq<TimerTask>>, weak: map<TaskId, TimerTask>, dues: map<TaskId,
                        nat>) {
    && |wheel| == CAPACITY && tick < CAPACITY
    && weak.Keys == dues.Keys
    && (forall s: nat, t: TimerTask :: s < CAPACITY && t in wheel[s] ==> t.id in weak && weak[t.id] == t)
    && (forall id :: id in weak ==> Live(tick, now, wheel, weak[id], id, dues[id]))
  }

  ghost predicate Live(tick: nat, now: nat, wheel: seq<seq<TimerTask>>, task: TimerTask, id: TaskId, due: nat)
    requires |wheel| == CAPACITY && tick < CAPACITY
  {
    && task.id == id && task.delay < UINT32
    && now < due <= now + CAPACITY
    && task in wheel[SlotOf(tick, now, due)]
    && forall s: nat :: s < CAPACITY && task in wheel[s] ==> NextClear(tick, now, s) <= due
  }

  /** Pushing one more reference to a live task, or the first one to a new task, moves its due tick to the later one. */
  lemma PushKeepsAgreement(tick: nat, now: nat, wheel: seq<seq<TimerTask>>, weak: map<TaskId, TimerTask>,
                           dues: map<TaskId, nat>,
                           task: TimerTask, s: nat)
    requires Agree(tick, now, wheel, weak, dues) && s < CAPACITY && task.delay < UINT32
    requires task.id in weak ==> weak[task.id] == task
    ensures var at := NextClear(tick, now, s);
            Agree(tick, now, wheel[s := wheel[s] + [task]], weak[task.id := task],
                  dues[task.id := if task.id in dues then Max(dues[task.id], at) else at])
  {
    var at, wheel' := NextClear(tick, now, s), wheel[s := wheel[s] + [task]];
    var due' := if task.id in dues then Max(dues[task.id], at) else at;
    assert forall r: nat, t: TimerTask :: r < CAPACITY ==> (t in wheel'[r] <==> t in wheel[r] || (r == s && t == task));
    assert SlotOf(tick, now, at) == s;
    if task.id in weak {
      assert Live(tick, now, wheel, weak[task.id], task.id, dues[task.id]);
    }
    assert Live(tick, now, wheel', task, task.id, due');
    forall id | id in weak && id != task.id ensures Live(tick, now, wheel', weak[id], id, dues[id]) {
      assert Live(tick, now, wheel, weak[id], id, dues[id]);
    }
  }

  /** A task due at the next tick has references in the next slot and nowhere else; any other has one elsewhere. */
  lemma DueTasksOnlyInNextSlot(tick: nat, now: nat, wheel: seq<seq<TimerTask>>, weak: map<TaskId, TimerTask>,
                               dues: map<TaskId, nat>, next: nat)
    requires Agree(tick, now, wheel, weak, dues) && next < CAPACITY && NextClear(tick, now, next) == now + 1
    ensures ReadyToClear(next, now + 1, wheel, weak, dues)
  {
    forall id | id in weak ensures ReferencedRightly(next, now + 1, wheel, weak[id], dues[id]) && weak[id].id == id {
      assert Live(tick, now, wheel, weak[id], id, dues[id]);
      assert dues[id] != now + 1 ==> SlotOf(tick, now, dues[id]) != next;
    }
  }

  ghost predicate ReadyToClear(tick: nat, now: nat, wheel: seq<seq<TimerTask>>, weak: map<TaskId, TimerTask>,
                               dues: map<TaskId, nat>) {
    && |wheel| == CAPACITY && tick < CAPACITY
    && weak.Keys == dues.Keys
    && (forall s: nat, t: TimerTask :: s < CAPACITY && t in wheel[s] ==> t.id in weak && weak[t.id] == t)
    && (forall id :: id in weak ==> weak[id].id == id && ReferencedRightly(tick, now, wheel, weak[id], dues[id]))
  }

  ghost predicate ReferencedRightly(tick: nat, now: nat, wheel: seq<seq<TimerTask>>, task: TimerTask, due: nat)
    requires |wheel| == CAPACITY && tick < CAPACITY
  {
    if due == now
    then task in wheel[tick] && forall s: nat :: s < CAPACITY && s != tick ==> task !in wheel[s]
    else exists s: nat :: s < CAPACITY && s != tick && task in wheel[s]
  }

  /** Clearing that slot and dropping the tasks due restores the agreement one tick later. */
  lemma ClearKeepsAgreement(tick: nat, now: nat, wheel: seq<seq<TimerTask>>, weak: map<TaskId, TimerTask>,
                            dues: map<TaskId, nat>,
                            next: nat, weak': map<TaskId, TimerTask>, dues': map<TaskId, nat>)
    requires Agree(tick, now, wheel, weak, dues) && next == (if tick == CAPACITY - 1 then 0 else tick + 1)
    requires weak' == map id | id in weak && dues[id] != now + 1 :: weak[id]
    requires dues' == map id | id in dues && dues[id] != now + 1 :: dues[id]
    ensures Agree(next, now + 1, wheel[next := []], weak', dues')
  {
    hide Live;
    var wheel' := wheel[next := []];
    forall id | id in weak' ensures Live(next, now + 1, wheel', weak'[id], id, dues'[id]) {
      ClearKeepsTask(tick, now, wheel, weak, dues, next, id);
    }
    forall s: nat, t: TimerTask | s < CAPACITY && t in wheel'[s] ensures t.id in weak' && weak'[t.id] == t {
      ClearKeepsEntry(tick, now, wheel, weak, dues, next, s, t);
    }
  }

  lemma ClearKeepsTask(tick: nat, now: nat, wheel: seq<seq<TimerTask>>, weak: map<TaskId, TimerTask>, dues: map<TaskId,
                       nat>,
                       next: nat, id: TaskId)
    requires Agree(tick, now, wheel, weak, dues) && next == (if tick == CAPACITY - 1 then 0 else tick + 1)
    requires id in weak && dues[id] != now + 1
    ensures Live(next, now + 1, wheel[next := []], weak[id], id, dues[id])
  {
    hide Live;
    LiveOneTickLater(tick, now, wheel, weak[id], id, dues[id], next);
  }

  lemma ClearKeepsEntry(tick: nat, now: nat, wheel: seq<seq<TimerTask>>, weak: map<TaskId, TimerTask>, dues: map<TaskId,
                        nat>,
                        next: nat, s: nat, t: TimerTask)
    requires Agree(tick, now, wheel, weak, dues) && next == (if tick == CAPACITY - 1 then 0 else tick + 1)
    requires s < CAPACITY && t in wheel[next := []][s]
    ensures t.id in weak && weak[t.id] == t && dues[t.id] != now + 1
  {
    hide Live;
    DueTasksOnlyInNextSlot(tick, now, wheel, weak, dues, next);
    assert t in wheel[s];
    assert ReferencedRightly(next, now + 1, wheel, weak[t.id], dues[t.id]);
  }

  lemma LiveOneTickLater(tick: nat, now: nat, wheel: seq<seq<TimerTask>>, task: TimerTask, id: TaskId, due: nat,
                         next: nat)
    requires |wheel| == CAPACITY && tick < CAPACITY && next == (if tick == CAPACITY - 1 then 0 else tick + 1)
    requires Live(tick, now, wheel, task, id, due) && due != now + 1
    ensures Live(next, now + 1, wheel[next := []], task, id, due)
  {
    assert SlotOf(next, now + 1, due) == SlotOf(tick, now, due) != next;
    assert forall s: nat :: s < CAPACITY && s != next ==> NextClear(next, now + 1, s) == NextClear(tick, now, s);
  }

  /** The log is in order of time, holds nothing twice and nothing from the future. */
  ghost predicate LogOrdered(log: seq<Fire>, now: nat) {
    && (forall i, j :: 0 <= i < j < |log| ==> log[i].at <= log[j].at && log[i] != log[j])
    && (forall f :: f in log ==> f.at <= now)
  }

  ghost function Elements(log: seq<Fire>): set<Fire> {
    set f | f in log
  }

  /** `batch` lists, once each, the uncancelled tasks of `before` that are no longer in `after`. */
  ghost predicate FiredAt(now: nat, batch: seq<Fire>, before: map<TaskId, TimerTask>, after: set<TaskId>)
    reads before.Values
  {
    && (forall f :: f in batch <==> f.at == now && f.id in before && f.id !in after && !before[f.id].isCancel)
    && (forall i, j :: 0 <= i < j < |batch| ==> batch[i] != batch[j])
  }

  /** Destroying one more task extends the batch by its callback, if it was not cancelled. */
  lemma FiredAtExtends(now: nat, batch: seq<Fire>, before: map<TaskId, TimerTask>, after: set<TaskId>, id: TaskId)
    requires FiredAt(now, batch, before, after) && id in before && id in after
    ensures FiredAt(now, batch + if before[id].isCancel then [] else [Fire(id, now)], before, after - {id})
  {
  }

  lemma TaskUnderHand(tick: nat, now: nat, wheel: seq<seq<TimerTask>>, weak: map<TaskId, TimerTask>, dues: map<TaskId,
                      nat>, task: TimerTask)
    requires ReadyToClear(tick, now, wheel, weak, dues) && task in wheel[tick]
    ensures task.id in weak && weak[task.id] == task
    ensures dues[task.id] == now <==> forall s: nat :: s < CAPACITY && s != tick ==> task !in wheel[s]
  {
    assert ReferencedRightly(tick, now, wheel, weak[task.id], dues[task.id]);
  }

  lemma DueTasksUnderHand(tick: nat, now: nat, wheel: seq<seq<TimerTask>>, weak: map<TaskId, TimerTask>,
                          dues: map<TaskId, nat>)
    requires ReadyToClear(tick, now, wheel, weak, dues)
    ensures |wheel| == CAPACITY && tick < CAPACITY && weak.Keys == dues.Keys
    ensures weak == map id | id in weak && (dues[id] != now || weak[id] in wheel[tick][0..]) :: weak[id]
    ensures forall id :: id in weak ==> weak[id].id == id
  {
    forall id | id in weak && dues[id] == now ensures weak[id] in wheel[tick] {
      assert ReferencedRightly(tick, now, wheel, weak[id], dues[id]);
    }
    assert wheel[tick][0..] == wheel[tick];
  }

  lemma NothingFiredYet(now: nat, weak: map<TaskId, TimerTask>)
    ensures FiredAt(now, [], weak, weak.Keys)
  {
  }

  class TimerWheel {
    var tick: nat
    var wheel: seq<seq<TimerTask>>
    var weakMap: map<TaskId, TimerTask>
    ghost var now: nat               // ticks since construction; the source only keeps it modulo 60
    ghost var dues: map<TaskId, nat> // the tick at which the last reference to a task goes away
    ghost var fired: seq<Fire>       // the callbacks in the order they ran

    ghost predicate Valid()
      reads this
    {
      && tick == now % CAPACITY
      && |wheel| == CAPACITY && weakMap.Keys == dues.Keys
      && Agree(tick, now, wheel, weakMap, dues)
      && LogOrdered(fired, now)
    }

    ghost function Entries(): (m: map<TaskId, Entry>)
      requires weakMap.Keys == dues.Keys
      reads this, weakMap.Values
    {
      map id | id in weakMap :: Entry(weakMap[id].delay, dues[id], weakMap[id].isCancel)
    }

    /** The deadline map this wheel stands for. */
    ghost function Model(): Sched
      requires weakMap.Keys == dues.Keys
      reads this, weakMap.Values
    {
      Sched(now, Entries(), Elements(fired))
    }

    constructor ()
      ensures Valid() && Model() == EMPTY && weakMap == map[]
    {
      tick := 0;
      wheel := seq(CAPACITY, _ => []);
      weakMap := map[];
      now, dues, fired := 0, map[], [];
    }

    /** A task is in the weak map exactly while it is referenced, so locking an entry never fails. */
    lemma WeakMapAgreesWithReferences(t: TimerTask)
      requires Valid()
      ensures Referenced(wheel, t) <==> t.id in weakMap && weakMap[t.id] == t
    {
      if t.id in weakMap && weakMap[t.id] == t {
        assert Live(tick, now, wheel, t, t.id, dues[t.id]);
      }
    }

    lemma LiveEntry(id: TaskId)
      requires Valid() && id in weakMap
      ensures weakMap[id].id == id && weakMap[id].delay < UINT32
      ensures now < dues[id]
    {
      assert Live(tick, now, wheel, weakMap[id], id, dues[id]);
    }

    /** What `Valid` says about the deadline map. */
    lemma DuesInRange()
      requires Valid()
      ensures forall id :: id in Entries() ==> Entries()[id].delay < UINT32 && now < Entries()[id].due <= now + CAPACITY
    {
      forall id | id in weakMap ensures now < dues[id] <= now + CAPACITY && weakMap[id].delay < UINT32 {
        assert Live(tick, now, wheel, weakMap[id], id, dues[id]);
      }
    }

    lemma DuesInFuture()
      requires Valid()
      ensures forall id :: id in weakMap ==> now < dues[id]
    {
      forall id | id in weakMap ensures now < dues[id] {
        LiveEntry(id);
      }
    }

    method TimerTaskIsExist(id: TaskId) returns (exist: bool)
      requires Valid()
      ensures exist <==> id in Model().entries
    {
      exist := id in weakMap;
    }

    method TimerTaskAddInLoop(id: TaskId, delay: nat)
      requires Valid() && Allowed(Model(), Add(id, delay))
      modifies this`wheel, this`dues, this`weakMap
      ensures Valid() && Model() == Step(old(Model()), Add(id, delay))
      ensures forall t :: t in weakMap.Values ==> t in old(weakMap.Values) || fresh(t)
    {
      hide Agree, LogOrdered;
      var task := new TimerTask(id, delay);
      PushReference(task);
      weakMap := weakMap[id := task];
      assert Entries() == old(Entries())[id := Entry(delay, dues[id], false)];
    }

    /** `_wheel_[(_tick_ + delay) % _capacity_].push_back(task)` */
    method PushReference(task: TimerTask)
      requires Valid() && task.delay < UINT32 && (task.id in weakMap ==> weakMap[task.id] == task)
      modifies this`wheel, this`dues
      ensures |wheel| == CAPACITY && Agree(tick, now, wheel, weakMap[task.id := task], dues)
      ensures task.id in weakMap ==> Valid()
      ensures var at := now + Hop(now, task.delay);
              dues == old(dues)[task.id := if task.id in old(dues) then Max(old(dues)[task.id], at) else at]
    {
      hide Agree;
      var s := ((tick + task.delay) % UINT32) % CAPACITY;
      HopReachesSlot(now, task.delay);
      PushKeepsAgreement(tick, now, wheel, weakMap, dues, task, s);
      wheel := wheel[s := wheel[s] + [task]];
      assert task.id in weakMap ==> weakMap[task.id := task] == weakMap;
      var at := NextClear(tick, now, s);
      dues := dues[task.id := if task.id in dues then Max(dues[task.id], at) else at];
    }

    method TimerTaskRefreshInLoop(id: TaskId)
      requires Valid()
      modifies this`wheel, this`dues
      ensures Valid() && Model() == Step(old(Model()), Refresh(id))
    {
      hide Agree, LogOrdered, Hop, Step, Entries, Elements;
      if id !in weakMap {
        UnknownIdChangesNothing(id);
        return;
      }
      var task := weakMap[id];
      LiveEntry(id);
      PushReference(task);
      ModelAfterPush(id);
    }

    lemma UnknownIdChangesNothing(id: TaskId)
      requires weakMap.Keys == dues.Keys && id !in weakMap
      ensures Step(Model(), Refresh(id)) == Model()
    {
      hide Elements;
    }

    twostate lemma ModelAfterPush(id: TaskId)
      requires old(weakMap.Keys == dues.Keys) && weakMap == old(weakMap) && id in weakMap
      requires now == old(now) && fired == old(fired)
      requires dues == old(dues)[id := Max(old(dues)[id], now + Hop(now, weakMap[id].delay))]
      requires unchanged(weakMap.Values)
      ensures Model() == Step(old(Model()), Refresh(id))
    {
      hide Hop, Elements;
      assert Entries() == old(Entries())[id := Extended(old(Entries())[id], now)];
    }

    method TimerTaskCancelInLoop(id: TaskId)
      requires Valid()
      modifies weakMap.Values
      ensures Valid() && Model() == Step(old(Model()), Cancel(id))
    {
      hide Agree, LogOrdered, Elements;
      if id !in weakMap {
        return;
      }
      var task := weakMap[id];
      forall i | i in weakMap ensures weakMap[i].id == i {
        LiveEntry(i);
      }
      task.Canceled();
      assert Entries() == old(Entries())[id := old(Entries())[id].(cancelled := true)];
    }

    /** The destructor of a task: the callback unless cancelled, then the release callback. */
    method DestroyTask(task: TimerTask)
      modifies this`weakMap, this`fired
      ensures weakMap == old(weakMap) - {task.id}
      ensures fired == old(fired) + if task.isCancel then [] else [Fire(task.id, now)]
    {
      if !task.isCancel {
        fired := fired + [Fire(task.id, now)];
      }
      weakMap := weakMap - {task.id};
    }

    /** `_wheel_[_tick_].clear()`: the references go front to back, and a task whose last reference goes is destroyed.
        */
    method ClearSlot() returns (ghost batch: seq<Fire>)
      requires ReadyToClear(tick, now, wheel, weakMap, dues)
      modifies this`wheel, this`weakMap, this`fired
      ensures wheel == old(wheel)[tick := []]
      ensures weakMap == map id | id in old(weakMap) && old(dues)[id] != now :: old(weakMap)[id]
      ensures fired == old(fired) + batch && FiredAt(now, batch, old(weakMap), weakMap.Keys)
    {
      hide FiredAt, ReadyToClear;
      ghost var wheel0, weak0 := wheel, weakMap;
      DueTasksUnderHand(tick, now, wheel, weakMap, dues);
      NothingFiredYet(now, weakMap);
      batch := [];
      ghost var k := 0;
      while |wheel[tick]| > 0
        invariant |wheel| == |wheel0| == CAPACITY && k <= |wheel0[tick]|
        invariant wheel == wheel0[tick := wheel0[tick][k..]]
        invariant weakMap == map id | id in weak0 && (dues[id] != now || weak0[id] in wheel0[tick][k..]) :: weak0[id]
        invariant fired == old(fired) + batch && FiredAt(now, batch, weak0, weakMap.Keys)
        decreases |wheel[tick]|
      {
        var task := wheel[tick][0];
        TaskUnderHand(tick, now, wheel0, weak0, dues, task);
        assert wheel0[tick][k..] == [task] + wheel0[tick][k + 1..];
        wheel := wheel[tick := wheel[tick][1..]];
        k := k + 1;
        assert forall s: nat :: s < CAPACITY && s != tick ==> wheel[s] == wheel0[s];
        if !Referenced(wheel, task) {
          FiredAtExtends(now, batch, weak0, weakMap.Keys, task.id);
          batch := batch + if task.isCancel then [] else [Fire(task.id, now)];
          DestroyTask(task);
        }
      }
    }

    /** One step of the hand. */
    method WheelRunOne()
      requires Valid()
      modifies this
      ensures Valid() && Model() == Ticks(old(Model()), 1)
      ensures old(fired) <= fired && weakMap.Values <= old(weakMap.Values)
    {
      hide Agree, FiredAt, Ticks, Elements, LogOrdered, Entries;
      DuesInFuture();
      ghost var batch := AdvanceAndClear();
      BatchIsTick(batch);
    }

    /** The hand moves on, and the slot under it is cleared. */
    method AdvanceAndClear() returns (ghost batch: seq<Fire>)
      requires Valid()
      modifies this
      ensures tick == now % CAPACITY && now == old(now) + 1 && |wheel| == CAPACITY
      ensures weakMap.Keys == dues.Keys && Agree(tick, now, wheel, weakMap, dues)
      ensures weakMap == map id | id in old(weakMap) && old(dues)[id] != now :: old(weakMap)[id]
      ensures dues == map id | id in old(dues) && old(dues)[id] != now :: old(dues)[id]
      ensures fired == old(fired) + batch && FiredAt(now, batch, old(weakMap), weakMap.Keys)
    {
      hide Agree, ReadyToClear, FiredAt, LogOrdered;
      HandAdvances(now);
      ghost var tick0, wheel0, dues0 := tick, wheel, dues;
      tick := (tick + 1) % CAPACITY;
      now := now + 1;
      DueTasksOnlyInNextSlot(tick0, now - 1, wheel0, weakMap, dues, tick);
      batch := ClearSlot();
      dues := map id | id in dues0 && dues0[id] != now :: dues0[id];
      ClearKeepsAgreement(tick0, now - 1, wheel0, old(weakMap), dues0, tick, weakMap, dues);
    }

    /** The batch run by a clearing and the tasks it leaves are those of one tick of the deadline map. */
    twostate lemma BatchIsTick(batch: seq<Fire>)
      requires weakMap.Keys == dues.Keys && old(weakMap.Keys == dues.Keys && LogOrdered(fired, now))
               && now == old(now) + 1
      requires forall id :: id in old(weakMap) ==> old(now) < old(dues)[id]
      requires weakMap == map id | id in old(weakMap) && old(dues)[id] != now :: old(weakMap)[id]
      requires forall id :: id in weakMap ==> dues[id] == old(dues)[id]
      requires fired == old(fired) + batch && FiredAt(now, batch, old(weakMap), weakMap.Keys)
      requires unchanged(old(weakMap).Values)
      ensures Model() == Ticks(old(Model()), 1)
      ensures LogOrdered(fired, now)
    {
      EntriesAfterTick();
      var s := Ticks(old(Model()), 1);
      forall f ensures f in Elements(fired) <==> f in s.fired {
        assert f in fired <==> f in old(fired) || f in batch;
        assert f.id in old(weakMap) ==> old(Entries())[f.id].due == old(dues)[f.id];
      }
      assert Elements(fired) == s.fired;
    }

    twostate lemma EntriesAfterTick()
      requires weakMap.Keys == dues.Keys && old(weakMap.Keys == dues.Keys) && now == old(now) + 1
      requires forall id :: id in old(weakMap) ==> old(now) < old(dues)[id]
      requires weakMap == map id | id in old(weakMap) && old(dues)[id] != now :: old(weakMap)[id]
      requires forall id :: id in weakMap ==> dues[id] == old(dues)[id]
      requires unchanged(old(weakMap).Values)
      ensures Entries() == Ticks(old(Model()), 1).entries
    {
      var e := Ticks(old(Model()), 1).entries;
      forall id ensures id in weakMap <==> id in e {
      }
      forall id | id in weakMap ensures Entries()[id] == e[id] {
      }
      assert Entries().Keys == e.Keys;
    }

    /** The timer callback: the number of expirations read from the timer is that many steps. */
    method OnTime(times: int)
      requires Valid()
      modifies this
      ensures Valid() && Model() == Ticks(old(Model()), if times < 0 then 0 else times)
      ensures old(fired) <= fired && weakMap.Values <= old(weakMap.Values)
    {
      hide Agree, LogOrdered, Ticks, Elements;
      ghost var start, log := Model(), fired;
      DuesInRange();
      NoTicks(start);
      var i := 0;
      while i < times
        invariant Valid() && (i == 0 || i <= times)
        invariant i >= 0 && Model() == Ticks(start, i)
        invariant log <= fired && weakMap.Values <= old(weakMap.Values)
      {
        TicksAdd(start, i, 1);
        WheelRunOne();
        i := i + 1;
      }
    }
  }

  /** Every run of the wheel, from its construction, is the run of the deadline map. */
  method RunWheel(ops: seq<Op>) returns (w: TimerWheel)
    requires Legal(EMPTY, ops)
    ensures fresh(w) && w.Valid() && w.Model() == Run(EMPTY, ops)
  {
    hide Agree, LogOrdered, Step, Ticks, Elements;
    w := new TimerWheel();
    var k := 0;
    assert ops[0..] == ops;
    while k < |ops|
      invariant 0 <= k <= |ops|
      invariant fresh(w) && w.Valid() && forall t :: t in w.weakMap.Values ==> fresh(t)
      invariant Legal(w.Model(), ops[k..]) && Run(w.Model(), ops[k..]) == Run(EMPTY, ops)
    {
      assert ops[k..][0] == ops[k] && ops[k..][1..] == ops[k + 1..];
      match ops[k] {
        case Add(id, delay) => w.TimerTaskAddInLoop(id, delay);
        case Refresh(id) => w.TimerTaskRefreshInLoop(id);
        case Cancel(id) => w.TimerTaskCancelInLoop(id);
        case Tick =>
          TickIsOneTick(w.Model());
          w.OnTime(1);
      }
      k := k + 1;
    }
  }
}
