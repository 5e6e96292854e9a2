/** What the timer wheel promises, without the wheel: a map from timer id to the tick at which
    it is due, a clock, and the set of callbacks that have run. */
module Deadlines {

  const CAPACITY: nat := 60
  const UINT32: nat := 0x1_0000_0000

  type TaskId = nat

  /** A task that still has a reference somewhere: its delay, the tick of its last reference, its cancel flag. */
  datatype Entry = Entry(delay: nat, due: nat, cancelled: bool)

  /** The callback of task `id` ran at tick `at`. */
  datatype Fire = Fire(id: TaskId, at: nat)

  datatype Sched = Sched(now: nat, entries: map<TaskId, Entry>, fired: set<Fire>) {
    /** Every live task is due within one turn of the wheel, and nothing has fired in the future. */
    ghost predicate WellFormed() {
      && (forall id :: id in entries ==> entries[id].delay < UINT32 && now < entries[id].due <= now + CAPACITY)
      && (forall f :: f in fired ==> f.at <= now)
      && (forall id :: id in entries && NeverWraps(entries[id].delay) ==>
          entries[id].due <= now + Period(entries[id].delay))
    }
  }

  datatype Op = Add(id: TaskId, delay: nat) | Refresh(id: TaskId) | Cancel(id: TaskId) | Tick

  /** The slot chosen at absolute tick `now` for a delay: a 32-bit unsigned sum, reduced modulo the capacity. */
  function Slot(now: nat, delay: nat): (s: nat)
    ensures s < CAPACITY
  {
    ((now % CAPACITY + delay) % UINT32) % CAPACITY
  }

  /** How many ticks after `now` that slot is cleared next. */
  function Hop(now: nat, delay: nat): (h: nat)
    ensures 1 <= h <= CAPACITY
    ensures (now + h) % CAPACITY == Slot(now, delay)
  {
    var x := Slot(now, delay) - now - 1;
    SameModulo(now + x % CAPACITY + 1, Slot(now, delay), -(x / CAPACITY));
    x % CAPACITY + 1
  }

  /** The intended number of ticks: the delay folded into 1..60. */
  function Period(delay: nat): (p: nat)
    ensures 1 <= p <= CAPACITY
    ensures 1 <= delay <= CAPACITY ==> p == delay
  {
    (delay - 1) % CAPACITY + 1
  }

  predicate NeverWraps(delay: nat) {
    delay + CAPACITY <= UINT32
  }

  lemma SameModulo(a: int, b: int, q: int)
    requires a == b + CAPACITY * q
    ensures a % CAPACITY == b % CAPACITY
  {
  }

  /** The wheel hits the intended tick exactly when the 32-bit sum does not wrap around. */
  lemma HopIsPeriodIffNoWrap(now: nat, delay: nat)
    requires delay < UINT32
    ensures Hop(now, delay) == (delay - 1) % 60 + 1 <==> now % 60 + delay < 0x1_0000_0000
    ensures Period(delay) == (delay - 1) % 60 + 1
  {
    var t, q := now % CAPACITY, now / CAPACITY;
    var sum := if t + delay < UINT32 then t + delay else t + delay - UINT32;
    var k := sum / CAPACITY;
    var x := Slot(now, delay) - now - 1;
    if t + delay < UINT32 {
      SameModulo(x, delay - 1, -(k + q));
    } else {
      SameModulo(x, delay - 17, -(k + q + 71582788));
    }
  }

  function Max(a: nat, b: nat): nat { if a < b then b else a }

  /** One more reference, pushed at tick `now`: the later of the two due ticks counts. */
  function Extended(e: Entry, now: nat): Entry {
    e.(due := Max(e.due, now + Hop(now, e.delay)))
  }

  function Step(s: Sched, op: Op): Sched {
    match op
    case Add(id, delay) =>
      s.(entries := s.entries[id := Entry(delay, s.now + Hop(s.now, delay), false)])
    case Refresh(id) =>
      if id !in s.entries then s else
        s.(entries := s.entries[id := Extended(s.entries[id], s.now)])
    case Cancel(id) =>
      if id !in s.entries then s else s.(entries := s.entries[id := s.entries[id].(cancelled := true)])
    case Tick => Ticks(s, 1)
  }

  lemma TickIsOneTick(s: Sched)
    ensures Step(s, Tick) == Ticks(s, 1)
  {
  }

  /** `n` ticks at once: everything due in (now, now + n] leaves, and fires unless it was cancelled. */
  function Ticks(s: Sched, n: nat): Sched {
    Sched(s.now + n,
          map id | id in s.entries && s.now + n < s.entries[id].due :: s.entries[id],
          s.fired + set id | id in s.entries && s.entries[id].due <= s.now + n && !s.entries[id].cancelled
                         :: Fire(id, s.entries[id].due))
  }

  /** What callers owe: a task is added only under an id that is not live, with a 32-bit delay. */
  predicate Allowed(s: Sched, op: Op) {
    op.Add? ==> op.id !in s.entries && op.delay < UINT32
  }

  predicate Legal(s: Sched, ops: seq<Op>)
    decreases |ops|
  {
    ops == [] || (Allowed(s, ops[0]) && Legal(Step(s, ops[0]), ops[1..]))
  }

  function Run(s: Sched, ops: seq<Op>): Sched
    decreases |ops|
  {
    if ops == [] then s else Run(Step(s, ops[0]), ops[1..])
  }

  const EMPTY := Sched(0, map[], {})

  // ---------------------------------------------------------------- invariants of every run

  lemma HopOfUnwrapped(now: nat, delay: nat)
    requires NeverWraps(delay)
    ensures Hop(now, delay) == Period(delay)
  {
    HopIsPeriodIffNoWrap(now, delay);
  }

  lemma StepKeepsWellFormed(s: Sched, op: Op)
    requires s.WellFormed() && Allowed(s, op)
    ensures Step(s, op).WellFormed()
  {
    if (op.Add? && NeverWraps(op.delay)) {
      HopOfUnwrapped(s.now, op.delay);
    }
    if op.Refresh? && op.id in s.entries && NeverWraps(s.entries[op.id].delay) {
      HopOfUnwrapped(s.now, s.entries[op.id].delay);
    }
  }

  lemma {:induction false} RunKeepsWellFormed(s: Sched, ops: seq<Op>)
    requires s.WellFormed() && Legal(s, ops)
    ensures Run(s, ops).WellFormed()
    decreases |ops|
  {
    if ops != [] {
      StepKeepsWellFormed(s, ops[0]);
      RunKeepsWellFormed(Step(s, ops[0]), ops[1..]);
    }
  }

  lemma NoTicks(s: Sched)
    requires forall id :: id in s.entries ==> s.now < s.entries[id].due
    ensures Ticks(s, 0) == s
  {
    assert Ticks(s, 0).entries == s.entries;
  }

  /** Batched expirations are that many single ones. */
  lemma {:induction false} TicksAdd(s: Sched, m: nat, n: nat)
    requires forall id :: id in s.entries ==> s.now < s.entries[id].due
    ensures Ticks(Ticks(s, m), n) == Ticks(s, m + n)
  {
    var a, b := Ticks(Ticks(s, m), n), Ticks(s, m + n);
    assert a.entries == b.entries;
    forall f ensures f in a.fired <==> f in b.fired {
      if f in b.fired && f !in s.fired {
        assert f.id in s.entries && f == Fire(f.id, s.entries[f.id].due);
        if s.now + m < s.entries[f.id].due {
          assert f.id in Ticks(s, m).entries;
        }
      }
    }
    assert a.fired == b.fired;
  }

  // ---------------------------------------------------------------- when a task fires

  /** The number of ticks in a run. */
  function TickCount(ops: seq<Op>): nat {
    if ops == [] then 0 else (if ops[0].Tick? then 1 else 0) + TickCount(ops[1..])
  }

  predicate Untouched(ops: seq<Op>, id: TaskId) {
    forall i :: 0 <= i < |ops| ==> ops[i].Tick? || ops[i].id != id
  }

  /** The callbacks of `id` that run after tick `t`. */
  ghost function FiresAfter(s: Sched, id: TaskId, t: nat): set<nat> {
    set f | f in s.fired && f.id == id && t < f.at :: f.at
  }

  /** Left alone, a live task fires exactly once, at its due tick and not before; cancelled, never. */
  lemma {:induction false} LiveTaskFiresOnceAtDue(s: Sched, ops: seq<Op>, id: TaskId, t: nat)
    requires s.WellFormed() && Legal(s, ops) && Untouched(ops, id) && id in s.entries
    requires t <= s.now && FiresAfter(s, id, t) == {}
    ensures var r := Run(s, ops);
            var e := s.entries[id];
            && r.now == s.now + TickCount(ops)
            && (id in r.entries <==> r.now < e.due)
            && (id in r.entries ==> r.entries[id] == e)
            && FiresAfter(r, id, t) == if r.now < e.due || e.cancelled then {} else {e.due}
    decreases |ops|
  {
    if ops != [] {
      var s' := Step(s, ops[0]);
      StepKeepsWellFormed(s, ops[0]);
      assert Untouched(ops[1..], id);
      if id in s'.entries {
        assert FiresAfter(s', id, t) == {} by {
          forall f | f in s'.fired && f.id == id ensures f.at <= t {
            assert f in s.fired && t < f.at ==> f.at in FiresAfter(s, id, t);
          }
        }
        LiveTaskFiresOnceAtDue(s', ops[1..], id, t);
      } else {
        var e := s.entries[id];
        assert ops[0].Tick? && e.due == s.now + 1;
        forall at ensures at in FiresAfter(s', id, t) <==> !e.cancelled && at == e.due {
          assert Fire(id, at) in s.fired && t < at ==> at in FiresAfter(s, id, t);
        }
        assert FiresAfter(s', id, t) == if e.cancelled then {} else {e.due};
        DeadTaskStaysSilent(s', ops[1..], id, t);
      }
    }
  }

  /** Once its last reference is gone a task cannot come back unless it is added again. */
  lemma {:induction false} DeadTaskStaysSilent(s: Sched, ops: seq<Op>, id: TaskId, t: nat)
    requires s.WellFormed() && Legal(s, ops) && id !in s.entries && NeverAdded(ops, id)
    ensures var r := Run(s, ops);
            && r.now == s.now + TickCount(ops)
            && id !in r.entries
            && FiresAfter(r, id, t) == FiresAfter(s, id, t)
    decreases |ops|
  {
    if ops != [] {
      StepKeepsWellFormed(s, ops[0]);
      var s' := Step(s, ops[0]);
      assert FiresAfter(s', id, t) == FiresAfter(s, id, t);
      assert NeverAdded(ops[1..], id);
      DeadTaskStaysSilent(s', ops[1..], id, t);
    }
  }

  predicate NeverAdded(ops: seq<Op>, id: TaskId) {
    forall i :: 0 <= i < |ops| ==> !(ops[i].Add? && ops[i].id == id)
  }

  /** A task cancelled while it is live never fires again, however often it is refreshed afterwards. */
  lemma {:induction false} CancelledNeverFires(s: Sched, ops: seq<Op>, id: TaskId)
    requires s.WellFormed() && Legal(s, ops) && NeverAdded(ops, id)
    requires id in s.entries && s.entries[id].cancelled
    ensures FiresAfter(Run(s, ops), id, s.now) == {}
  {
    CancelledNeverFiresFrom(s, ops, id, s.now);
  }

  lemma {:induction false} CancelledNeverFiresFrom(s: Sched, ops: seq<Op>, id: TaskId, t: nat)
    requires s.WellFormed() && Legal(s, ops) && NeverAdded(ops, id)
    requires id in s.entries ==> s.entries[id].cancelled
    requires FiresAfter(s, id, t) == {}
    ensures FiresAfter(Run(s, ops), id, t) == {}
    decreases |ops|
  {
    if ops == [] {
    } else {
      var s' := Step(s, ops[0]);
      StepKeepsWellFormed(s, ops[0]);
      forall f | f in s'.fired && f.id == id ensures f.at <= t {
        assert f in s.fired && t < f.at ==> f.at in FiresAfter(s, id, t);
      }
      CancelledNeverFiresFrom(s', ops[1..], id, t);
    }
  }

  /** So cancelling a live task silences it for good. */
  lemma CancelSilences(s: Sched, id: TaskId, ops: seq<Op>)
    requires s.WellFormed() && id in s.entries && Legal(Step(s, Cancel(id)), ops) && NeverAdded(ops, id)
    ensures id in Step(s, Cancel(id)).entries && Step(s, Cancel(id)).entries[id].due == s.entries[id].due
    ensures FiresAfter(Run(Step(s, Cancel(id)), ops), id, s.now) == {}
  {
    StepKeepsWellFormed(s, Cancel(id));
    CancelledNeverFires(Step(s, Cancel(id)), ops, id);
  }

  /** The tick promised to a timer of `d` ticks that is added or refreshed at tick `now`. */
  function Promised(now: nat, d: nat): nat {
    now + (d - 1) % CAPACITY + 1
  }

  /** Adding or refreshing meets the promise: the 32-bit sum does not wrap around, and no earlier reference lies later;
      or it does wrap around to an earlier tick, and an earlier reference happens to lie at the promised one. */
  predicate KeepsPromise(s: Sched, op: Op, d: nat)
    requires op.Add? || (op.Refresh? && op.id in s.entries)
  {
    if s.now % CAPACITY + d < UINT32
    then op.Refresh? ==> s.entries[op.id].due <= Promised(s.now, d)
    else op.Refresh? && s.entries[op.id].due == Promised(s.now, d) && Hop(s.now, d) < Period(d)
  }

  lemma DueIsPromisedIff(s: Sched, op: Op, d: nat)
    requires s.WellFormed() && (op.Add? || op.Refresh?) && Allowed(s, op)
    requires op.Refresh? ==> op.id in s.entries
    requires d == if op.Add? then op.delay else s.entries[op.id].delay
    ensures op.id in Step(s, op).entries
    ensures Step(s, op).entries[op.id].due == Promised(s.now, d) <==> KeepsPromise(s, op, d)
    ensures NeverWraps(d) ==> KeepsPromise(s, op, d)
  {
    HopIsPeriodIffNoWrap(s.now, d);
    hide Hop;
  }

  /** A broken promise: after one tick the longest delay there is wraps around to slot 0, which the hand reaches at tick
      60 and not at tick 16. */
  lemma PromiseIsBroken(id: TaskId)
    ensures var ops := [Tick, Add(id, 4294967295)];
            && Legal(EMPTY, ops) && !KeepsPromise(Run(EMPTY, ops[..1]), ops[1], 4294967295)
            && id in Run(EMPTY, ops).entries && Run(EMPTY, ops).entries[id].due == 60
            && Promised(1, 4294967295) == 16
  {
    var add := Add(id, UINT32 - 1);
    var s := Ticks(EMPTY, 1);
    assert s == Sched(1, map[], {});
    assert [Tick, add][..1] == [Tick] && [Tick][1..] == [] && [Tick, add][1..] == [add] && [add][1..] == [];
    assert Run(s, []) == s && Run(Step(s, add), []) == Step(s, add) && Legal(Step(s, add), []);
    assert Run(EMPTY, [Tick]) == s && Run(s, [add]) == Step(s, add) && Legal(s, [add]);
    assert Slot(1, UINT32 - 1) == 0;
    OnlyTick60(Hop(1, UINT32 - 1));
  }

  lemma OnlyTick60(h: nat)
    requires 1 <= h <= CAPACITY && (1 + h) % CAPACITY == 0
    ensures h == 59
  {
  }

  /** The deadline rule: an uncancelled timer added or refreshed at tick T with delay d, and then left alone, fires
      exactly once, at its due tick; and that is T + ((d - 1) mod 60) + 1 exactly when the promise is kept, as it
      always is for delays that stay 60 below 2^32. */
  lemma FiresPeriodAfterLastTouch(s: Sched, op: Op, ops: seq<Op>, d: nat)
    requires s.WellFormed() && (op.Add? || op.Refresh?) && Allowed(s, op)
    requires Legal(Step(s, op), ops) && Untouched(ops, op.id)
    requires op.Refresh? ==> op.id in s.entries && !s.entries[op.id].cancelled
    requires d == if op.Add? then op.delay else s.entries[op.id].delay
    ensures op.id in Step(s, op).entries
    ensures var r, due := Run(Step(s, op), ops), Step(s, op).entries[op.id].due;
            && r.now == s.now + TickCount(ops)
            && (op.id in r.entries <==> r.now < due)
            && FiresAfter(r, op.id, s.now) == (if r.now < due then {} else {due})
            && (due == s.now + (d - 1) % 60 + 1 <==> KeepsPromise(s, op, d))
            && (d + 60 <= 0x1_0000_0000 ==> KeepsPromise(s, op, d))
  {
    var s' := Step(s, op);
    StepKeepsWellFormed(s, op);
    DueIsPromisedIff(s, op, d);
    hide Hop, KeepsPromise;
    assert FiresAfter(s', op.id, s.now) == {};
    LiveTaskFiresOnceAtDue(s', ops, op.id, s.now);
  }

  /** Every gap between refreshes of `id` (the first one already `gap` ticks old) is shorter than `delay` ticks. */
  predicate KeptAlive(ops: seq<Op>, id: TaskId, delay: nat, gap: nat) {
    ops == [] ||
    match ops[0]
    case Tick => gap + 1 < delay && KeptAlive(ops[1..], id, delay, gap + 1)
    case Refresh(i) => KeptAlive(ops[1..], id, delay, if i == id then 0 else gap)
    case Cancel(i) => i != id && KeptAlive(ops[1..], id, delay, gap)
    case Add(i, _) => KeptAlive(ops[1..], id, delay, gap)
  }

  /** Idle release: a task of 1 to 60 ticks that is refreshed before each such gap runs out never fires. */
  lemma {:induction false} RefreshedInTimeNeverFires(s: Sched, ops: seq<Op>, id: TaskId, gap: nat, t: nat)
    requires s.WellFormed() && Legal(s, ops) && id in s.entries && !s.entries[id].cancelled
    requires var d := s.entries[id].delay;
             && 1 <= d <= CAPACITY && gap < d
             && s.entries[id].due == s.now + d - gap
             && KeptAlive(ops, id, d, gap)
    requires t <= s.now && FiresAfter(s, id, t) == {}
    ensures id in Run(s, ops).entries && FiresAfter(Run(s, ops), id, t) == {}
    decreases |ops|
  {
    if ops != [] {
      var s' := Step(s, ops[0]);
      var d := s.entries[id].delay;
      HopOfUnwrapped(s.now, d);
      StepKeepsWellFormed(s, ops[0]);
      assert FiresAfter(s', id, t) == {} by {
        forall f | f in s'.fired && f.id == id ensures f.at <= t {
          assert f in s.fired && t < f.at ==> f.at in FiresAfter(s, id, t);
        }
      }
      var gap' := if ops[0].Tick? then gap + 1 else if ops[0] == Refresh(id) then 0 else gap;
      RefreshedInTimeNeverFires(s', ops[1..], id, gap', t);
    }
  }
}
