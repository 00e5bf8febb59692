// One enqueuer and one dequeuer, in every interleaving and with spurious
// wake-ups: nothing is lost, duplicated, reordered or overwritten.
module QueueSafety {
  import opened Prelude
  import opened QueueMachine

  const E0 := E(0)
  const D0 := D(0)

  predicate OneEach(m: State) {
    |m.es| == 1 && |m.ds| == 1
  }

  // The slot has been touched but the size not yet corrected.
  predicate InFlight(pc: Pc) {
    pc.Advance? || pc.LockSize? || pc.Count?
  }

  // The size has been tested and the slot not yet touched.
  predicate Cleared(pc: Pc) {
    pc.EndWait? || pc.LockEnd? || pc.Touch?
  }

  // The size has been corrected and the peer not yet signalled.
  predicate OwesSignal(pc: Pc) {
    pc.UnlockSize? || pc.UnlockEnd? || pc.LockPeer? || pc.Signal?
  }

  // The slot has been touched in this call.
  predicate Touched(pc: Pc) {
    InFlight(pc) || OwesSignal(pc) || pc.UnlockPeer?
  }

  function Bit(b: bool): nat {
    if b then 1 else 0
  }

  // Elements between the two indices, and what the size field makes of them.
  ghost predicate CountInv(m: State)
    requires OneEach(m)
  {
    var sh, e, d := m.sh, m.es[0].pc, m.ds[0].pc;
    var n := |sh.written| - |sh.loaded|;
    && sh.size == n - Bit(InFlight(e)) + Bit(InFlight(d))
    && Bit(InFlight(e)) <= n && n + Bit(InFlight(d)) <= sh.capacity
    && (Cleared(e) ==> n + Bit(InFlight(d)) < sh.capacity)
    && (Cleared(d) ==> Bit(InFlight(e)) < n)
  }

  // The slots [loaded, written), counted modulo the capacity, hold what was
  // written there and not yet loaded.
  ghost predicate SlotInv(m: State)
    requires Shaped(m) && OneEach(m)
  {
    var sh := m.sh;
    && |sh.loaded| <= |sh.written| <= |sh.loaded| + sh.capacity
    && sh.loaded == sh.written[..|sh.loaded|]
    && |sh.written| >= Bit(m.es[0].pc.Advance?) && |sh.loaded| >= Bit(m.ds[0].pc.Advance?)
    && sh.tail == SlotOf(|sh.written| - Bit(m.es[0].pc.Advance?), sh.capacity)
    && sh.head == SlotOf(|sh.loaded| - Bit(m.ds[0].pc.Advance?), sh.capacity)
    && (forall k: nat :: |sh.loaded| <= k < |sh.written| ==> sh.buffer[SlotOf(k, sh.capacity)] == sh.written[k])
  }

  // The slot of the n-th element that passes through.
  function SlotOf(n: nat, capacity: nat): (k: nat)
    requires capacity > 0
    ensures k < capacity
  {
    n % capacity
  }

  // What each thread has done with its work.
  ghost predicate WorkInv(m: State, input: seq<Elem>, quota: nat)
    requires OneEach(m)
  {
    var sh, e, d := m.sh, m.es[0], m.ds[0];
    && |e.todo| <= |input| && e.todo == input[|input| - |e.todo|..]
    && (e.pc != Idle ==> e.todo != [])
    && |sh.written| == |input| - |e.todo| + Bit(Touched(e.pc)) && sh.written == input[..|sh.written|]
    && |d.returned| + d.quota == quota && (d.pc != Idle ==> d.quota > 0)
    && |sh.loaded| == |d.returned| + Bit(Touched(d.pc)) && d.returned == sh.loaded[..|d.returned|]
    && (Touched(d.pc) ==> d.elem == sh.loaded[|sh.loaded| - 1])
  }

  predicate HoldsOwn(pc: Pc) {
    pc.Test? || pc.Sleep? || pc.EndWait?
  }

  predicate HoldsPeer(pc: Pc) {
    pc.Signal? || pc.UnlockPeer?
  }

  predicate HoldsEnd(pc: Pc) {
    pc.Touch? || InFlight(pc) || pc.UnlockSize? || pc.UnlockEnd?
  }

  predicate HoldsSize(pc: Pc) {
    pc.Count? || pc.UnlockSize?
  }

  function Holder(enq: bool, deq: bool): Option<Tid> {
    if enq then Some(E0) else if deq then Some(D0) else None
  }

  // Who holds the two condvar locks; neither is held by both.
  ghost predicate WaitLockInv(m: State)
    requires OneEach(m)
  {
    var sh, e, d := m.sh, m.es[0].pc, m.ds[0].pc;
    && sh.pushLock == Holder(HoldsOwn(e), HoldsPeer(d)) && !(HoldsOwn(e) && HoldsPeer(d))
    && sh.popLock == Holder(HoldsPeer(e), HoldsOwn(d)) && !(HoldsPeer(e) && HoldsOwn(d))
  }

  // Who holds the size lock; it is not held by both.
  ghost predicate SizeLockInv(m: State)
    requires OneEach(m)
  {
    var e, d := m.es[0].pc, m.ds[0].pc;
    m.sh.sizeLock == Holder(HoldsSize(e), HoldsSize(d)) && !(HoldsSize(e) && HoldsSize(d))
  }

  // Only the enqueuer takes the tail lock.
  ghost predicate TailLockInv(m: State)
    requires OneEach(m)
  {
    m.sh.tailLock == Holder(HoldsEnd(m.es[0].pc), false)
  }

  // Only the dequeuer takes the head lock.
  ghost predicate HeadLockInv(m: State)
    requires OneEach(m)
  {
    m.sh.headLock == Holder(false, HoldsEnd(m.ds[0].pc))
  }

  ghost predicate LockInv(m: State)
    requires OneEach(m)
  {
    WaitLockInv(m) && SizeLockInv(m) && TailLockInv(m) && HeadLockInv(m)
  }

  // No lost wake-up: a thread that is going to sleep, or sleeps unsignalled,
  // although its condition holds, is about to be signalled.
  ghost predicate WakeInv(m: State)
    requires OneEach(m)
  {
    var sh, e, d := m.sh, m.es[0].pc, m.ds[0].pc;
    && sh.pushWaiters <= {E0} && (E0 in sh.pushWaiters ==> e.Waiting?)
    && sh.popWaiters <= {D0} && (D0 in sh.popWaiters ==> d.Waiting?)
    && (e.Sleep? || E0 in sh.pushWaiters ==> sh.size == sh.capacity || OwesSignal(d))
    && (d.Sleep? || D0 in sh.popWaiters ==> sh.size == 0 || OwesSignal(e))
  }

  ghost predicate Inv(m: State, input: seq<Elem>, quota: nat) {
    Shaped(m) && OneEach(m) && CountInv(m) && SlotInv(m) && WorkInv(m, input, quota) && LockInv(m) && WakeInv(m)
  }

  // ---- indices modulo the capacity ----

  lemma NextSlot(n: nat, capacity: nat)
    requires capacity > 0
    ensures Next(SlotOf(n, capacity), capacity) == SlotOf(n + 1, capacity)
  {
    var q := n / capacity;
    assert n == q * capacity + n % capacity;
    if n % capacity + 1 < capacity {
      ModIs(n + 1, q, n % capacity + 1, capacity);
    } else {
      assert n + 1 == (q + 1) * capacity;
      ModIs(n + 1, q + 1, 0, capacity);
    }
  }

  lemma ModIs(n: nat, q: nat, r: nat, capacity: nat)
    requires n == q * capacity + r && r < capacity
    ensures n % capacity == r
  {
    var q', r' := n / capacity, n % capacity;
    assert n == q' * capacity + r';
    assert q' < q ==> (q' + 1) * capacity <= q * capacity;
    assert q < q' ==> (q + 1) * capacity <= q' * capacity;
  }

  // Fewer than `capacity` apart means different slots.
  lemma SlotsDiffer(j: nat, k: nat, capacity: nat)
    requires j < k < j + capacity
    ensures SlotOf(j, capacity) != SlotOf(k, capacity)
  {
    var p, q := j / capacity, k / capacity;
    assert k - j == (q - p) * capacity + k % capacity - j % capacity;
    assert q - p <= 0 ==> (q - p) * capacity <= 0;
    assert q - p >= 1 ==> (q - p) * capacity >= capacity;
  }

  // ---- every step keeps the invariant ----

  ghost predicate EnqSteps(m: State, pick: Tid, n: State) {
    Shaped(m) && OneEach(m) && Step(m, Run(E0, pick)) == Some(n)
  }

  ghost predicate DeqSteps(m: State, pick: Tid, n: State) {
    Shaped(m) && OneEach(m) && Step(m, Run(D0, pick)) == Some(n)
  }

  lemma EnqCountKept(m: State, pick: Tid, n: State)
    requires EnqSteps(m, pick, n) && CountInv(m)
    ensures CountInv(n)
  {
  }

  lemma DeqCountKept(m: State, pick: Tid, n: State)
    requires DeqSteps(m, pick, n) && CountInv(m)
    ensures CountInv(n)
  {
  }

  lemma EnqWaitLocksKept(m: State, pick: Tid, n: State)
    requires EnqSteps(m, pick, n) && WaitLockInv(m)
    ensures WaitLockInv(n)
  {
  }

  lemma EnqSizeLockKept(m: State, pick: Tid, n: State)
    requires EnqSteps(m, pick, n) && SizeLockInv(m)
    ensures SizeLockInv(n)
  {
    hide Next;
  }

  lemma EnqTailLockKept(m: State, pick: Tid, n: State)
    requires EnqSteps(m, pick, n) && TailLockInv(m)
    ensures TailLockInv(n)
  {
    hide Next;
  }

  lemma EnqHeadLockKept(m: State, pick: Tid, n: State)
    requires EnqSteps(m, pick, n) && HeadLockInv(m)
    ensures HeadLockInv(n)
  {
    hide Next;
  }

  lemma DeqWaitLocksKept(m: State, pick: Tid, n: State)
    requires DeqSteps(m, pick, n) && WaitLockInv(m)
    ensures WaitLockInv(n)
  {
  }

  lemma DeqSizeLockKept(m: State, pick: Tid, n: State)
    requires DeqSteps(m, pick, n) && SizeLockInv(m)
    ensures SizeLockInv(n)
  {
    hide Next;
  }

  lemma DeqTailLockKept(m: State, pick: Tid, n: State)
    requires DeqSteps(m, pick, n) && TailLockInv(m)
    ensures TailLockInv(n)
  {
    hide Next;
  }

  lemma DeqHeadLockKept(m: State, pick: Tid, n: State)
    requires DeqSteps(m, pick, n) && HeadLockInv(m)
    ensures HeadLockInv(n)
  {
    hide Next;
  }

  lemma EnqWakesKept(m: State, pick: Tid, n: State)
    requires EnqSteps(m, pick, n) && WaitLockInv(m) && WakeInv(m) && CountInv(m)
    ensures WakeInv(n)
  {
  }

  lemma DeqWakesKept(m: State, pick: Tid, n: State)
    requires DeqSteps(m, pick, n) && WaitLockInv(m) && WakeInv(m) && CountInv(m)
    ensures WakeInv(n)
  {
  }

  // What a step of the enqueuer does to the buffer, its history and its work.
  lemma EnqEffect(m: State, pick: Tid, n: State)
    requires EnqSteps(m, pick, n)
    ensures Shaped(m) && OneEach(m) && Shaped(n) && OneEach(n) && n.ds == m.ds && n.sh.capacity == m.sh.capacity
    ensures n.sh.head == m.sh.head && n.sh.loaded == m.sh.loaded
    ensures var e, f := m.es[0], n.es[0];
            && (e.pc.Touch? ==> e.todo != [] && f == Enq(Advance, e.todo) && n.sh.tail == m.sh.tail &&
                                n.sh.buffer == m.sh.buffer[m.sh.tail := e.todo[0]] &&
                                n.sh.written == m.sh.written + [e.todo[0]])
            && (!e.pc.Touch? ==> n.sh.buffer == m.sh.buffer && n.sh.written == m.sh.written && !f.pc.Advance?)
            && (e.pc.Advance? ==> n.sh.tail == Next(m.sh.tail, m.sh.capacity))
            && (!e.pc.Touch? && !e.pc.Advance? ==> n.sh.tail == m.sh.tail)
            && (e.pc.UnlockPeer? ==> e.todo != [] && f == Enq(Idle, e.todo[1..]))
            && (!e.pc.UnlockPeer? ==> f.todo == e.todo && f.pc != Idle && (e.pc == Idle ==> e.todo != []))
            && (!e.pc.Touch? && !e.pc.UnlockPeer? ==> Touched(f.pc) == Touched(e.pc))
  {
    hide Next;
  }

  lemma EnqWorkKept(m: State, pick: Tid, n: State, input: seq<Elem>, quota: nat)
    requires EnqSteps(m, pick, n) && WorkInv(m, input, quota) && CountInv(m)
    ensures WorkInv(n, input, quota)
  {
    hide EnqSteps, Step;
    EnqEffect(m, pick, n);
    var e := m.es[0];
    if e.pc.Touch? {
      assert n.sh.written == input[..|m.sh.written| + 1];
    } else if e.pc.UnlockPeer? {
      assert n.es[0].todo == input[|input| - |e.todo| + 1..];
    }
  }

  // What a step of the dequeuer does to the buffer, its history and its work.
  lemma DeqEffect(m: State, pick: Tid, n: State)
    requires DeqSteps(m, pick, n)
    ensures Shaped(m) && OneEach(m) && Shaped(n) && OneEach(n) && n.es == m.es && n.sh.capacity == m.sh.capacity
    ensures n.sh.tail == m.sh.tail && n.sh.buffer == m.sh.buffer && n.sh.written == m.sh.written
    ensures var d, f, x := m.ds[0], n.ds[0], m.sh.buffer[m.sh.head];
            && (d.pc.Touch? ==> f == d.(pc := Advance, elem := x) && n.sh.head == m.sh.head &&
                                n.sh.loaded == m.sh.loaded + [x])
            && (!d.pc.Touch? ==> n.sh.loaded == m.sh.loaded && f.elem == d.elem && !f.pc.Advance?)
            && (d.pc.Advance? ==> n.sh.head == Next(m.sh.head, m.sh.capacity))
            && (!d.pc.Touch? && !d.pc.Advance? ==> n.sh.head == m.sh.head)
            && (d.pc.UnlockPeer? ==> d.quota > 0 && f == Deq(Idle, d.quota - 1, d.elem, d.returned + [d.elem]))
            && (!d.pc.UnlockPeer? ==> f.quota == d.quota && f.returned == d.returned && f.pc != Idle)
            && (d.pc == Idle ==> d.quota > 0)
            && (!d.pc.Touch? && !d.pc.UnlockPeer? ==> Touched(f.pc) == Touched(d.pc))
  {
    hide Next;
  }

  lemma DeqWorkKept(m: State, pick: Tid, n: State, input: seq<Elem>, quota: nat)
    requires DeqSteps(m, pick, n) && WorkInv(m, input, quota) && CountInv(m)
    ensures WorkInv(n, input, quota)
  {
    hide DeqSteps, Step, CountInv;
    DeqEffect(m, pick, n);
  }

  // The tail slot holds no unread element when the enqueuer is about to store.
  lemma TailIsFree(m: State)
    requires Shaped(m) && OneEach(m) && SlotInv(m) && CountInv(m) && m.es[0].pc.Touch?
    ensures forall k: nat :: |m.sh.loaded| <= k < |m.sh.written| ==> SlotOf(k, m.sh.capacity) != m.sh.tail
  {
    hide SlotOf;
    var sh := m.sh;
    forall k: nat | |sh.loaded| <= k < |sh.written| ensures SlotOf(k, sh.capacity) != sh.tail {
      SlotsDiffer(k, |sh.written|, sh.capacity);
    }
  }

  // Storing into the tail slot leaves every unread slot alone.
  lemma StoreKeepsSlots(m: State, n: State, pick: Tid)
    requires EnqSteps(m, pick, n) && SlotInv(m) && CountInv(m) && m.es[0].pc.Touch?
    ensures SlotInv(n)
  {
    hide EnqSteps, Step, SlotOf;
    EnqEffect(m, pick, n);
    TailIsFree(m);
  }

  lemma EnqSlotsKept(m: State, pick: Tid, n: State)
    requires EnqSteps(m, pick, n) && SlotInv(m) && CountInv(m)
    ensures SlotInv(n)
  {
    hide SlotOf, Next, EnqSteps, Step, CountInv;
    EnqEffect(m, pick, n);
    if m.es[0].pc.Touch? {
      StoreKeepsSlots(m, n, pick);
    } else if m.es[0].pc.Advance? {
      NextSlot(|m.sh.written| - 1, m.sh.capacity);
    }
  }

  lemma DeqSlotsKept(m: State, pick: Tid, n: State)
    requires DeqSteps(m, pick, n) && SlotInv(m) && CountInv(m)
    ensures SlotInv(n)
  {
    hide SlotOf, Next, DeqSteps, Step;
    DeqEffect(m, pick, n);
    if m.ds[0].pc.Advance? {
      NextSlot(|m.sh.loaded| - 1, m.sh.capacity);
    }
  }

  lemma SameButWaiters(m: State, n: State, input: seq<Elem>, quota: nat)
    requires Shaped(m) && Shaped(n) && OneEach(m) && OneEach(n) && n.es == m.es && n.ds == m.ds
    requires n.sh == m.sh.(pushWaiters := n.sh.pushWaiters, popWaiters := n.sh.popWaiters)
    ensures LockInv(m) ==> LockInv(n)
    ensures WorkInv(m, input, quota) ==> WorkInv(n, input, quota)
    ensures CountInv(m) ==> CountInv(n)
    ensures SlotInv(m) ==> SlotInv(n)
  {
  }

  lemma SpuriousWakes(m: State, t: Tid, n: State)
    requires Shaped(m) && OneEach(m) && WakeInv(m) && Step(m, Spurious(t)) == Some(n)
    ensures OneEach(n) && WakeInv(n)
  {
    hide EnqStep, DeqStep;
  }

  lemma SpuriousKept(m: State, t: Tid, n: State, input: seq<Elem>, quota: nat)
    requires Inv(m, input, quota) && Step(m, Spurious(t)) == Some(n)
    ensures Inv(n, input, quota)
  {
    hide WorkInv, LockInv, CountInv, SlotInv, WakeInv, EnqStep, DeqStep;
    SpuriousWakes(m, t, n);
    SameButWaiters(m, n, input, quota);
  }

  // The invariant holds after every enabled step of any thread.
  lemma StepKept(m: State, act: Action, n: State, input: seq<Elem>, quota: nat)
    requires Inv(m, input, quota) && Step(m, act) == Some(n)
    ensures Inv(n, input, quota)
  {
    hide CountInv, SlotInv, WorkInv, WaitLockInv, SizeLockInv, TailLockInv, HeadLockInv, WakeInv, EnqStep, DeqStep;
    match act
    case Run(E(i), pick) =>
      assert EnqSteps(m, pick, n);
      EnqCountKept(m, pick, n);
      EnqSlotsKept(m, pick, n);
      EnqWorkKept(m, pick, n, input, quota);
      EnqWaitLocksKept(m, pick, n);
      EnqSizeLockKept(m, pick, n);
      EnqTailLockKept(m, pick, n);
      EnqHeadLockKept(m, pick, n);
      EnqWakesKept(m, pick, n);
    case Run(D(j), pick) =>
      assert DeqSteps(m, pick, n);
      DeqCountKept(m, pick, n);
      DeqSlotsKept(m, pick, n);
      DeqWorkKept(m, pick, n, input, quota);
      DeqWaitLocksKept(m, pick, n);
      DeqSizeLockKept(m, pick, n);
      DeqTailLockKept(m, pick, n);
      DeqHeadLockKept(m, pick, n);
      DeqWakesKept(m, pick, n);
    case Spurious(t) =>
      SpuriousKept(m, t, n, input, quota);
  }

  lemma InitInv(junk: seq<Elem>, input: seq<Elem>, quota: nat)
    requires 0 < |junk| <= SIZE_MAX
    ensures Inv(Init(junk, [input], [quota]), input, quota)
  {
    ModIs(0, 0, 0, |junk|);
  }

  lemma {:induction false} RunKept(m: State, schedule: seq<Action>, input: seq<Elem>, quota: nat)
    requires Inv(m, input, quota) && Exec(m, schedule).Some?
    ensures Inv(Exec(m, schedule).value, input, quota)
    decreases |schedule|
  {
    hide Inv, Step;
    InvShaped(m, input, quota);
    if schedule == [] {
    } else {
      var n := Step(m, schedule[0]).value;
      StepKept(m, schedule[0], n, input, quota);
      RunKept(n, schedule[1..], input, quota);
    }
  }

  lemma InvShaped(m: State, input: seq<Elem>, quota: nat)
    requires Inv(m, input, quota)
    ensures Shaped(m) && OneEach(m)
  {
  }

  // What the queue promises, in terms of the histories alone: elements come out
  // in the order they went in, never before they were stored, and no slot is
  // overwritten before it is read.
  ghost predicate Fifo(sh: Shared)
    requires sh.capacity > 0 && |sh.buffer| == sh.capacity
  {
    && |sh.loaded| <= |sh.written| <= |sh.loaded| + sh.capacity
    && sh.loaded == sh.written[..|sh.loaded|]
    && (forall k: nat :: |sh.loaded| <= k < |sh.written| ==> sh.buffer[SlotOf(k, sh.capacity)] == sh.written[k])
  }

  // Safety of one enqueuer and one dequeuer, for every capacity, every input and
  // every interleaving: first in first out, the size field off by the two
  // in-flight corrections only, the results a prefix of the input, and no lost
  // wake-up: a thread that sleeps unsignalled although it could go on is about to
  // be signalled.
  lemma QueueSafe(junk: seq<Elem>, input: seq<Elem>, quota: nat, schedule: seq<Action>)
    requires 0 < |junk| <= SIZE_MAX
    requires Exec(Init(junk, [input], [quota]), schedule).Some?
    ensures var m := Exec(Init(junk, [input], [quota]), schedule).value;
            && OneEach(m) && m.sh.capacity == |m.sh.buffer| > 0
            && Fifo(m.sh)
            && m.sh.size == |m.sh.written| - |m.sh.loaded| - Bit(InFlight(m.es[0].pc)) + Bit(InFlight(m.ds[0].pc))
            && m.sh.written <= input && m.ds[0].returned <= m.sh.loaded <= input
            && (E0 in m.sh.pushWaiters && m.sh.size < m.sh.capacity ==> OwesSignal(m.ds[0].pc))
            && (D0 in m.sh.popWaiters && m.sh.size > 0 ==> OwesSignal(m.es[0].pc))
  {
    InitInv(junk, input, quota);
    RunKept(Init(junk, [input], [quota]), schedule, input, quota);
    hide LockInv, Exec, SlotOf;
  }
}
