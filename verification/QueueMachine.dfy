// The bounded producer-consumer queue of producer-consumer/producer-consumer.c
// as a step machine. Each step is one statement of pcq_enqueue or pcq_dequeue,
// run by one thread; any number of threads may run at each end.
module QueueMachine {
  import opened Prelude

  type Elem = int // the void pointers that are passed through

  const SIZE_MAX: nat := 0xFFFF_FFFF_FFFF_FFFF

  // Threads are numbered: enqueuer i and dequeuer j.
  datatype Tid = E(i: nat) | D(j: nat)

  // pc_queue_t. A mutex is its holder, a condition variable its sleeping waiters.
  // `written` and `loaded` are history: what was ever stored into and loaded from
  // the buffer.
  datatype Shared = Shared(
    buffer: seq<Elem>,
    capacity: nat,
    size: nat,
    head: nat,
    tail: nat,
    sizeLock: Option<Tid>,
    headLock: Option<Tid>,
    tailLock: Option<Tid>,
    pushLock: Option<Tid>,
    popLock: Option<Tid>,
    pushWaiters: set<Tid>,
    popWaiters: set<Tid>,
    written: seq<Elem>,
    loaded: seq<Elem>)

  // Where a thread stands, named by the statement it executes next. The names fit
  // both functions: an enqueuer's own end is the tail and it waits for room; a
  // dequeuer's own end is the head and it waits for an element.
  datatype Pc =
    | Idle         // before the call: locks its own condvar lock (51, 96)
    | Test         // tests the size (54, 100)
    | Sleep        // calls pthread_cond_wait (55, 101)
    | Waiting      // inside pthread_cond_wait, mutex released
    | EndWait      // unlocks the condvar lock (59, 105)
    | LockEnd      // locks tail or head (63, 110)
    | Touch        // stores or loads the slot (68, 113)
    | Advance      // moves tail or head (69, 114)
    | LockSize     // (70, 115)
    | Count        // size++ or size-- (73, 118)
    | UnlockSize   // (74, 119)
    | UnlockEnd    // (77, 123)
    | LockPeer     // locks the other side's condvar lock (80, 126)
    | Signal       // (84, 130)
    | UnlockPeer   // (87, 133), then the call returns

  // An enqueuer still has `todo` to enqueue, head first.
  datatype Enq = Enq(pc: Pc, todo: seq<Elem>)

  // A dequeuer still makes `quota` calls; `elem` is the one in hand.
  datatype Deq = Deq(pc: Pc, quota: nat, elem: Elem, returned: seq<Elem>)

  datatype State = State(sh: Shared, es: seq<Enq>, ds: seq<Deq>)

  // One step of one thread. `Run` of a thread about to signal also picks which
  // sleeping waiter wakes; `Spurious` wakes a sleeping thread with no signal.
  datatype Action =
    | Run(t: Tid, pick: Tid)
    | Spurious(t: Tid)

  // size_t arithmetic
  function Inc(n: nat): nat {
    if n == SIZE_MAX then 0 else n + 1
  }

  function Dec(n: nat): nat {
    if n == 0 then SIZE_MAX else n - 1
  }

  function Next(index: nat, capacity: nat): nat
    requires capacity > 0
  {
    (index + 1) % capacity
  }

  // pthread_cond_signal wakes one sleeping waiter if there is one.
  function Woken(waiters: set<Tid>, pick: Tid): Option<set<Tid>> {
    if waiters == {} then Some({})
    else if pick in waiters then Some(waiters - {pick})
    else None
  }

  // One statement of pcq_enqueue by enqueuer `me`; None when it must wait.
  function EnqStep(sh: Shared, e: Enq, me: Tid, pick: Tid): (r: Option<(Shared, Enq)>)
    requires sh.capacity > 0 && sh.tail < |sh.buffer|
  {
    match e.pc
    case Idle =>
      if e.todo == [] || sh.pushLock != None then None
      else Some((sh.(pushLock := Some(me)), e.(pc := Test)))
    case Test =>
      Some((sh, e.(pc := if sh.size == sh.capacity then Sleep else EndWait)))
    case Sleep =>
      Some((sh.(pushLock := None, pushWaiters := sh.pushWaiters + {me}), e.(pc := Waiting)))
    case Waiting =>
      if me in sh.pushWaiters || sh.pushLock != None then None
      else Some((sh.(pushLock := Some(me)), e.(pc := Test)))
    case EndWait =>
      Some((sh.(pushLock := None), e.(pc := LockEnd)))
    case LockEnd =>
      if sh.tailLock != None then None
      else Some((sh.(tailLock := Some(me)), e.(pc := Touch)))
    case Touch =>
      if e.todo == [] then None
      else
        Some((sh.(buffer := sh.buffer[sh.tail := e.todo[0]], written := sh.written + [e.todo[0]]), e.(pc := Advance)))
    case Advance =>
      Some((sh.(tail := Next(sh.tail, sh.capacity)), e.(pc := LockSize)))
    case LockSize =>
      if sh.sizeLock != None then None
      else Some((sh.(sizeLock := Some(me)), e.(pc := Count)))
    case Count =>
      Some((sh.(size := Inc(sh.size)), e.(pc := UnlockSize)))
    case UnlockSize =>
      Some((sh.(sizeLock := None), e.(pc := UnlockEnd)))
    case UnlockEnd =>
      Some((sh.(tailLock := None), e.(pc := LockPeer)))
    case LockPeer =>
      if sh.popLock != None then None
      else Some((sh.(popLock := Some(me)), e.(pc := Signal)))
    case Signal =>
      var w := Woken(sh.popWaiters, pick);
      if w == None then None
      else Some((sh.(popWaiters := w.value), e.(pc := UnlockPeer)))
    case UnlockPeer =>
      if e.todo == [] then None
      else Some((sh.(popLock := None), Enq(Idle, e.todo[1..])))
  }

  // One statement of pcq_dequeue by dequeuer `me`.
  function DeqStep(sh: Shared, d: Deq, me: Tid, pick: Tid): (r: Option<(Shared, Deq)>)
    requires sh.capacity > 0 && sh.head < |sh.buffer|
  {
    match d.pc
    case Idle =>
      if d.quota == 0 || sh.popLock != None then None
      else Some((sh.(popLock := Some(me)), d.(pc := Test)))
    case Test =>
      Some((sh, d.(pc := if sh.size == 0 then Sleep else EndWait)))
    case Sleep =>
      Some((sh.(popLock := None, popWaiters := sh.popWaiters + {me}), d.(pc := Waiting)))
    case Waiting =>
      if me in sh.popWaiters || sh.popLock != None then None
      else Some((sh.(popLock := Some(me)), d.(pc := Test)))
    case EndWait =>
      Some((sh.(popLock := None), d.(pc := LockEnd)))
    case LockEnd =>
      if sh.headLock != None then None
      else Some((sh.(headLock := Some(me)), d.(pc := Touch)))
    case Touch =>
      Some((sh.(loaded := sh.loaded + [sh.buffer[sh.head]]), d.(pc := Advance, elem := sh.buffer[sh.head])))
    case Advance =>
      Some((sh.(head := Next(sh.head, sh.capacity)), d.(pc := LockSize)))
    case LockSize =>
      if sh.sizeLock != None then None
      else Some((sh.(sizeLock := Some(me)), d.(pc := Count)))
    case Count =>
      Some((sh.(size := Dec(sh.size)), d.(pc := UnlockSize)))
    case UnlockSize =>
      Some((sh.(sizeLock := None), d.(pc := UnlockEnd)))
    case UnlockEnd =>
      Some((sh.(headLock := None), d.(pc := LockPeer)))
    case LockPeer =>
      if sh.pushLock != None then None
      else Some((sh.(pushLock := Some(me)), d.(pc := Signal)))
    case Signal =>
      var w := Woken(sh.pushWaiters, pick);
      if w == None then None
      else Some((sh.(pushWaiters := w.value), d.(pc := UnlockPeer)))
    case UnlockPeer =>
      if d.quota == 0 then None
      else Some((sh.(pushLock := None), Deq(Idle, d.quota - 1, d.elem, d.returned + [d.elem])))
  }

  // The buffer has as many slots as pcq_create asked for, and the indices are in it.
  ghost predicate Shaped(m: State) {
    0 < m.sh.capacity <= SIZE_MAX && |m.sh.buffer| == m.sh.capacity &&
    m.sh.head < m.sh.capacity && m.sh.tail < m.sh.capacity
  }

  function Step(m: State, act: Action): (r: Option<State>)
    requires Shaped(m)
    ensures r.Some? ==> Shaped(r.value)
  {
    match act
    case Run(E(i), pick) =>
      if i >= |m.es| then None
      else
        var r := EnqStep(m.sh, m.es[i], E(i), pick);
        if r == None then None else Some(m.(sh := r.value.0, es := m.es[i := r.value.1]))
    case Run(D(j), pick) =>
      if j >= |m.ds| then None
      else
        var r := DeqStep(m.sh, m.ds[j], D(j), pick);
        if r == None then None else Some(m.(sh := r.value.0, ds := m.ds[j := r.value.1]))
    case Spurious(t) =>
      if t in m.sh.pushWaiters then Some(m.(sh := m.sh.(pushWaiters := m.sh.pushWaiters - {t})))
      else if t in m.sh.popWaiters then Some(m.(sh := m.sh.(popWaiters := m.sh.popWaiters - {t})))
      else None
  }

  // A schedule, every step of which must be enabled.
  function Exec(m: State, schedule: seq<Action>): (r: Option<State>)
    requires Shaped(m)
    ensures r.Some? ==> Shaped(r.value)
    decreases |schedule|
  {
    if schedule == [] then Some(m)
    else
      var r := Step(m, schedule[0]);
      if r == None then None else Exec(r.value, schedule[1..])
  }

  lemma {:induction false} ExecOneMore(m: State, schedule: seq<Action>, act: Action)
    requires Shaped(m) && Exec(m, schedule).Some? && Step(Exec(m, schedule).value, act).Some?
    ensures Exec(m, schedule + [act]) == Step(Exec(m, schedule).value, act)
    decreases |schedule|
  {
    hide Step;
    if schedule == [] {
      assert [act][1..] == [];
    } else {
      assert (schedule + [act])[1..] == schedule[1..] + [act];
      ExecOneMore(Step(m, schedule[0]).value, schedule[1..], act);
    }
  }

  // pcq_create with a malloc'ed buffer, and threads about to make their calls.
  function Init(junk: seq<Elem>, todos: seq<seq<Elem>>, quotas: seq<nat>): (m: State)
    requires 0 < |junk| <= SIZE_MAX
    ensures Shaped(m)
  {
    State(
      Shared(junk, |junk|, 0, 0, 0, None, None, None, None, None, {}, {}, [], []),
      seq(|todos|, i requires 0 <= i < |todos| => Enq(Idle, todos[i])),
      seq(|quotas|, j requires 0 <= j < |quotas| => Deq(Idle, quotas[j], 0, [])))
  }
}
