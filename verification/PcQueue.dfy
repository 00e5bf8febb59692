// pc_queue_t in place. Each method is the body of one of the atomic steps of
// QueueMachine on the object's fields; the calling thread's own position and
// element travel in and out by value, as its stack does.
module PcQueue {
  import opened Prelude
  import opened QueueMachine
  import opened QueueSafety

  class PcQueue {
    const capacity: nat
    const buffer: array<Elem>
    var size: nat
    var head: nat
    var tail: nat
    var sizeLock: Option<Tid>
    var headLock: Option<Tid>
    var tailLock: Option<Tid>
    var pushLock: Option<Tid>
    var popLock: Option<Tid>
    var pushWaiters: set<Tid>
    var popWaiters: set<Tid>
    ghost var written: seq<Elem>
    ghost var loaded: seq<Elem>

    ghost predicate Valid()
      reads this
    {
      0 < capacity <= SIZE_MAX && buffer.Length == capacity && head < capacity && tail < capacity
    }

    ghost function View(): Shared
      reads this, buffer
    {
      Shared(buffer[..], capacity, size, head, tail, sizeLock, headLock, tailLock, pushLock, popLock,
             pushWaiters, popWaiters, written, loaded)
    }

    // pcq_create
    constructor PcqCreate(capacity: nat)
      requires 0 < capacity <= SIZE_MAX
      ensures Valid() && fresh(buffer) && |buffer[..]| == capacity
      ensures View() == Init(buffer[..], [], []).sh
    {
      this.capacity := capacity;
      buffer := new Elem[capacity];
      size, head, tail := 0, 0, 0;
      sizeLock, headLock, tailLock, pushLock, popLock := None, None, None, None, None;
      pushWaiters, popWaiters := {}, {};
      written, loaded := [], [];
    }

    // One statement of pcq_enqueue; ok is false when the thread has to wait.
    method EnqueueStep(e: Enq, me: Tid, pick: Tid) returns (ok: bool, e': Enq)
      requires Valid()
      modifies this, buffer
      ensures Valid()
      ensures EnqStep(old(View()), e, me, pick) == if ok then Some((View(), e')) else None
      ensures !ok ==> View() == old(View())
    {
      ok, e' := true, e;
      match e.pc {
        case Idle =>
          ok := e.todo != [] && pushLock == None;
          if ok { pushLock, e' := Some(me), e.(pc := Test); }
        case Test =>
          e' := e.(pc := if size == capacity then Sleep else EndWait);
        case Sleep =>
          pushLock, pushWaiters, e' := None, pushWaiters + {me}, e.(pc := Waiting);
        case Waiting =>
          ok := me !in pushWaiters && pushLock == None;
          if ok { pushLock, e' := Some(me), e.(pc := Test); }
        case EndWait =>
          pushLock, e' := None, e.(pc := LockEnd);
        case LockEnd =>
          ok := tailLock == None;
          if ok { tailLock, e' := Some(me), e.(pc := Touch); }
        case Touch =>
          ok := e.todo != [];
          if ok {
            buffer[tail] := e.todo[0];
            written, e' := written + [e.todo[0]], e.(pc := Advance);
          }
        case Advance =>
          tail, e' := (tail + 1) % capacity, e.(pc := LockSize);
        case LockSize =>
          ok := sizeLock == None;
          if ok { sizeLock, e' := Some(me), e.(pc := Count); }
        case Count =>
          size, e' := Inc(size), e.(pc := UnlockSize);
        case UnlockSize =>
          sizeLock, e' := None, e.(pc := UnlockEnd);
        case UnlockEnd =>
          tailLock, e' := None, e.(pc := LockPeer);
        case LockPeer =>
          ok := popLock == None;
          if ok { popLock, e' := Some(me), e.(pc := Signal); }
        case Signal =>
          ok := popWaiters == {} || pick in popWaiters;
          if ok { popWaiters, e' := if popWaiters == {} then {} else popWaiters - {pick}, e.(pc := UnlockPeer); }
        case UnlockPeer =>
          ok := e.todo != [];
          if ok { popLock, e' := None, Enq(Idle, e.todo[1..]); }
      }
    }

    // One statement of pcq_dequeue.
    method DequeueStep(d: Deq, me: Tid, pick: Tid) returns (ok: bool, d': Deq)
      requires Valid()
      modifies this
      ensures Valid()
      ensures DeqStep(old(View()), d, me, pick) == if ok then Some((View(), d')) else None
      ensures !ok ==> View() == old(View())
    {
      ok, d' := true, d;
      match d.pc {
        case Idle =>
          ok := d.quota > 0 && popLock == None;
          if ok { popLock, d' := Some(me), d.(pc := Test); }
        case Test =>
          d' := d.(pc := if size == 0 then Sleep else EndWait);
        case Sleep =>
          popLock, popWaiters, d' := None, popWaiters + {me}, d.(pc := Waiting);
        case Waiting =>
          ok := me !in popWaiters && popLock == None;
          if ok { popLock, d' := Some(me), d.(pc := Test); }
        case EndWait =>
          popLock, d' := None, d.(pc := LockEnd);
        case LockEnd =>
          ok := headLock == None;
          if ok { headLock, d' := Some(me), d.(pc := Touch); }
        case Touch =>
          loaded, d' := loaded + [buffer[head]], d.(pc := Advance, elem := buffer[head]);
        case Advance =>
          head, d' := (head + 1) % capacity, d.(pc := LockSize);
        case LockSize =>
          ok := sizeLock == None;
          if ok { sizeLock, d' := Some(me), d.(pc := Count); }
        case Count =>
          size, d' := Dec(size), d.(pc := UnlockSize);
        case UnlockSize =>
          sizeLock, d' := None, d.(pc := UnlockEnd);
        case UnlockEnd =>
          headLock, d' := None, d.(pc := LockPeer);
        case LockPeer =>
          ok := pushLock == None;
          if ok { pushLock, d' := Some(me), d.(pc := Signal); }
        case Signal =>
          ok := pushWaiters == {} || pick in pushWaiters;
          if ok { pushWaiters, d' := if pushWaiters == {} then {} else pushWaiters - {pick}, d.(pc := UnlockPeer); }
        case UnlockPeer =>
          ok := d.quota > 0;
          if ok { pushLock, d' := None, Deq(Idle, d.quota - 1, d.elem, d.returned + [d.elem]); }
      }
    }

    // pthread_cond_wait of a sleeping thread returns without a signal.
    method WakeSpuriously(t: Tid) returns (ok: bool)
      requires Valid()
      modifies this
      ensures Valid() && ok == (t in old(pushWaiters) || t in old(popWaiters))
      ensures View() == if t in old(pushWaiters) then old(View()).(pushWaiters := old(pushWaiters) - {t})
                        else old(View()).(popWaiters := old(popWaiters) - {t})
    {
      ok := t in pushWaiters || t in popWaiters;
      if t in pushWaiters {
        pushWaiters := pushWaiters - {t};
      } else {
        popWaiters := popWaiters - {t};
      }
    }
  }

  // One turn of one enqueuer and one dequeuer that share a queue.
  method Turn(q: PcQueue, e: Enq, d: Deq, act: Action) returns (ok: bool, e': Enq, d': Deq)
    requires q.Valid()
    modifies q, q.buffer
    ensures q.Valid() && (!ok ==> q.View() == old(q.View()) && e' == e && d' == d)
    ensures Step(State(old(q.View()), [e], [d]), act) == if ok then Some(State(q.View(), [e'], [d'])) else None
  {
    hide EnqStep, DeqStep;
    ok, e', d' := false, e, d;
    match act {
      case Run(E(i), pick) =>
        if i == 0 {
          ok, e' := q.EnqueueStep(e, E(0), pick);
          e' := if ok then e' else e;
        }
      case Run(D(j), pick) =>
        if j == 0 {
          ok, d' := q.DequeueStep(d, D(0), pick);
          d' := if ok then d' else d;
        }
      case Spurious(t) =>
        ok := q.WakeSpuriously(t);
    }
    assert [e][0 := e'] == [e'] && [d][0 := d'] == [d'];
  }

  lemma TwoThreads(junk: seq<Elem>, input: seq<Elem>, quota: nat)
    requires 0 < |junk| <= SIZE_MAX
    ensures Init(junk, [input], [quota]) ==
            State(Init(junk, [], []).sh, [Enq(Idle, input)], [Deq(Idle, quota, 0, [])])
  {
    assert Init(junk, [input], [quota]).es == [Enq(Idle, input)];
    assert Init(junk, [input], [quota]).ds == [Deq(Idle, quota, 0, [])];
  }

  // What the object promises to one enqueuer and one dequeuer. The schedule says
  // whose turn it is; a thread that has to wait lets its turn pass.
  method Share(q: PcQueue, input: seq<Elem>, quota: nat, schedule: seq<Action>) returns (e: Enq, d: Deq)
    requires q.Valid() && q.View() == Init(q.buffer[..], [], []).sh
    modifies q, q.buffer
    ensures q.Valid() && Fifo(q.View())
    ensures q.written <= input && d.returned <= q.loaded <= input
    ensures q.size == |q.written| - |q.loaded| - Bit(InFlight(e.pc)) + Bit(InFlight(d.pc))
  {
    e, d := Enq(Idle, input), Deq(Idle, quota, 0, []);
    ghost var junk := q.buffer[..];
    ghost var start, ran := Init(junk, [input], [quota]), [];
    TwoThreads(junk, input, quota);
    hide Init, Step, Fifo;
    for i := 0 to |schedule|
      invariant q.Valid() && Exec(start, ran) == Some(State(q.View(), [e], [d]))
    {
      hide Exec;
      var ok;
      ok, e, d := Turn(q, e, d, schedule[i]);
      if ok {
        ExecOneMore(start, ran, schedule[i]);
        ran := ran + [schedule[i]];
      }
    }
    QueueSafe(junk, input, quota, ran);
  }
}
