// The size test and the slot access are in different critical sections, so the
// queue is first in first out only with one thread at each end.
module QueueThreads {
  import opened Prelude
  import opened QueueMachine
  import opened QueueSafety

  // Every run of a queue of this capacity with ne enqueuers and nd dequeuers is
  // first in first out.
  ghost predicate AlwaysFifo(capacity: nat, ne: nat, nd: nat) {
    forall junk: seq<Elem>, todos: seq<seq<Elem>>, quotas: seq<nat>, schedule: seq<Action> ::
      0 < |junk| == capacity <= SIZE_MAX && |todos| == ne && |quotas| == nd &&
      Exec(Init(junk, todos, quotas), schedule).Some? ==>
        Fifo(Exec(Init(junk, todos, quotas), schedule).value.sh)
  }

  ghost predicate Reach(m: State, n: State)
    requires Shaped(m)
  {
    exists schedule :: Exec(m, schedule) == Some(n)
  }

  lemma Then(m: State, n: State, act: Action, o: State)
    requires Shaped(m) && Shaped(n) && Reach(m, n) && Step(n, act) == Some(o)
    ensures Reach(m, o)
  {
    var schedule :| Exec(m, schedule) == Some(n);
    ExecOneMore(m, schedule, act);
  }

  lemma AtStart(m: State)
    requires Shaped(m)
    ensures Reach(m, m)
  {
    assert Exec(m, []) == Some(m);
  }

  // An enqueuer passes its test and stands before the tail lock.
  lemma EnqueuerPasses(m: State, n: State, i: nat) returns (o: State)
    requires Shaped(m) && Shaped(n) && Reach(m, n) && i < |n.es| && n.es[i].pc.Idle? && n.es[i].todo != []
    requires n.sh.pushLock == None && n.sh.size != n.sh.capacity
    ensures o == n.(es := n.es[i := n.es[i].(pc := LockEnd)]) && Reach(m, o)
  {
    var o1 := Step(n, Run(E(i), E(i))).value;
    Then(m, n, Run(E(i), E(i)), o1);
    var o2 := Step(o1, Run(E(i), E(i))).value;
    Then(m, o1, Run(E(i), E(i)), o2);
    o := Step(o2, Run(E(i), E(i))).value;
    Then(m, o2, Run(E(i), E(i)), o);
  }

  // ... and stores its element.
  lemma EnqueuerStores(m: State, n: State, i: nat) returns (o: State)
    requires Shaped(m) && Shaped(n) && Reach(m, n) && i < |n.es| && n.es[i].pc.LockEnd? && n.es[i].todo != []
    requires n.sh.tailLock == None
    ensures Reach(m, o) && Shaped(o)
    ensures o == n.(
                 sh := n.sh.(buffer := n.sh.buffer[n.sh.tail := n.es[i].todo[0]],
                             written := n.sh.written + [n.es[i].todo[0]], tailLock := Some(E(i))),
                 es := n.es[i := n.es[i].(pc := Advance)])
  {
    var o1 := Step(n, Run(E(i), E(i))).value;
    Then(m, n, Run(E(i), E(i)), o1);
    o := Step(o1, Run(E(i), E(i))).value;
    Then(m, o1, Run(E(i), E(i)), o);
  }

  // ... moves its index and corrects the size ...
  lemma EnqueuerMoves(m: State, n: State, i: nat) returns (o: State)
    requires Shaped(m) && Shaped(n) && Reach(m, n) && i < |n.es| && n.es[i].pc.Advance? && n.sh.sizeLock == None
    ensures Reach(m, o) && Shaped(o)
    ensures o == n.(
                 sh := n.sh.(tail := Next(n.sh.tail, n.sh.capacity), size := Inc(n.sh.size),
                             sizeLock := Some(E(i))),
                 es := n.es[i := n.es[i].(pc := UnlockSize)])
  {
    var o1 := Step(n, Run(E(i), E(i))).value;
    Then(m, n, Run(E(i), E(i)), o1);
    var o2 := Step(o1, Run(E(i), E(i))).value;
    Then(m, o1, Run(E(i), E(i)), o2);
    o := Step(o2, Run(E(i), E(i))).value;
    Then(m, o2, Run(E(i), E(i)), o);
  }

  // ... and gives both locks back.
  lemma EnqueuerUnlocks(m: State, n: State, i: nat) returns (o: State)
    requires Shaped(m) && Shaped(n) && Reach(m, n) && i < |n.es| && n.es[i].pc.UnlockSize?
    ensures Reach(m, o) && Shaped(o)
    ensures o == n.(
                 sh := n.sh.(sizeLock := None, tailLock := None),
                 es := n.es[i := n.es[i].(pc := LockPeer)])
  {
    var o1 := Step(n, Run(E(i), E(i))).value;
    Then(m, n, Run(E(i), E(i)), o1);
    o := Step(o1, Run(E(i), E(i))).value;
    Then(m, o1, Run(E(i), E(i)), o);
  }

  // ... and signals nobody and returns.
  lemma EnqueuerReturns(m: State, n: State, i: nat) returns (o: State)
    requires Shaped(m) && Shaped(n) && Reach(m, n) && i < |n.es| && n.es[i].pc.LockPeer? && n.es[i].todo != []
    requires n.sh.popLock == None && n.sh.popWaiters == {}
    ensures Reach(m, o) && Shaped(o)
    ensures o == n.(es := n.es[i := Enq(Idle, n.es[i].todo[1..])])
  {
    var o1 := Step(n, Run(E(i), E(i))).value;
    Then(m, n, Run(E(i), E(i)), o1);
    var o2 := Step(o1, Run(E(i), E(i))).value;
    Then(m, o1, Run(E(i), E(i)), o2);
    o := Step(o2, Run(E(i), E(i))).value;
    Then(m, o2, Run(E(i), E(i)), o);
  }

  // Enqueuer 0 has made k calls, and nobody else has done anything.
  ghost predicate Filled(m: State, n: State, k: nat)
    requires Shaped(m)
  {
    && Shaped(n) && Reach(m, n) && n.sh.capacity == m.sh.capacity && |n.es| >= 2
    && n.sh.pushLock == None && n.sh.popLock == None && n.sh.tailLock == None && n.sh.sizeLock == None
    && n.sh.popWaiters == {} && n.sh.size == k == |n.sh.written| && n.sh.loaded == []
    && n.es[0].pc.Idle? && |n.es[0].todo| + k == n.sh.capacity
    && n.es[1].pc.Idle? && n.es[1].todo != []
  }

  lemma {:induction false} Fill(m: State, n: State, k: nat) returns (o: State)
    requires Shaped(m) && Filled(m, n, k) && k < m.sh.capacity
    ensures Filled(m, o, m.sh.capacity - 1)
    decreases m.sh.capacity - k
  {
    hide Step, Exec, Reach;
    o := n;
    if k + 1 < m.sh.capacity {
      o := EnqueuerPasses(m, n, 0);
      o := EnqueuerStores(m, o, 0);
      o := EnqueuerMoves(m, o, 0);
      o := EnqueuerUnlocks(m, o, 0);
      o := EnqueuerReturns(m, o, 0);
      o := Fill(m, o, k + 1);
    }
  }

  // Two enqueuers that both saw the last free slot both store.
  lemma TwoEnqueuersOverwrite(capacity: nat, ne: nat, nd: nat)
    requires 0 < capacity <= SIZE_MAX && ne >= 2
    ensures !AlwaysFifo(capacity, ne, nd)
  {
    var junk, todo := seq(capacity, _ => 0), seq(capacity, _ => 7);
    var todos, quotas := seq(ne, _ => todo), seq(nd, _ => 0);
    var m := Init(junk, todos, quotas);
    AtStart(m);
    hide Step, Exec, Reach;
    var n := Fill(m, m, 0);
    n := EnqueuerPasses(m, n, 0);
    n := EnqueuerPasses(m, n, 1);
    n := EnqueuerStores(m, n, 0);
    n := EnqueuerMoves(m, n, 0);
    n := EnqueuerUnlocks(m, n, 0);
    n := EnqueuerStores(m, n, 1);
    assert |n.sh.written| == capacity + 1 && n.sh.loaded == [] && !Fifo(n.sh);
    NotAlways(junk, todos, quotas, n);
  }

  lemma NotAlways(junk: seq<Elem>, todos: seq<seq<Elem>>, quotas: seq<nat>, n: State)
    requires 0 < |junk| <= SIZE_MAX && Reach(Init(junk, todos, quotas), n)
    requires Shaped(n) && !Fifo(n.sh)
    ensures !AlwaysFifo(|junk|, |todos|, |quotas|)
  {
    hide Fifo, Init;
    var schedule :| Exec(Init(junk, todos, quotas), schedule) == Some(n);
  }

  lemma DequeuerPasses(m: State, n: State, j: nat) returns (o: State)
    requires Shaped(m) && Shaped(n) && Reach(m, n) && j < |n.ds| && n.ds[j].pc.Idle? && n.ds[j].quota > 0
    requires n.sh.popLock == None && n.sh.size != 0
    ensures o == n.(ds := n.ds[j := n.ds[j].(pc := LockEnd)]) && Reach(m, o)
  {
    var o1 := Step(n, Run(D(j), D(j))).value;
    Then(m, n, Run(D(j), D(j)), o1);
    var o2 := Step(o1, Run(D(j), D(j))).value;
    Then(m, o1, Run(D(j), D(j)), o2);
    o := Step(o2, Run(D(j), D(j))).value;
    Then(m, o2, Run(D(j), D(j)), o);
  }

  lemma DequeuerLoads(m: State, n: State, j: nat) returns (o: State)
    requires Shaped(m) && Shaped(n) && Reach(m, n) && j < |n.ds| && n.ds[j].pc.LockEnd? && n.sh.headLock == None
    ensures Reach(m, o) && Shaped(o)
    ensures o == n.(
                 sh := n.sh.(loaded := n.sh.loaded + [n.sh.buffer[n.sh.head]], headLock := Some(D(j))),
                 ds := n.ds[j := n.ds[j].(pc := Advance, elem := n.sh.buffer[n.sh.head])])
  {
    var o1 := Step(n, Run(D(j), D(j))).value;
    Then(m, n, Run(D(j), D(j)), o1);
    o := Step(o1, Run(D(j), D(j))).value;
    Then(m, o1, Run(D(j), D(j)), o);
  }

  // ... moves its index and corrects the size ...
  lemma DequeuerMoves(m: State, n: State, j: nat) returns (o: State)
    requires Shaped(m) && Shaped(n) && Reach(m, n) && j < |n.ds| && n.ds[j].pc.Advance? && n.sh.sizeLock == None
    ensures Reach(m, o) && Shaped(o)
    ensures o == n.(
                 sh := n.sh.(head := Next(n.sh.head, n.sh.capacity), size := Dec(n.sh.size),
                             sizeLock := Some(D(j))),
                 ds := n.ds[j := n.ds[j].(pc := UnlockSize)])
  {
    var o1 := Step(n, Run(D(j), D(j))).value;
    Then(m, n, Run(D(j), D(j)), o1);
    var o2 := Step(o1, Run(D(j), D(j))).value;
    Then(m, o1, Run(D(j), D(j)), o2);
    o := Step(o2, Run(D(j), D(j))).value;
    Then(m, o2, Run(D(j), D(j)), o);
  }

  // ... and gives both locks back.
  lemma DequeuerUnlocks(m: State, n: State, j: nat) returns (o: State)
    requires Shaped(m) && Shaped(n) && Reach(m, n) && j < |n.ds| && n.ds[j].pc.UnlockSize?
    ensures Reach(m, o) && Shaped(o)
    ensures o == n.(
                 sh := n.sh.(sizeLock := None, headLock := None),
                 ds := n.ds[j := n.ds[j].(pc := LockPeer)])
  {
    var o1 := Step(n, Run(D(j), D(j))).value;
    Then(m, n, Run(D(j), D(j)), o1);
    o := Step(o1, Run(D(j), D(j))).value;
    Then(m, o1, Run(D(j), D(j)), o);
  }

  // Two dequeuers that both saw the only element both load; the second load is
  // of a slot that nothing was stored in for it.
  lemma TwoDequeuersReadTooMuch(capacity: nat, ne: nat, nd: nat)
    requires 0 < capacity <= SIZE_MAX && ne >= 1 && nd >= 2
    ensures !AlwaysFifo(capacity, ne, nd)
  {
    var junk, todos, quotas := seq(capacity, _ => 0), seq(ne, _ => [7]), seq(nd, _ => 1);
    var m := Init(junk, todos, quotas);
    AtStart(m);
    hide Step, Exec, Reach;
    var n := EnqueuerPasses(m, m, 0);
    n := EnqueuerStores(m, n, 0);
    n := EnqueuerMoves(m, n, 0);
    n := EnqueuerUnlocks(m, n, 0);
    n := DequeuerPasses(m, n, 0);
    n := DequeuerPasses(m, n, 1);
    n := DequeuerLoads(m, n, 0);
    n := DequeuerMoves(m, n, 0);
    n := DequeuerUnlocks(m, n, 0);
    n := DequeuerLoads(m, n, 1);
    assert |n.sh.written| == 1 && |n.sh.loaded| == 2 && !Fifo(n.sh);
    NotAlways(junk, todos, quotas, n);
  }

  lemma OneEachAlwaysFifo(capacity: nat)
    ensures AlwaysFifo(capacity, 1, 1)
  {
    hide Exec, Init, Fifo;
    forall junk: seq<Elem>, todos: seq<seq<Elem>>, quotas: seq<nat>, schedule: seq<Action>
      | 0 < |junk| == capacity <= SIZE_MAX && |todos| == 1 && |quotas| == 1 &&
        Exec(Init(junk, todos, quotas), schedule).Some?
      ensures Fifo(Exec(Init(junk, todos, quotas), schedule).value.sh)
    {
      assert todos == [todos[0]] && quotas == [quotas[0]];
      QueueSafe(junk, todos[0], quotas[0], schedule);
    }
  }

  // Whatever its capacity, the queue keeps its promise for all runs exactly when
  // one thread enqueues and one thread dequeues.
  lemma FifoIffOneThreadEach(capacity: nat, ne: nat, nd: nat)
    requires 0 < capacity <= SIZE_MAX && ne >= 1 && nd >= 1
    ensures AlwaysFifo(capacity, ne, nd) <==> ne == 1 && nd == 1
  {
    hide AlwaysFifo;
    if ne >= 2 {
      TwoEnqueuersOverwrite(capacity, ne, nd);
    } else if nd >= 2 {
      TwoDequeuersReadTooMuch(capacity, ne, nd);
    } else {
      OneEachAlwaysFifo(capacity);
    }
  }
}
