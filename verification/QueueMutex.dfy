// Mutual exclusion with any number of threads at each end: a mutex is held by the
// one thread that stands between its lock and its unlock, in every interleaving.
module QueueMutex {
  import opened Prelude
  import opened QueueMachine
  import opened QueueSafety

  // pcq_pusher_condvar_lock
  ghost predicate PushHeld(m: State) {
    && (forall i :: 0 <= i < |m.es| ==> (HoldsOwn(m.es[i].pc) <==> m.sh.pushLock == Some(E(i))))
    && (forall j :: 0 <= j < |m.ds| ==> (HoldsPeer(m.ds[j].pc) <==> m.sh.pushLock == Some(D(j))))
  }

  // pcq_popper_condvar_lock
  ghost predicate PopHeld(m: State) {
    && (forall i :: 0 <= i < |m.es| ==> (HoldsPeer(m.es[i].pc) <==> m.sh.popLock == Some(E(i))))
    && (forall j :: 0 <= j < |m.ds| ==> (HoldsOwn(m.ds[j].pc) <==> m.sh.popLock == Some(D(j))))
  }

  // pcq_current_size_lock
  ghost predicate SizeHeld(m: State) {
    && (forall i :: 0 <= i < |m.es| ==> (HoldsSize(m.es[i].pc) <==> m.sh.sizeLock == Some(E(i))))
    && (forall j :: 0 <= j < |m.ds| ==> (HoldsSize(m.ds[j].pc) <==> m.sh.sizeLock == Some(D(j))))
  }

  // pcq_tail_lock, which no dequeuer takes
  ghost predicate TailHeld(m: State) {
    && (forall i :: 0 <= i < |m.es| ==> (HoldsEnd(m.es[i].pc) <==> m.sh.tailLock == Some(E(i))))
    && (forall j: nat :: m.sh.tailLock != Some(D(j)))
  }

  // pcq_head_lock, which no enqueuer takes
  ghost predicate HeadHeld(m: State) {
    && (forall j :: 0 <= j < |m.ds| ==> (HoldsEnd(m.ds[j].pc) <==> m.sh.headLock == Some(D(j))))
    && (forall i: nat :: m.sh.headLock != Some(E(i)))
  }

  ghost predicate AllHeld(m: State) {
    PushHeld(m) && PopHeld(m) && SizeHeld(m) && TailHeld(m) && HeadHeld(m)
  }

  // A mutex that `me` held exactly if `held`, and now holds exactly if `holds`, and
  // that nobody else took or released.
  predicate Passes(before: Option<Tid>, after: Option<Tid>, me: Tid, held: bool, holds: bool) {
    (held <==> before == Some(me)) ==>
      && (holds <==> after == Some(me))
      && (after == before || (before == None && after == Some(me)) || (before == Some(me) && after == None))
  }

  // One statement of an enqueuer, mutex by mutex.
  lemma EnqOwn(sh: Shared, e: Enq, me: Tid, pick: Tid)
    requires sh.capacity > 0 && sh.tail < |sh.buffer| && EnqStep(sh, e, me, pick).Some?
    ensures var (sh', e') := EnqStep(sh, e, me, pick).value;
            Passes(sh.pushLock, sh'.pushLock, me, HoldsOwn(e.pc), HoldsOwn(e'.pc))
  {
    hide Next, Inc, Dec, Woken;
  }

  lemma EnqPeer(sh: Shared, e: Enq, me: Tid, pick: Tid)
    requires sh.capacity > 0 && sh.tail < |sh.buffer| && EnqStep(sh, e, me, pick).Some?
    ensures var (sh', e') := EnqStep(sh, e, me, pick).value;
            Passes(sh.popLock, sh'.popLock, me, HoldsPeer(e.pc), HoldsPeer(e'.pc))
  {
    hide Next, Inc, Dec, Woken;
  }

  lemma EnqSize(sh: Shared, e: Enq, me: Tid, pick: Tid)
    requires sh.capacity > 0 && sh.tail < |sh.buffer| && EnqStep(sh, e, me, pick).Some?
    ensures var (sh', e') := EnqStep(sh, e, me, pick).value;
            Passes(sh.sizeLock, sh'.sizeLock, me, HoldsSize(e.pc), HoldsSize(e'.pc))
  {
    hide Next, Inc, Dec, Woken;
  }

  lemma EnqEnd(sh: Shared, e: Enq, me: Tid, pick: Tid)
    requires sh.capacity > 0 && sh.tail < |sh.buffer| && EnqStep(sh, e, me, pick).Some?
    ensures var (sh', e') := EnqStep(sh, e, me, pick).value;
            && Passes(sh.tailLock, sh'.tailLock, me, HoldsEnd(e.pc), HoldsEnd(e'.pc))
            && sh'.headLock == sh.headLock
  {
    hide Next, Inc, Dec, Woken;
  }

  // One statement of a dequeuer, mutex by mutex.
  lemma DeqOwn(sh: Shared, d: Deq, me: Tid, pick: Tid)
    requires sh.capacity > 0 && sh.head < |sh.buffer| && DeqStep(sh, d, me, pick).Some?
    ensures var (sh', d') := DeqStep(sh, d, me, pick).value;
            Passes(sh.popLock, sh'.popLock, me, HoldsOwn(d.pc), HoldsOwn(d'.pc))
  {
    hide Next, Inc, Dec, Woken;
  }

  lemma DeqPeer(sh: Shared, d: Deq, me: Tid, pick: Tid)
    requires sh.capacity > 0 && sh.head < |sh.buffer| && DeqStep(sh, d, me, pick).Some?
    ensures var (sh', d') := DeqStep(sh, d, me, pick).value;
            Passes(sh.pushLock, sh'.pushLock, me, HoldsPeer(d.pc), HoldsPeer(d'.pc))
  {
    hide Next, Inc, Dec, Woken;
  }

  lemma DeqSize(sh: Shared, d: Deq, me: Tid, pick: Tid)
    requires sh.capacity > 0 && sh.head < |sh.buffer| && DeqStep(sh, d, me, pick).Some?
    ensures var (sh', d') := DeqStep(sh, d, me, pick).value;
            Passes(sh.sizeLock, sh'.sizeLock, me, HoldsSize(d.pc), HoldsSize(d'.pc))
  {
    hide Next, Inc, Dec, Woken;
  }

  lemma DeqEnd(sh: Shared, d: Deq, me: Tid, pick: Tid)
    requires sh.capacity > 0 && sh.head < |sh.buffer| && DeqStep(sh, d, me, pick).Some?
    ensures var (sh', d') := DeqStep(sh, d, me, pick).value;
            && Passes(sh.headLock, sh'.headLock, me, HoldsEnd(d.pc), HoldsEnd(d'.pc))
            && sh'.tailLock == sh.tailLock
  {
    hide Next, Inc, Dec, Woken;
  }

  // What a step of the machine is for the thread that takes it.
  lemma StepIs(m: State, act: Action, n: State)
    requires Shaped(m) && Step(m, act) == Some(n)
    ensures act.Run? && act.t.E? ==>
              && act.t.i < |m.es| == |n.es| && n.ds == m.ds && n.es == m.es[act.t.i := n.es[act.t.i]]
              && EnqStep(m.sh, m.es[act.t.i], act.t, act.pick) == Some((n.sh, n.es[act.t.i]))
    ensures act.Run? && act.t.D? ==>
              && act.t.j < |m.ds| == |n.ds| && n.es == m.es && n.ds == m.ds[act.t.j := n.ds[act.t.j]]
              && DeqStep(m.sh, m.ds[act.t.j], act.t, act.pick) == Some((n.sh, n.ds[act.t.j]))
    ensures act.Spurious? ==>
              && n.es == m.es && n.ds == m.ds
              && n.sh == m.sh.(pushWaiters := n.sh.pushWaiters, popWaiters := n.sh.popWaiters)
  {
    hide EnqStep, DeqStep;
  }

  lemma EnqKept(m: State, i: nat, pick: Tid, n: State)
    requires Shaped(m) && AllHeld(m) && Step(m, Run(E(i), pick)) == Some(n)
    ensures AllHeld(n)
  {
    hide Step, EnqStep, DeqStep, HoldsOwn, HoldsPeer, HoldsSize, HoldsEnd;
    StepIs(m, Run(E(i), pick), n);
    EnqOwn(m.sh, m.es[i], E(i), pick);
    EnqPeer(m.sh, m.es[i], E(i), pick);
    EnqSize(m.sh, m.es[i], E(i), pick);
    EnqEnd(m.sh, m.es[i], E(i), pick);
  }

  lemma DeqKept(m: State, j: nat, pick: Tid, n: State)
    requires Shaped(m) && AllHeld(m) && Step(m, Run(D(j), pick)) == Some(n)
    ensures AllHeld(n)
  {
    hide Step, EnqStep, DeqStep, HoldsOwn, HoldsPeer, HoldsSize, HoldsEnd;
    StepIs(m, Run(D(j), pick), n);
    DeqOwn(m.sh, m.ds[j], D(j), pick);
    DeqPeer(m.sh, m.ds[j], D(j), pick);
    DeqSize(m.sh, m.ds[j], D(j), pick);
    DeqEnd(m.sh, m.ds[j], D(j), pick);
  }

  lemma HeldKept(m: State, act: Action, n: State)
    requires Shaped(m) && AllHeld(m) && Step(m, act) == Some(n)
    ensures AllHeld(n)
  {
    hide Step, HoldsOwn, HoldsPeer, HoldsSize, HoldsEnd;
    match act
    case Run(E(i), pick) => EnqKept(m, i, pick, n);
    case Run(D(j), pick) => DeqKept(m, j, pick, n);
    case Spurious(_) => StepIs(m, act, n);
  }

  lemma {:induction false} RunHeld(m: State, schedule: seq<Action>)
    requires Shaped(m) && AllHeld(m) && Exec(m, schedule).Some?
    ensures AllHeld(Exec(m, schedule).value)
    decreases |schedule|
  {
    hide Step, AllHeld;
    if schedule == [] {
    } else {
      HeldKept(m, schedule[0], Step(m, schedule[0]).value);
      RunHeld(Step(m, schedule[0]).value, schedule[1..]);
    }
  }

  // No two threads are in the critical sections of the same mutex.
  ghost predicate Exclusive(m: State) {
    && (forall i, k :: 0 <= i < k < |m.es| ==>
          && !(HoldsOwn(m.es[i].pc) && HoldsOwn(m.es[k].pc)) && !(HoldsPeer(m.es[i].pc) && HoldsPeer(m.es[k].pc))
          && !(HoldsEnd(m.es[i].pc) && HoldsEnd(m.es[k].pc)) && !(HoldsSize(m.es[i].pc) && HoldsSize(m.es[k].pc)))
    && (forall j, k :: 0 <= j < k < |m.ds| ==>
          && !(HoldsOwn(m.ds[j].pc) && HoldsOwn(m.ds[k].pc)) && !(HoldsPeer(m.ds[j].pc) && HoldsPeer(m.ds[k].pc))
          && !(HoldsEnd(m.ds[j].pc) && HoldsEnd(m.ds[k].pc)) && !(HoldsSize(m.ds[j].pc) && HoldsSize(m.ds[k].pc)))
    && (forall i, j :: 0 <= i < |m.es| && 0 <= j < |m.ds| ==>
          && !(HoldsOwn(m.es[i].pc) && HoldsPeer(m.ds[j].pc)) && !(HoldsPeer(m.es[i].pc) && HoldsOwn(m.ds[j].pc))
          && !(HoldsSize(m.es[i].pc) && HoldsSize(m.ds[j].pc)))
  }

  // For every number of threads, every capacity and every interleaving with
  // spurious wake-ups: each mutex is held by the thread between its lock and its
  // unlock, and there is at most one.
  lemma MutualExclusion(junk: seq<Elem>, todos: seq<seq<Elem>>, quotas: seq<nat>, schedule: seq<Action>)
    requires 0 < |junk| <= SIZE_MAX && Exec(Init(junk, todos, quotas), schedule).Some?
    ensures AllHeld(Exec(Init(junk, todos, quotas), schedule).value)
    ensures Exclusive(Exec(Init(junk, todos, quotas), schedule).value)
  {
    hide Step;
    RunHeld(Init(junk, todos, quotas), schedule);
    HeldIsExclusive(Exec(Init(junk, todos, quotas), schedule).value);
  }

  lemma HeldIsExclusive(m: State)
    requires AllHeld(m)
    ensures Exclusive(m)
  {
    hide HoldsOwn, HoldsPeer, HoldsEnd, HoldsSize;
  }

  // pthread_cond_signal wakes one sleeping thread of the other side, whichever it
  // picks, or none if none sleeps; no other step but a spurious wake-up wakes any.
  lemma SignalWakesOne(m: State, act: Action, n: State)
    requires Shaped(m) && Step(m, act) == Some(n)
    ensures Woke(m.sh.popWaiters, n.sh.popWaiters, act, act.Run? && act.t.E? && m.es[act.t.i].pc.Signal?,
                 act.Run? && act.t.D? && m.ds[act.t.j].pc.Sleep?)
    ensures Woke(m.sh.pushWaiters, n.sh.pushWaiters, act, act.Run? && act.t.D? && m.ds[act.t.j].pc.Signal?,
                 act.Run? && act.t.E? && m.es[act.t.i].pc.Sleep?)
  {
    hide Next;
  }

  ghost predicate Woke(before: set<Tid>, after: set<Tid>, act: Action, signals: bool, sleeps: bool) {
    match act
    case Run(t, pick) =>
      if sleeps then after == before + {t}
      else if signals && before != {} then pick in before && after == before - {pick}
      else after == before
    case Spurious(t) => after == before || (t in before && after == before - {t})
  }
}
