// What the size of the queue says with any number of threads at each end, and
// when a thread sleeps because of it.
module QueueCounts {
  import opened Prelude
  import opened QueueMachine

  // The thread has touched its slot and not yet counted it.
  predicate Uncounted(pc: Pc) {
    pc.Advance? || pc.LockSize? || pc.Count?
  }

  function EnqUncounted(es: seq<Enq>): nat {
    if es == [] then 0 else EnqUncounted(es[..|es| - 1]) + if Uncounted(es[|es| - 1].pc) then 1 else 0
  }

  function DeqUncounted(ds: seq<Deq>): nat {
    if ds == [] then 0 else DeqUncounted(ds[..|ds| - 1]) + if Uncounted(ds[|ds| - 1].pc) then 1 else 0
  }

  lemma {:induction false} EnqReplaced(es: seq<Enq>, i: nat, e: Enq)
    requires i < |es|
    ensures EnqUncounted(es[i := e]) - (if Uncounted(e.pc) then 1 else 0) ==
            EnqUncounted(es) - if Uncounted(es[i].pc) then 1 else 0
  {
    hide Uncounted;
    var most := es[..|es| - 1];
    if i == |es| - 1 {
      assert es[i := e][..|es| - 1] == most;
    } else {
      assert es[i := e][..|es| - 1] == most[i := e];
      EnqReplaced(most, i, e);
    }
  }

  lemma {:induction false} DeqReplaced(ds: seq<Deq>, j: nat, d: Deq)
    requires j < |ds|
    ensures DeqUncounted(ds[j := d]) - (if Uncounted(d.pc) then 1 else 0) ==
            DeqUncounted(ds) - if Uncounted(ds[j].pc) then 1 else 0
  {
    hide Uncounted;
    var most := ds[..|ds| - 1];
    if j == |ds| - 1 {
      assert ds[j := d][..|ds| - 1] == most;
    } else {
      assert ds[j := d][..|ds| - 1] == most[j := d];
      DeqReplaced(most, j, d);
    }
  }

  // The stores minus the loads that have been counted.
  function Counted(m: State): int {
    (|m.sh.written| - EnqUncounted(m.es)) - (|m.sh.loaded| - DeqUncounted(m.ds))
  }

  // A size_t of 64 bits that wraps around.
  ghost predicate SizeIsCounted(m: State) {
    m.sh.size == Counted(m) % 0x1_0000_0000_0000_0000
  }

  lemma EnqCounts(sh: Shared, e: Enq, me: Tid, pick: Tid)
    requires sh.capacity > 0 && sh.tail < |sh.buffer| && EnqStep(sh, e, me, pick).Some?
    ensures var (sh', e') := EnqStep(sh, e, me, pick).value;
            && sh'.loaded == sh.loaded
            && |sh'.written| == |sh.written| + (if e.pc.Touch? then 1 else 0)
            && sh'.size == (if e.pc.Count? then Inc(sh.size) else sh.size)
            && (if Uncounted(e'.pc) then 1 else 0) ==
               (if Uncounted(e.pc) then 1 else 0) + if e.pc.Touch? then 1 else if e.pc.Count? then -1 else 0
  {
    hide Next, Inc, Woken;
  }

  lemma DeqCounts(sh: Shared, d: Deq, me: Tid, pick: Tid)
    requires sh.capacity > 0 && sh.head < |sh.buffer| && DeqStep(sh, d, me, pick).Some?
    ensures var (sh', d') := DeqStep(sh, d, me, pick).value;
            && sh'.written == sh.written
            && |sh'.loaded| == |sh.loaded| + (if d.pc.Touch? then 1 else 0)
            && sh'.size == (if d.pc.Count? then Dec(sh.size) else sh.size)
            && (if Uncounted(d'.pc) then 1 else 0) ==
               (if Uncounted(d.pc) then 1 else 0) + if d.pc.Touch? then 1 else if d.pc.Count? then -1 else 0
  {
    hide Next, Dec, Woken;
  }

  lemma CountsWrap(n: nat, size: nat, counted: int)
    requires n == 0x1_0000_0000_0000_0000 && size == counted % n
    ensures Inc(size) == (counted + 1) % n && Dec(size) == (counted - 1) % n
  {
  }

  lemma StepCounts(m: State, act: Action, n: State)
    requires Shaped(m) && SizeIsCounted(m) && Step(m, act) == Some(n)
    ensures SizeIsCounted(n)
  {
    hide EnqStep, DeqStep, Uncounted, Inc, Dec;
    match act
    case Run(E(i), pick) =>
      EnqCounts(m.sh, m.es[i], E(i), pick);
      EnqReplaced(m.es, i, n.es[i]);
      CountsWrap(0x1_0000_0000_0000_0000, m.sh.size, Counted(m));
    case Run(D(j), pick) =>
      DeqCounts(m.sh, m.ds[j], D(j), pick);
      DeqReplaced(m.ds, j, n.ds[j]);
      CountsWrap(0x1_0000_0000_0000_0000, m.sh.size, Counted(m));
    case Spurious(_) =>
  }

  lemma {:induction false} RunCounts(m: State, schedule: seq<Action>)
    requires Shaped(m) && SizeIsCounted(m) && Exec(m, schedule).Some?
    ensures SizeIsCounted(Exec(m, schedule).value)
    decreases |schedule|
  {
    hide Step, SizeIsCounted;
    if schedule == [] {
    } else {
      StepCounts(m, schedule[0], Step(m, schedule[0]).value);
      RunCounts(Step(m, schedule[0]).value, schedule[1..]);
    }
  }

  lemma {:induction false} NoneUncounted(es: seq<Enq>, ds: seq<Deq>)
    requires forall i :: 0 <= i < |es| ==> es[i].pc.Idle?
    requires forall j :: 0 <= j < |ds| ==> ds[j].pc.Idle?
    ensures EnqUncounted(es) == 0 && DeqUncounted(ds) == 0
    decreases |es| + |ds|
  {
    if es != [] {
      NoneUncounted(es[..|es| - 1], ds);
    } else if ds != [] {
      NoneUncounted(es, ds[..|ds| - 1]);
    }
  }

  // For every number of threads, every capacity and every interleaving, the size is
  // the number of stores minus the number of loads that were counted, modulo 2 to
  // the 64: loading from an empty queue makes it as large as it can be.
  lemma SizeCounts(junk: seq<Elem>, todos: seq<seq<Elem>>, quotas: seq<nat>, schedule: seq<Action>)
    requires 0 < |junk| <= SIZE_MAX && Exec(Init(junk, todos, quotas), schedule).Some?
    ensures SizeIsCounted(Exec(Init(junk, todos, quotas), schedule).value)
  {
    hide Step;
    var m := Init(junk, todos, quotas);
    NoneUncounted(m.es, m.ds);
    RunCounts(m, schedule);
  }

  // An enqueuer goes to sleep exactly when it finds the queue full, a dequeuer
  // exactly when it finds it empty.
  lemma SleepsExactly(m: State, act: Action, n: State)
    requires Shaped(m) && Step(m, act) == Some(n) && act.Run?
    ensures act.t.E? && m.es[act.t.i].pc.Test? ==>
              n.es[act.t.i].pc == if m.sh.size == |m.sh.buffer| then Sleep else EndWait
    ensures act.t.E? && n.es[act.t.i].pc.Sleep? ==> m.es[act.t.i].pc.Test?
    ensures act.t.D? && m.ds[act.t.j].pc.Test? ==> n.ds[act.t.j].pc == if m.sh.size == 0 then Sleep else EndWait
    ensures act.t.D? && n.ds[act.t.j].pc.Sleep? ==> m.ds[act.t.j].pc.Test?
  {
    hide Next, Inc, Dec, Woken;
  }

  // Any sleeping thread may wake up without a signal, and then is the only one to
  // leave its condition variable.
  lemma SpuriousWakes(m: State, t: Tid)
    requires Shaped(m)
    ensures Step(m, Spurious(t)).Some? <==> t in m.sh.pushWaiters || t in m.sh.popWaiters
    ensures t in m.sh.pushWaiters && t !in m.sh.popWaiters ==>
              Step(m, Spurious(t)) == Some(m.(sh := m.sh.(pushWaiters := m.sh.pushWaiters - {t})))
    ensures t in m.sh.popWaiters && t !in m.sh.pushWaiters ==>
              Step(m, Spurious(t)) == Some(m.(sh := m.sh.(popWaiters := m.sh.popWaiters - {t})))
  {
  }
}
