// One enqueuer and one dequeuer always get on with their work: no deadlock, and
// a bound on the number of steps of any run.
module QueueLiveness {
  import opened Prelude
  import opened QueueMachine
  import opened QueueSafety

  // ---- no deadlock ----

  // Neither thread can take a step.
  ghost predicate Stuck(m: State)
    requires Shaped(m)
  {
    Step(m, Run(E0, D0)) == None && Step(m, Run(D0, E0)) == None
  }

  // The pick is forced, so that one pick stands for all.
  lemma PickForced(m: State, pick: Tid, input: seq<Elem>, quota: nat)
    requires Inv(m, input, quota)
    ensures Step(m, Run(E0, pick)).Some? ==> Step(m, Run(E0, D0)) == Step(m, Run(E0, pick))
    ensures Step(m, Run(D0, pick)).Some? ==> Step(m, Run(D0, E0)) == Step(m, Run(D0, pick))
  {
    hide CountInv, SlotInv, WorkInv, LockInv;
  }

  // An enqueuer that cannot move has finished, or sleeps, or waits for a mutex
  // that the dequeuer holds.
  lemma EnqueuerBlocked(m: State, input: seq<Elem>, quota: nat)
    requires Inv(m, input, quota) && Step(m, Run(E0, D0)) == None
    ensures var e := m.es[0];
            || (e.pc.Idle? && e.todo == [])
            || E0 in m.sh.pushWaiters
            || HoldsOwn(m.ds[0].pc) || HoldsPeer(m.ds[0].pc) || HoldsSize(m.ds[0].pc)
  {
    hide CountInv, SlotInv;
  }

  lemma DequeuerBlocked(m: State, input: seq<Elem>, quota: nat)
    requires Inv(m, input, quota) && Step(m, Run(D0, E0)) == None
    ensures var d := m.ds[0];
            && (|| (d.pc.Idle? && d.quota == 0)
                || D0 in m.sh.popWaiters
                || HoldsOwn(m.es[0].pc) || HoldsPeer(m.es[0].pc) || HoldsSize(m.es[0].pc))
            && !HoldsOwn(d.pc) && !HoldsPeer(d.pc) && !HoldsSize(d.pc)
  {
    hide CountInv, SlotInv;
  }

  lemma HolderMoves(m: State, input: seq<Elem>, quota: nat)
    requires Inv(m, input, quota) && Step(m, Run(E0, D0)) == None
    ensures var e := m.es[0].pc; !HoldsOwn(e) && !HoldsPeer(e) && !HoldsSize(e)
  {
    hide CountInv, SlotInv, LockInv;
  }

  // If nothing can move, every element that was both supplied and asked for has
  // been delivered, in order: a thread that is still asleep has nothing to do.
  lemma StuckMeansDone(m: State, input: seq<Elem>, quota: nat)
    requires Inv(m, input, quota) && Stuck(m)
    ensures m.ds[0].returned == input[..if quota <= |input| then quota else |input|]
    ensures quota >= |input| ==> m.es[0].todo == []
  {
    EnqueuerBlocked(m, input, quota);
    DequeuerBlocked(m, input, quota);
    HolderMoves(m, input, quota);
    hide LockInv, Stuck, SlotOf;
    Delivered(m, input, quota);
  }

  lemma Delivered(m: State, input: seq<Elem>, quota: nat)
    requires Shaped(m) && OneEach(m) && CountInv(m) && SlotInv(m) && WorkInv(m, input, quota) && WakeInv(m)
    requires (m.es[0].pc.Idle? && m.es[0].todo == []) || E0 in m.sh.pushWaiters
    requires (m.ds[0].pc.Idle? && m.ds[0].quota == 0) || D0 in m.sh.popWaiters
    ensures m.ds[0].returned == input[..if quota <= |input| then quota else |input|]
    ensures quota >= |input| ==> m.es[0].todo == []
  {
    hide SlotOf;
    assert m.ds[0].returned == input[..|m.ds[0].returned|];
  }

  // Deadlock freedom for the balanced case: if n elements are enqueued and n
  // dequeues are made, some thread can always move until all n are delivered.
  lemma NoDeadlock(junk: seq<Elem>, input: seq<Elem>, schedule: seq<Action>)
    requires 0 < |junk| <= SIZE_MAX && Exec(Init(junk, [input], [|input|]), schedule).Some?
    ensures var m := Exec(Init(junk, [input], [|input|]), schedule).value;
            Stuck(m) ==> OneEach(m) && m.ds[0].returned == input && m.es[0].todo == []
  {
    hide Exec, Init, Stuck, Inv, Step;
    InitInv(junk, input, |input|);
    RunKept(Init(junk, [input], [|input|]), schedule, input, |input|);
    var m := Exec(Init(junk, [input], [|input|]), schedule).value;
    InvShaped(m, input, |input|);
    if Stuck(m) {
      StuckMeansDone(m, input, |input|);
      assert input[..|input|] == input;
    }
  }

  // ---- bounded runs ----

  // Steps still to take in the current call. A sleeping thread that is woken may
  // test in vain and sleep again: 3 steps, paid for by the signal that woke it.
  function Rank(pc: Pc, asleep: bool): nat {
    match pc
    case Idle => 0
    case Waiting => if asleep then 13 else 16
    case Test => 15
    case Sleep => 14
    case EndWait => 14
    case LockEnd => 13
    case Touch => 12
    case Advance => 11
    case LockSize => 10
    case Count => 9
    case UnlockSize => 8
    case UnlockEnd => 7
    case LockPeer => 6
    case Signal => 5
    case UnlockPeer => 1
  }

  function Calls(pc: Pc, left: nat): nat {
    if pc.Idle? || left == 0 then left else left - 1
  }

  // What the two threads can still spend.
  ghost function Potential(m: State): nat
    requires OneEach(m)
  {
    var e, d := m.es[0], m.ds[0];
    16 * Calls(e.pc, |e.todo|) + Rank(e.pc, E0 in m.sh.pushWaiters) +
    16 * Calls(d.pc, d.quota) + Rank(d.pc, D0 in m.sh.popWaiters)
  }

  lemma EnqPays(m: State, pick: Tid, n: State, input: seq<Elem>, quota: nat)
    requires Inv(m, input, quota) && EnqSteps(m, pick, n)
    ensures OneEach(n) && Potential(n) < Potential(m)
  {
    hide CountInv, SlotInv, LockInv;
  }

  lemma DeqPays(m: State, pick: Tid, n: State, input: seq<Elem>, quota: nat)
    requires Inv(m, input, quota) && DeqSteps(m, pick, n)
    ensures OneEach(n) && Potential(n) < Potential(m)
  {
    hide CountInv, SlotInv, LockInv;
  }

  lemma SpuriousCosts(m: State, t: Tid, n: State, input: seq<Elem>, quota: nat)
    requires Inv(m, input, quota) && Step(m, Spurious(t)) == Some(n)
    ensures OneEach(n) && Potential(n) == Potential(m) + 3
  {
    hide CountInv, SlotInv, WorkInv, LockInv;
  }

  function SpuriousCount(schedule: seq<Action>): nat {
    if schedule == [] then 0
    else (if schedule[0].Spurious? then 1 else 0) + SpuriousCount(schedule[1..])
  }

  lemma {:induction false} RunPays(m: State, schedule: seq<Action>, input: seq<Elem>, quota: nat)
    requires Inv(m, input, quota) && Exec(m, schedule).Some?
    ensures OneEach(m) && OneEach(Exec(m, schedule).value)
    ensures |schedule| + Potential(Exec(m, schedule).value) <= Potential(m) + 4 * SpuriousCount(schedule)
    decreases |schedule|
  {
    InvShaped(m, input, quota);
    hide Inv, Step, Potential;
    if schedule == [] {
    } else {
      var act := schedule[0];
      var n := Step(m, act).value;
      StepPays(m, act, n, input, quota);
      StepKept(m, act, n, input, quota);
      RunPays(n, schedule[1..], input, quota);
    }
  }

  lemma StepPays(m: State, act: Action, n: State, input: seq<Elem>, quota: nat)
    requires Inv(m, input, quota) && Step(m, act) == Some(n)
    ensures OneEach(m) && OneEach(n)
    ensures 1 + Potential(n) <= Potential(m) + if act.Spurious? then 4 else 0
  {
    hide CountInv, SlotInv, WorkInv, LockInv, WakeInv, EnqStep, DeqStep, Potential;
    match act
    case Run(E(i), pick) =>
      assert EnqSteps(m, pick, n);
      EnqPays(m, pick, n, input, quota);
    case Run(D(j), pick) =>
      assert DeqSteps(m, pick, n);
      DeqPays(m, pick, n, input, quota);
    case Spurious(t) =>
      SpuriousCosts(m, t, n, input, quota);
  }

  // Every run of n enqueues and q dequeues takes at most 16 (n + q) steps, plus 4
  // for each spurious wake-up.
  lemma {:induction false} BoundedRuns(junk: seq<Elem>, input: seq<Elem>, quota: nat, schedule: seq<Action>)
    requires 0 < |junk| <= SIZE_MAX && Exec(Init(junk, [input], [quota]), schedule).Some?
    ensures |schedule| <= 16 * (|input| + quota) + 4 * SpuriousCount(schedule)
  {
    hide Exec, Inv;
    InitInv(junk, input, quota);
    RunPays(Init(junk, [input], [quota]), schedule, input, quota);
  }

  // ---- every run ends, with everything delivered ----

  // No step of any thread is possible.
  ghost predicate Maximal(m: State)
    requires Shaped(m)
  {
    forall t, pick :: Step(m, Run(t, pick)) == None
  }

  // Every maximal run of n enqueues and n dequeues without spurious wake-ups has at
  // most 32 n steps and has returned the input.
  lemma MaximalRuns(junk: seq<Elem>, input: seq<Elem>, schedule: seq<Action>)
    requires 0 < |junk| <= SIZE_MAX && SpuriousCount(schedule) == 0
    requires Exec(Init(junk, [input], [|input|]), schedule).Some?
    requires Maximal(Exec(Init(junk, [input], [|input|]), schedule).value)
    ensures |schedule| <= 32 * |input|
    ensures var m := Exec(Init(junk, [input], [|input|]), schedule).value;
            OneEach(m) && m.ds[0].returned == input && m.es[0].todo == []
  {
    hide Exec, Init, Inv, Step;
    BoundedRuns(junk, input, |input|, schedule);
    NoDeadlock(junk, input, schedule);
  }

  // There is no way not to get there: every run without spurious wake-ups can be
  // continued, and every continuation that goes on as long as it can ends so.
  lemma {:induction false} RunsComplete(junk: seq<Elem>, input: seq<Elem>, schedule: seq<Action>)
    returns (more: seq<Action>)
    requires 0 < |junk| <= SIZE_MAX && SpuriousCount(schedule) == 0
    requires Exec(Init(junk, [input], [|input|]), schedule).Some?
    ensures SpuriousCount(schedule + more) == 0 && |schedule + more| <= 32 * |input|
    ensures Exec(Init(junk, [input], [|input|]), schedule + more).Some?
    ensures var m := Exec(Init(junk, [input], [|input|]), schedule + more).value;
            Maximal(m) && OneEach(m) && m.ds[0].returned == input && m.es[0].todo == []
    decreases 32 * |input| - |schedule|
  {
    hide Exec, Init, Inv, Step, Maximal;
    var start := Init(junk, [input], [|input|]);
    var m := Exec(start, schedule).value;
    if Maximal(m) {
      assert schedule + [] == schedule;
      MaximalRuns(junk, input, schedule);
      more := [];
    } else {
      var act := CanStep(m);
      ExecOneMore(start, schedule, act);
      SpuriousOneMore(schedule, act);
      BoundedRuns(junk, input, |input|, schedule + [act]);
      var rest := RunsComplete(junk, input, schedule + [act]);
      more := [act] + rest;
      assert schedule + more == schedule + [act] + rest;
    }
  }

  lemma CanStep(m: State) returns (act: Action)
    requires Shaped(m) && !Maximal(m)
    ensures act.Run? && Step(m, act).Some?
  {
    var t, pick :| Step(m, Run(t, pick)) != None;
    act := Run(t, pick);
  }

  lemma {:induction false} SpuriousOneMore(schedule: seq<Action>, act: Action)
    requires act.Run?
    ensures SpuriousCount(schedule + [act]) == SpuriousCount(schedule)
  {
    if schedule == [] {
      assert [] + [act] == [act] && [act][1..] == [];
    } else {
      assert (schedule + [act])[1..] == schedule[1..] + [act];
      SpuriousOneMore(schedule[1..], act);
    }
  }
}
