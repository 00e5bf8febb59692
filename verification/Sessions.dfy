// Publisher sessions: register_publisher_command and remove_publisher_command,
// each one critical section of box_list_mutex.
module Sessions {
  import opened Prelude
  import opened Bytes

  // publisher_named_pipe of every box; None is the null pointer.
  type Registry = map<CString, Option<CString>>

  datatype Command = Register(pipe: CString, box: CString) | Remove(pipe: CString, box: CString)

  // strcmp with a null pointer is Wild.
  function Perform(reg: Registry, c: Command): Outcome<(Registry, int)> {
    if c.box !in reg then Done((reg, -1))
    else
      match c
      case Register(pipe, box) =>
        if reg[box].Some? then Done((reg, -1)) else Done((reg[box := Some(pipe)], 0))
      case Remove(pipe, box) =>
        if reg[box].None? then Wild
        else if reg[box].value != pipe then Done((reg, -1))
        else Done((reg[box := None], 0))
  }

  // The registry after a run, and what each command of it returned.
  function PerformAll(reg: Registry, cs: seq<Command>): (r: Outcome<(Registry, seq<int>)>)
    ensures r.Done? ==> |r.value.1| == |cs|
    decreases |cs|
  {
    if cs == [] then Done((reg, []))
    else
      var (mid, code) :- Perform(reg, cs[0]);
      var (end, codes) :- PerformAll(mid, cs[1..]);
      Done((end, [code] + codes))
  }

  ghost predicate Succeeds(reg: Registry, cs: seq<Command>, k: int, c: Command) {
    PerformAll(reg, cs).Done? && 0 <= k < |cs| && cs[k] == c && PerformAll(reg, cs).value.1[k] == 0
  }

  lemma Tail(reg: Registry, cs: seq<Command>)
    requires cs != [] && PerformAll(reg, cs).Done?
    ensures Perform(reg, cs[0]).Done? && PerformAll(Perform(reg, cs[0]).value.0, cs[1..]).Done?
    ensures PerformAll(reg, cs).value ==
            (PerformAll(Perform(reg, cs[0]).value.0, cs[1..]).value.0,
             [Perform(reg, cs[0]).value.1] + PerformAll(Perform(reg, cs[0]).value.0, cs[1..]).value.1)
    ensures forall k, c :: k > 0 ==>
              (Succeeds(reg, cs, k, c) <==> Succeeds(Perform(reg, cs[0]).value.0, cs[1..], k - 1, c))
  {
    hide Perform;
    var mid := Perform(reg, cs[0]).value.0;
    assert PerformAll(reg, cs).value.1 == [Perform(reg, cs[0]).value.1] + PerformAll(mid, cs[1..]).value.1;
    forall k, c | k > 0 ensures Succeeds(reg, cs, k, c) <==> Succeeds(mid, cs[1..], k - 1, c) {
      if k < |cs| {
        assert PerformAll(reg, cs).value.1[k] == PerformAll(mid, cs[1..]).value.1[k - 1];
      }
    }
  }

  // While pipe p is registered, a registration of the box can succeed only after
  // p was removed by name.
  lemma {:induction false} HeldUntilRemoved(reg: Registry, cs: seq<Command>, p: CString, q: CString,
                                            box: CString, j: nat)
    requires box in reg && reg[box] == Some(p) && Succeeds(reg, cs, j, Register(q, box))
    ensures exists k :: 0 <= k < j && Succeeds(reg, cs, k, Remove(p, box))
    decreases |cs|
  {
    Tail(reg, cs);
    var mid := Perform(reg, cs[0]).value.0;
    if cs[0] == Remove(p, box) {
      assert Succeeds(reg, cs, 0, Remove(p, box));
    } else {
      HeldUntilRemoved(mid, cs[1..], p, q, box, j - 1);
      var k :| 0 <= k < j - 1 && Succeeds(mid, cs[1..], k, Remove(p, box));
      assert Succeeds(reg, cs, k + 1, Remove(p, box));
    }
  }

  // Publisher exclusion: between two successful registrations on a box there is a
  // successful removal that names the first one's pipe.
  lemma {:induction false} Exclusion(reg: Registry, cs: seq<Command>, p: CString, q: CString,
                                     box: CString, i: nat, j: nat)
    requires i < j && Succeeds(reg, cs, i, Register(p, box)) && Succeeds(reg, cs, j, Register(q, box))
    ensures exists k :: i < k < j && Succeeds(reg, cs, k, Remove(p, box))
    decreases |cs|
  {
    Tail(reg, cs);
    var mid := Perform(reg, cs[0]).value.0;
    if i == 0 {
      HeldUntilRemoved(mid, cs[1..], p, q, box, j - 1);
      var k :| 0 <= k < j - 1 && Succeeds(mid, cs[1..], k, Remove(p, box));
      assert Succeeds(reg, cs, k + 1, Remove(p, box));
    } else {
      Exclusion(mid, cs[1..], p, q, box, i - 1, j - 1);
      var k :| i - 1 < k < j - 1 && Succeeds(mid, cs[1..], k, Remove(p, box));
      assert Succeeds(reg, cs, k + 1, Remove(p, box));
    }
  }

  // Pipe p has a session on the box after the run: registered and not removed.
  ghost predicate OpenSession(reg: Registry, cs: seq<Command>, p: CString, box: CString)
    requires box in reg
  {
    || (reg[box] == Some(p) && forall m :: !Succeeds(reg, cs, m, Remove(p, box)))
    || exists k :: Succeeds(reg, cs, k, Register(p, box)) && forall m :: m > k ==> !Succeeds(reg, cs, m, Remove(p, box))
  }

  // After any run, the name stored in a box is that of the one open session.
  lemma {:induction false} StoredNameIsOpenSession(reg: Registry, cs: seq<Command>, p: CString, box: CString)
    requires PerformAll(reg, cs).Done? && box in reg
    ensures box in PerformAll(reg, cs).value.0
    ensures PerformAll(reg, cs).value.0[box] == Some(p) <==> OpenSession(reg, cs, p, box)
    decreases |cs|
  {
    if cs == [] {
    } else {
      Tail(reg, cs);
      var mid := Perform(reg, cs[0]).value.0;
      StoredNameIsOpenSession(mid, cs[1..], p, box);
      SessionShift(reg, cs, p, box);
    }
  }

  lemma SessionShift(reg: Registry, cs: seq<Command>, p: CString, box: CString)
    requires cs != [] && PerformAll(reg, cs).Done? && box in reg
    ensures Perform(reg, cs[0]).Done? && box in Perform(reg, cs[0]).value.0
    ensures OpenSession(reg, cs, p, box) <==> OpenSession(Perform(reg, cs[0]).value.0, cs[1..], p, box)
  {
    Tail(reg, cs);
    var mid, rest := Perform(reg, cs[0]).value.0, cs[1..];
    var removed, registered := Remove(p, box), Register(p, box);
    assert forall m :: Succeeds(mid, rest, m, removed) ==> Succeeds(reg, cs, m + 1, removed);
    if mid[box] == Some(p) && forall m :: !Succeeds(mid, rest, m, removed) {
      if reg[box] != Some(p) {
        assert Succeeds(reg, cs, 0, registered);
      }
      assert OpenSession(reg, cs, p, box);
    }
    if k :| Succeeds(mid, rest, k, registered) && forall m :: m > k ==> !Succeeds(mid, rest, m, removed) {
      assert Succeeds(reg, cs, k + 1, registered);
      assert OpenSession(reg, cs, p, box);
    }
    if reg[box] == Some(p) && forall m :: !Succeeds(reg, cs, m, removed) {
      assert !Succeeds(reg, cs, 0, removed);
      assert mid[box] == Some(p);
    }
    if k :| Succeeds(reg, cs, k, registered) && forall m :: m > k ==> !Succeeds(reg, cs, m, removed) {
      if k > 0 {
        assert Succeeds(mid, rest, k - 1, registered);
      }
    }
  }

  // A run crashes exactly where it removes a publisher from a box that has none.
  lemma {:induction false} CrashExact(reg: Registry, cs: seq<Command>)
    ensures PerformAll(reg, cs).Done? || PerformAll(reg, cs) == Wild
    ensures PerformAll(reg, cs) == Wild <==> exists k :: CrashesAt(reg, cs, k)
    decreases |cs|
  {
    if cs == [] {
    } else {
      var first := Perform(reg, cs[0]);
      if !first.Done? {
        assert cs[..0] == [];
        assert CrashesAt(reg, cs, 0);
      } else {
        var mid := first.value.0;
        CrashExact(mid, cs[1..]);
        forall k | k > 0 ensures CrashesAt(reg, cs, k) <==> CrashesAt(mid, cs[1..], k - 1) {
          if k < |cs| {
            assert cs[..k][1..] == cs[1..][..k - 1];
          }
        }
        assert forall k :: CrashesAt(mid, cs[1..], k) ==> CrashesAt(reg, cs, k + 1);
      }
    }
  }

  ghost predicate CrashesAt(reg: Registry, cs: seq<Command>, k: int) {
    && 0 <= k < |cs| && cs[k].Remove? && PerformAll(reg, cs[..k]).Done?
    && var now := PerformAll(reg, cs[..k]).value.0;
       cs[k].box in now && now[cs[k].box].None?
  }

  // A registration succeeds exactly when the box exists and no pipe has a session
  // on it at that moment.
  lemma RegisterExact(reg: Registry, cs: seq<Command>, k: nat, p: CString, box: CString)
    requires PerformAll(reg, cs).Done? && k < |cs| && cs[k] == Register(p, box)
    ensures PerformAll(reg, cs[..k]).Done?
    ensures Succeeds(reg, cs, k, Register(p, box)) <==>
            box in reg && forall q :: !OpenSession(reg, cs[..k], q, box)
  {
    PrefixRuns(reg, cs, k);
    if box in reg {
      forall q ensures PerformAll(reg, cs[..k]).value.0[box] == Some(q) <==> OpenSession(reg, cs[..k], q, box) {
        StoredNameIsOpenSession(reg, cs[..k], q, box);
      }
      StoredNameIsOpenSession(reg, cs[..k], p, box);
      if PerformAll(reg, cs[..k]).value.0[box].Some? {
        assert OpenSession(reg, cs[..k], PerformAll(reg, cs[..k]).value.0[box].value, box);
      }
    }
  }

  lemma {:induction false} PrefixRuns(reg: Registry, cs: seq<Command>, k: nat)
    requires PerformAll(reg, cs).Done? && k < |cs|
    ensures PerformAll(reg, cs[..k]).Done? && PerformAll(reg, cs[..k]).value.0.Keys == reg.Keys
    ensures Perform(PerformAll(reg, cs[..k]).value.0, cs[k]).Done?
    ensures PerformAll(reg, cs).value.1[k] == Perform(PerformAll(reg, cs[..k]).value.0, cs[k]).value.1
    decreases |cs|
  {
    Tail(reg, cs);
    if k == 0 {
      assert cs[..0] == [];
    } else {
      var mid := Perform(reg, cs[0]).value.0;
      PrefixRuns(mid, cs[1..], k - 1);
      assert cs[..k][0] == cs[0] && cs[..k][1..] == cs[1..][..k - 1];
      assert mid.Keys == reg.Keys;
    }
  }
}
