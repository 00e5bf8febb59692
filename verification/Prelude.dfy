// Shared small datatypes and facts about finite sets and maps.
module Prelude {

  datatype Option<+T> = None | Some(value: T) {
    function UnwrapOr(default: T): T {
      if this.Some? then value else default
    }
  }

  // How a C call ends. `Panic` is ALWAYS_ASSERT ending the process, `Wild` an
  // access outside the memory the callee owns (undefined in C), `Blocked` a wait
  // on a mutex that nobody will ever release.
  datatype Outcome<+T> = Done(value: T) | Panic | Wild | Blocked {
    predicate IsFailure() {
      !Done?
    }

    function PropagateFailure<U>(): Outcome<U>
      requires IsFailure()
    {
      match this
      case Panic => Panic
      case Wild => Wild
      case Blocked => Blocked
    }

    function Extract(): T
      requires Done?
    {
      value
    }
  }

  // The lowest index that is not taken, or |taken| when every entry is taken.
  function FirstFree(taken: seq<bool>): (r: nat)
    ensures r <= |taken|
    ensures forall j :: 0 <= j < r ==> taken[j]
    ensures r < |taken| ==> !taken[r]
  {
    if taken == [] || !taken[0] then 0 else 1 + FirstFree(taken[1..])
  }

  // The indices marked taken.
  function TakenSet(taken: seq<bool>): set<nat> {
    set i: nat | i < |taken| && taken[i]
  }

  // The first n natural numbers.
  function UpTo(n: nat): (s: set<nat>)
    ensures forall i: nat :: i in s <==> i < n
    ensures |s| == n
  {
    if n == 0 then {} else UpTo(n - 1) + {n - 1}
  }

  lemma SubsetCard<T>(a: set<T>, b: set<T>)
    requires a <= b
    ensures |a| <= |b|
    ensures |a| == |b| ==> a == b
  {
    assert b == a + (b - a);
    assert |b| == |a| + |b - a|;
  }

  // A scan over a table fails exactly when as many entries are taken as there are.
  lemma FirstFreeFailsWhenFull(taken: seq<bool>)
    ensures |TakenSet(taken)| <= |taken|
    ensures FirstFree(taken) == |taken| <==> |TakenSet(taken)| == |taken|
  {
    var all := UpTo(|taken|);
    SubsetCard(TakenSet(taken), all);
    var r := FirstFree(taken);
    if r < |taken| {
      assert r in all && r !in TakenSet(taken);
    } else {
      assert TakenSet(taken) == all;
    }
  }

  ghost predicate Injective<K, V>(m: map<K, V>) {
    forall a, b :: a in m && b in m && m[a] == m[b] ==> a == b
  }

  // An injective map has as many values as keys.
  lemma {:induction false} InjectiveCard<K, V>(m: map<K, V>)
    requires Injective(m)
    ensures |m.Keys| == |m.Values|
    decreases |m|
  {
    if m.Keys == {} {
      assert m.Values == {};
    } else {
      var k :| k in m.Keys;
      var rest := m - {k};
      assert rest.Keys == m.Keys - {k};
      assert forall x :: x in rest ==> rest[x] == m[x];
      InjectiveCard(rest);
      assert m[k] !in rest.Values;
      assert m.Values == rest.Values + {m[k]} by {
        forall v | v in m.Values ensures v in rest.Values + {m[k]} {
          var x :| x in m && m[x] == v;
          if x != k {
            assert x in rest && rest[x] == v;
          }
        }
      }
    }
  }

  // m is a one-to-one correspondence between ks and vs.
  ghost predicate Bijection<K, V>(m: map<K, V>, ks: set<K>, vs: set<V>) {
    m.Keys == ks && m.Values == vs && Injective(m)
  }

  lemma BijectionCard<K, V>(m: map<K, V>, ks: set<K>, vs: set<V>)
    requires m.Keys == ks && Injective(m)
    requires forall k :: k in ks ==> m[k] in vs
    requires forall v :: v in vs ==> exists k :: k in m && m[k] == v
    ensures Bijection(m, ks, vs) && |ks| == |vs|
  {
    assert m.Values == vs;
    InjectiveCard(m);
  }

  lemma WithoutOne<T>(s: set<T>, x: T)
    requires x in s
    ensures |s| == 1 + |s - {x}|
  {
  }
}
