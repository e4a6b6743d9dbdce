/** Filtering and mapping sequences, with the laws the queue arguments need. */
module Filters {

  function Picked<E>(p: seq<E>, keep: E -> bool): seq<E> {
    if p == [] then []
    else Picked(p[..|p| - 1], keep) + (if keep(p[|p| - 1]) then [p[|p| - 1]] else [])
  }

  function Mapped<E, N>(p: seq<E>, f: E -> N): (r: seq<N>)
    ensures |r| == |p|
  {
    seq(|p|, i requires 0 <= i < |p| => f(p[i]))
  }

  lemma PickedAppend<E>(p: seq<E>, e: E, keep: E -> bool)
    ensures Picked(p + [e], keep) == Picked(p, keep) + (if keep(e) then [e] else [])
  {
    assert (p + [e])[..|p|] == p;
  }

  lemma {:induction false} PickedSame<E>(p: seq<E>, f: E -> bool, g: E -> bool)
    requires forall i :: 0 <= i < |p| ==> f(p[i]) == g(p[i])
    ensures Picked(p, f) == Picked(p, g)
  {
    if p != [] {
      PickedSame(p[..|p| - 1], f, g);
    }
  }

  lemma {:induction false} PickedNone<E>(p: seq<E>, f: E -> bool)
    requires forall i :: 0 <= i < |p| ==> !f(p[i])
    ensures Picked(p, f) == []
  {
    if p != [] {
      PickedNone(p[..|p| - 1], f);
    }
  }

  lemma {:induction false} PickedAll<E>(p: seq<E>, f: E -> bool)
    requires forall i :: 0 <= i < |p| ==> f(p[i])
    ensures Picked(p, f) == p
  {
    if p != [] {
      PickedAll(p[..|p| - 1], f);
    }
  }

  lemma {:induction false} PickedIn<E>(p: seq<E>, f: E -> bool)
    ensures forall i :: 0 <= i < |Picked(p, f)| ==> Picked(p, f)[i] in p && f(Picked(p, f)[i])
  {
    if p != [] {
      PickedIn(p[..|p| - 1], f);
    }
  }

  lemma {:induction false} PickedTwice<E>(p: seq<E>, f: E -> bool, g: E -> bool, both: E -> bool)
    requires forall i :: 0 <= i < |p| ==> both(p[i]) == (f(p[i]) && g(p[i]))
    ensures Picked(Picked(p, f), g) == Picked(p, both)
  {
    if p != [] {
      var e, p' := p[|p| - 1], p[..|p| - 1];
      PickedTwice(p', f, g, both);
      if f(e) {
        PickedAppend(Picked(p', f), e, g);
      } else {
        assert Picked(p, f) == Picked(p', f);
      }
    }
  }

  lemma {:induction false} PickedOfMapped<E, N>(p: seq<E>, f: E -> N, g: N -> bool, gf: E -> bool)
    requires forall i :: 0 <= i < |p| ==> gf(p[i]) == g(f(p[i]))
    ensures Picked(Mapped(p, f), g) == Mapped(Picked(p, gf), f)
  {
    if p != [] {
      var e, p' := p[|p| - 1], p[..|p| - 1];
      PickedOfMapped(p', f, g, gf);
      PickedAppend(Mapped(p', f), f(e), g);
      assert Mapped(p, f) == Mapped(p', f) + [f(e)];
    }
  }

  lemma PickedOfMappedPicked<E, N>(p: seq<E>, f: E -> bool, m: E -> N, g: N -> bool, both: E -> bool)
    requires forall i :: 0 <= i < |p| ==> both(p[i]) == (f(p[i]) && g(m(p[i])))
    ensures Picked(Mapped(Picked(p, f), m), g) == Mapped(Picked(p, both), m)
  {
    var gm := (e: E) => g(m(e));
    PickedOfMapped(Picked(p, f), m, g, gm);
    PickedTwice(p, f, gm, both);
  }

  lemma {:induction false} PickedConcat<E>(a: seq<E>, b: seq<E>, keep: E -> bool)
    ensures Picked(a + b, keep) == Picked(a, keep) + Picked(b, keep)
  {
    if b == [] {
      assert a + b == a;
    } else {
      PickedConcat(a, b[..|b| - 1], keep);
      assert (a + b)[..|a + b| - 1] == a + b[..|b| - 1];
    }
  }

  /** Where a kept element ends up. */
  lemma PickedAt<E>(p: seq<E>, keep: E -> bool, i: nat)
    requires i < |p| && keep(p[i])
    ensures |Picked(p[..i], keep)| < |Picked(p, keep)| && Picked(p, keep)[|Picked(p[..i], keep)|] == p[i]
  {
    PickedConcat(p[..i + 1], p[i + 1..], keep);
    assert p[..i + 1] + p[i + 1..] == p && p[..i + 1] == p[..i] + [p[i]];
    PickedAppend(p[..i], p[i], keep);
  }

  /** Kept elements keep their order. */
  lemma PickedPair<E>(p: seq<E>, keep: E -> bool, i: nat, j: nat) returns (i': nat, j': nat)
    requires i < j < |p| && keep(p[i]) && keep(p[j])
    ensures i' < j' < |Picked(p, keep)| && Picked(p, keep)[i'] == p[i] && Picked(p, keep)[j'] == p[j]
  {
    i', j' := |Picked(p[..i], keep)|, |Picked(p[..j], keep)|;
    PickedAt(p, keep, i);
    PickedAt(p, keep, j);
    PickedAt(p[..j], keep, i);
    assert p[..j][..i] == p[..i];
  }

  lemma {:induction false} PickedOnly<E>(p: seq<E>, keep: E -> bool, k: nat)
    requires k < |p| && forall i :: 0 <= i < |p| ==> keep(p[i]) == (i == k)
    ensures Picked(p, keep) == [p[k]]
  {
    var n := |p| - 1;
    if k < n {
      PickedOnly(p[..n], keep, k);
    } else {
      PickedNone(p[..n], keep);
    }
  }

  /** One kept element was one element. */
  lemma {:induction false} OnePicked<E>(p: seq<E>, keep: E -> bool) returns (k: nat)
    requires |Picked(p, keep)| == 1
    ensures k < |p| && Picked(p, keep)[0] == p[k]
    ensures forall i :: 0 <= i < |p| ==> keep(p[i]) == (i == k)
  {
    var n := |p| - 1;
    if keep(p[n]) {
      k := n;
      forall i | 0 <= i < n ensures !keep(p[i]) {
        if keep(p[i]) {
          var i', n' := PickedPair(p, keep, i, n);
        }
      }
    } else {
      k := OnePicked(p[..n], keep);
    }
  }
}
