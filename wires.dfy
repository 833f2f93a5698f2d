/** Wire labels and the set algebra of pennylane.wires.Wires that the core relies on. */
module Wires {

  /** A wire label: the source accepts integers and arbitrary hashable labels such as 'a'. */
  datatype Wire = Int(n: int) | Label(s: string)

  function SetOf(ws: seq<Wire>): set<Wire> {
    set w | w in ws
  }

  /** Wires.unique_wires([a, b]): the labels that occur in exactly one of the two lists. */
  function UniqueWires(a: seq<Wire>, b: seq<Wire>): (u: set<Wire>)
    ensures forall w :: w in u <==> ((w in a) != (w in b))
    ensures u == {} <==> SetOf(a) == SetOf(b)
  {
    (SetOf(a) - SetOf(b)) + (SetOf(b) - SetOf(a))
  }

  /** Wires.shared_wires([a, b]): the labels that occur in both lists. */
  function SharedWires(a: seq<Wire>, b: seq<Wire>): (sh: set<Wire>)
    ensures forall w :: w in sh <==> w in a && w in b
  {
    SetOf(a) * SetOf(b)
  }

  predicate SameWireSet(a: seq<Wire>, b: seq<Wire>) {
    SetOf(a) == SetOf(b)
  }

  predicate Disjoint(a: seq<Wire>, b: seq<Wire>) {
    forall w :: w in a ==> w !in b
  }

  /** A Wires object never holds the same label twice. */
  predicate NoDup(ws: seq<Wire>) {
    forall i, j :: 0 <= i < j < |ws| ==> ws[i] != ws[j]
  }

  /** The position of the first occurrence of x in b. */
  function FirstIndex(b: seq<Wire>, x: Wire): (i: nat)
    requires x in b
    ensures i < |b| && b[i] == x
    ensures forall j :: 0 <= j < i ==> b[j] != x
  {
    if b[0] == x then 0 else 1 + FirstIndex(b[1..], x)
  }

  /** An occurrence with none before it is the first one. */
  lemma {:induction false} FirstIndexIs(b: seq<Wire>, x: Wire, i: nat)
    requires i < |b| && b[i] == x && forall j :: 0 <= j < i ==> b[j] != x
    ensures FirstIndex(b, x) == i
    decreases i
  {
    if i > 0 {
      FirstIndexIs(b[1..], x, i - 1);
    }
  }

  /** Appending to a list does not move the first occurrence of a label it already holds. */
  lemma {:induction false} FirstIndexExtend(b: seq<Wire>, c: seq<Wire>)
    ensures forall x :: x in b ==> FirstIndex(b + c, x) == FirstIndex(b, x)
  {
    forall x | x in b ensures FirstIndex(b + c, x) == FirstIndex(b, x) {
      var i := FirstIndex(b, x);
      FirstIndexIs(b + c, x, i);
    }
  }

  /**
   * Wires addition (Wires.all_wires): the labels of a, then those of b that are not
   * already present, each once, in order of first appearance.
   */
  function Union(a: seq<Wire>, b: seq<Wire>): (u: seq<Wire>)
    ensures |a| <= |u| <= |a| + |b| && u[..|a|] == a
    ensures forall w :: w in u <==> w in a || w in b
    ensures forall i :: |a| <= i < |u| ==> u[i] in b && u[i] !in a
    decreases |b|
  {
    if b == [] then a
    else
      var b1, x := b[..|b| - 1], b[|b| - 1];
      var u := Union(a, b1);
      assert b == b1 + [x];
      AddLast(a, b1, x, u);
      if x in u then u else u + [x]
  }

  /** The step of Wires addition: what holds of a + b1 holds of a + (b1 + [x]) once x is added if new. */
  lemma {:induction false} AddLast(a: seq<Wire>, b1: seq<Wire>, x: Wire, u: seq<Wire>)
    requires |a| <= |u| <= |a| + |b1| && u[..|a|] == a
    requires forall w :: w in u <==> w in a || w in b1
    requires forall i :: |a| <= i < |u| ==> u[i] in b1 && u[i] !in a
    ensures var b, v := b1 + [x], if x in u then u else u + [x];
      && |a| <= |v| <= |a| + |b| && v[..|a|] == a
      && (forall w :: w in v <==> w in a || w in b)
      && (forall i :: |a| <= i < |v| ==> v[i] in b && v[i] !in a)
  {
    if x !in u {
      var v := u + [x];
      assert v[..|a|] == a by { assert v[..|a|] == u[..|a|]; }
      assert forall i :: |a| <= i < |u| ==> v[i] == u[i];
    }
  }

  /**
   * The labels Wires addition appends come in the order in which they first appear in the
   * second list.
   */
  lemma {:induction false} UnionOrder(a: seq<Wire>, b: seq<Wire>)
    ensures forall i, j :: |a| <= i < j < |Union(a, b)| ==> FirstIndex(b, Union(a, b)[i]) < FirstIndex(b, Union(a, b)[j])
    decreases |b|
  {
    if b != [] {
      var b1, x := b[..|b| - 1], b[|b| - 1];
      var u := Union(a, b1);
      assert b == b1 + [x];
      UnionOrder(a, b1);
      AddLastOrder(a, b1, x, u);
      assert Union(a, b) == if x in u then u else u + [x];
    }
  }

  /** The order step of Wires addition: appending x if new keeps the order of first appearance. */
  lemma {:induction false} AddLastOrder(a: seq<Wire>, b1: seq<Wire>, x: Wire, u: seq<Wire>)
    requires |a| <= |u|
    requires forall i :: |a| <= i < |u| ==> u[i] in b1
    requires forall w :: w in b1 ==> w in u
    requires forall i, j :: |a| <= i < j < |u| ==> FirstIndex(b1, u[i]) < FirstIndex(b1, u[j])
    ensures var b, v := b1 + [x], if x in u then u else u + [x];
      forall i, j :: |a| <= i < j < |v| ==> FirstIndex(b, v[i]) < FirstIndex(b, v[j])
  {
    var b := b1 + [x];
    FirstIndexExtend(b1, [x]);
    if x !in u {
      FirstIndexIs(b, x, |b1|);
      var v := u + [x];
      assert forall i :: |a| <= i < |u| ==> v[i] == u[i];
    }
  }

  /** Adding one more label: it is appended unless already present. */
  lemma {:induction false} UnionSnoc(a: seq<Wire>, b: seq<Wire>, x: Wire)
    ensures Union(a, b + [x]) == if x in Union(a, b) then Union(a, b) else Union(a, b) + [x]
  {
    assert (b + [x])[..|b|] == b;
  }

  /** Adding b then c is adding b + c. */
  lemma {:induction false} UnionAssoc(a: seq<Wire>, b: seq<Wire>, c: seq<Wire>)
    ensures Union(Union(a, b), c) == Union(a, b + c)
    decreases |c|
  {
    if c == [] {
      assert b + c == b;
    } else {
      var c1, y := c[..|c| - 1], c[|c| - 1];
      var u := Union(Union(a, b), c1);
      assert c == c1 + [y];
      assert Union(Union(a, b), c) == if y in u then u else u + [y] by {
        UnionSnoc(Union(a, b), c1, y);
      }
      assert u == Union(a, b + c1) by {
        UnionAssoc(a, b, c1);
      }
      assert Union(a, b + c) == if y in u then u else u + [y] by {
        assert b + c == (b + c1) + [y];
        UnionSnoc(a, b + c1, y);
      }
    }
  }

  /** The lists one after the other. */
  function Concat(lists: seq<seq<Wire>>): (r: seq<Wire>)
    ensures forall w :: w in r <==> exists i :: 0 <= i < |lists| && w in lists[i]
    decreases |lists|
  {
    if lists == [] then []
    else
      var n := |lists| - 1;
      assert forall i :: 0 <= i < n ==> lists[..n][i] == lists[i];
      Concat(lists[..n]) + lists[n]
  }

  /** Adding a label already present changes nothing. */
  lemma {:induction false} UnionAbsorbs(a: seq<Wire>, x: Wire)
    requires x in a
    ensures Union(a, [x]) == a
  {
    assert [x][..0] == [];
  }

  /** A label in both lists is added once only, so the sum is shorter than the two lists together. */
  lemma {:induction false} UnionOverlap(a: seq<Wire>, b: seq<Wire>, x: Wire)
    requires x in a && x in b
    ensures |Union(a, b)| < |a| + |b|
    decreases |b|
  {
    var b1, y := b[..|b| - 1], b[|b| - 1];
    assert b == b1 + [y];
    if x in b1 {
      UnionOverlap(a, b1, x);
    } else {
      assert y == x && x in Union(a, b1);
    }
  }

  lemma {:induction false} NoDupSnoc(a: seq<Wire>, x: Wire)
    requires NoDup(a) && x !in a
    ensures NoDup(a + [x])
  {
    forall i, j | 0 <= i < j < |a| + 1 ensures (a + [x])[i] != (a + [x])[j] {
      assert (a + [x])[i] == a[i];
      if j == |a| { assert (a + [x])[j] == x; } else { assert (a + [x])[j] == a[j]; }
    }
  }

  /** Adding wires keeps them duplicate-free, and adding disjoint duplicate-free wires concatenates. */
  lemma {:induction false} UnionNoDup(a: seq<Wire>, b: seq<Wire>)
    requires NoDup(a)
    ensures NoDup(Union(a, b))
    ensures NoDup(b) && Disjoint(a, b) ==> Union(a, b) == a + b
  {
    UnionKeepsNoDup(a, b);
    if NoDup(b) && Disjoint(a, b) {
      UnionDisjoint(a, b);
    }
  }

  /** Adding c to no wires deduplicates c: each label once, in order of first appearance. */
  lemma {:induction false} UnionFromEmpty(c: seq<Wire>)
    ensures NoDup(Union([], c))
    ensures forall w :: w in Union([], c) <==> w in c
    ensures forall i, j :: 0 <= i < j < |Union([], c)| ==> FirstIndex(c, Union([], c)[i]) < FirstIndex(c, Union([], c)[j])
  {
    UnionKeepsNoDup([], c);
    UnionOrder([], c);
  }

  lemma {:induction false} UnionKeepsNoDup(a: seq<Wire>, b: seq<Wire>)
    requires NoDup(a)
    ensures NoDup(Union(a, b))
    decreases |b|
  {
    if b != [] {
      var b1, x := b[..|b| - 1], b[|b| - 1];
      UnionKeepsNoDup(a, b1);
      var u := Union(a, b1);
      if x !in u {
        NoDupSnoc(u, x);
      }
    }
  }

  lemma {:induction false} UnionDisjoint(a: seq<Wire>, b: seq<Wire>)
    requires NoDup(b) && Disjoint(a, b)
    ensures Union(a, b) == a + b
    decreases |b|
  {
    if b != [] {
      var b1, x := b[..|b| - 1], b[|b| - 1];
      assert b == b1 + [x];
      assert Union(a, b) == (a + b1) + [x] by {
        assert NoDup(b1) && Disjoint(a, b1);
        UnionDisjoint(a, b1);
        assert x !in b1 && x !in a;
        UnionSnoc(a, b1, x);
      }
      assert (a + b1) + [x] == a + (b1 + [x]);
    }
  }
}
