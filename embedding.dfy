/**
 * get_unitary_matrix: the unitary of a circuit on a fixed wire order. The first wire of the
 * order is the most significant bit of a basis-state number, each operation is embedded on
 * its own wires (its argument order deciding control and target), and the embedded matrices
 * are composed in tape order, later ones multiplied on the left. For circuits of permutation
 * gates the unitary is a permutation matrix, fixed by where it sends each basis state; that
 * is what this module computes and proves things about.
 */
module Embedding {
  import opened Results
  import opened Wires
  import opened Binary
  import opened Operators
  import opened BasisStates
  import Optimization

  // ---------------------------------------------------------------------------------------
  // What the function accepts
  // ---------------------------------------------------------------------------------------

  /**
   * The argument of get_unitary_matrix: a tape; a QNode, through the operations its tape
   * records and the wires of its device; a quantum function, through the operations it
   * records when called; or anything else.
   */
  datatype Circuit =
    | TapeInput(tape: Optimization.Tape)
    | QNodeInput(ops: seq<Op>, deviceWires: seq<Wire>)
    | QFuncInput(ops: seq<Op>)
    | NotCircuit

  /**
   * Wires.all_wires over a list of wire lists: every label once, in order of first appearance
   * in the lists one after the other.
   */
  function AllWires(lists: seq<seq<Wire>>): (r: seq<Wire>)
    ensures NoDup(r)
    ensures forall w :: w in r <==> exists i :: 0 <= i < |lists| && w in lists[i]
    ensures r == Union([], Concat(lists))
    ensures forall i, j :: 0 <= i < j < |r| ==> FirstIndex(Concat(lists), r[i]) < FirstIndex(Concat(lists), r[j])
    decreases |lists|
  {
    if lists == [] then []
    else
      var n := |lists| - 1;
      var prev := AllWires(lists[..n]);
      assert Union(prev, lists[n]) == Union([], Concat(lists)) by {
        UnionAssoc([], Concat(lists[..n]), lists[n]);
      }
      UnionFromEmpty(Concat(lists));
      Union(prev, lists[n])
  }

  /** The wire lists of a tape's operations, then those of its measurements, one after the other. */
  function TapeWireList(t: Optimization.Tape): seq<Wire> {
    var ops, ms := t.operations, t.measurements;
    Concat(seq(|ops|, i requires 0 <= i < |ops| => ops[i].wires) + seq(|ms|, i requires 0 <= i < |ms| => ms[i].wires))
  }

  /**
   * tape.wires: the wires of the operations, then those of the measurements, each once, in
   * order of first appearance.
   */
  function TapeWires(t: Optimization.Tape): (r: seq<Wire>)
    ensures NoDup(r)
    ensures forall i :: 0 <= i < |t.operations| ==> Within(t.operations[i].wires, r)
    ensures forall w :: w in r ==>
      (exists i :: 0 <= i < |t.operations| && w in t.operations[i].wires)
      || (exists i :: 0 <= i < |t.measurements| && w in t.measurements[i].wires)
    ensures forall w :: w in r <==> w in TapeWireList(t)
    ensures forall i, j :: 0 <= i < j < |r| ==> FirstIndex(TapeWireList(t), r[i]) < FirstIndex(TapeWireList(t), r[j])
  {
    var ops, ms := t.operations, t.measurements;
    var lists := seq(|ops|, i requires 0 <= i < |ops| => ops[i].wires)
      + seq(|ms|, i requires 0 <= i < |ms| => ms[i].wires);
    assert forall i :: 0 <= i < |ops| ==> lists[i] == ops[i].wires;
    assert forall i :: |ops| <= i < |lists| ==> lists[i] == ms[i - |ops|].wires;
    AllWires(lists)
  }

  /** Every wire of ws is listed in the order. */
  predicate Within(ws: seq<Wire>, order: seq<Wire>) {
    forall w :: w in ws ==> w in order
  }

  /** Every wire an operation acts on is listed in the order. */
  predicate Placed(ops: seq<Op>, order: seq<Wire>) {
    forall i :: 0 <= i < |ops| ==> Within(ops[i].wires, order)
  }

  /** The operations a unitary is built from and the wire order it is written in. */
  datatype Embedded = Embedded(ops: seq<Op>, order: seq<Wire>)

  /** A wire order is a Wires object (no label twice) and must list every wire the operations use. */
  function Check(ops: seq<Op>, order: seq<Wire>): (r: Result<Embedded>)
    ensures !NoDup(order) ==> r == Err(DuplicateWires)
    ensures NoDup(order) && !Placed(ops, order) ==> r == Err(WireNotInOrder)
    ensures r.Ok? <==> NoDup(order) && Placed(ops, order)
    ensures r.Ok? ==> r.value.ops == ops && r.value.order == order
  {
    if !NoDup(order) then Err(DuplicateWires)
    else if !Placed(ops, order) then Err(WireNotInOrder)
    else Ok(Embedded(ops, order))
  }

  /**
   * The checks get_unitary_matrix makes before building the matrix, and the wire order it
   * uses: the one given, else the tape's wires or the device's wires. A quantum function has
   * no wires to fall back on; one that records nothing is refused.
   */
  function Prepare(c: Circuit, given: Option<seq<Wire>>): (r: Result<Embedded>)
    ensures r.Ok? ==> NoDup(r.value.order) && Placed(r.value.ops, r.value.order)
    ensures r.Ok? && given.Some? ==> r.value.order == given.value
    ensures r.Ok? <==>
      (!c.NotCircuit? && (c.QFuncInput? ==> given.Some? && c.ops != []) && Check(OpsOf(c), OrderOf(c, given)).Ok?)
  {
    match c
    case NotCircuit => Err(NotACircuit)
    case QFuncInput(ops) =>
      if given.None? then Err(WireOrderNotSpecified)
      else if ops == [] then Err(NoQuantumOperation)
      else Check(ops, given.value)
    case TapeInput(t) => Check(t.operations, OrderOf(c, given))
    case QNodeInput(ops, dev) => Check(ops, OrderOf(c, given))
  }

  /** The operations of an accepted circuit. */
  function OpsOf(c: Circuit): seq<Op> {
    match c
    case TapeInput(t) => t.operations
    case QNodeInput(ops, _) => ops
    case QFuncInput(ops) => ops
    case NotCircuit => []
  }

  /** The wire order of an accepted circuit. */
  function OrderOf(c: Circuit, given: Option<seq<Wire>>): seq<Wire> {
    if given.Some? then given.value
    else match c
      case TapeInput(t) => TapeWires(t)
      case QNodeInput(_, dev) => dev
      case _ => []
  }

  /** Without a wire order, a tape is always accepted: its own wires cover its operations. */
  lemma {:induction false} TapeDefaultOrder(t: Optimization.Tape)
    ensures Prepare(TapeInput(t), None) == Ok(Embedded(t.operations, TapeWires(t)))
  {
  }

  /** RX(x) and RY(y) on wire 0, CNOT on [0, 1], RX(z) on wire 1, with nothing measured. */
  function TwoWireTape(x: real, y: real, z: real): Optimization.Tape {
    Optimization.Tape([Rotation(RX, x, [Int(0)]), Rotation(RY, y, [Int(0)]),
      Gate(CNOT, [Int(0), Int(1)]), Rotation(RX, z, [Int(1)])], [])
  }

  lemma {:induction false} TwoWireTapeList(x: real, y: real, z: real)
    ensures TapeWireList(TwoWireTape(x, y, z)) == [Int(0), Int(0), Int(0), Int(1), Int(1)]
  {
    var t := TwoWireTape(x, y, z);
    var ops, ms := t.operations, t.measurements;
    var l1, l2, l3, l4 := [Int(0)], [Int(0)], [Int(0), Int(1)], [Int(1)];
    assert TapeWireList(t) == Concat([l1, l2, l3, l4]) by {
      var os := seq(|ops|, i requires 0 <= i < |ops| => ops[i].wires);
      assert |os| == 4 && os[0] == l1 && os[1] == l2 && os[2] == l3 && os[3] == l4;
      assert os == [l1, l2, l3, l4];
      assert seq(|ms|, i requires 0 <= i < |ms| => ms[i].wires) == [];
      assert os + [] == os;
    }
    assert Concat([l1]) == l1 by { assert [l1][..0] == []; }
    assert Concat([l1, l2]) == l1 + l2 by { assert [l1, l2][..1] == [l1]; }
    assert Concat([l1, l2, l3]) == l1 + l2 + l3 by { assert [l1, l2, l3][..2] == [l1, l2]; }
    assert Concat([l1, l2, l3, l4]) == l1 + l2 + l3 + l4 by {
      assert [l1, l2, l3, l4][..3] == [l1, l2, l3];
    }
  }

  /** A duplicate-free list holding exactly p and q, in order of first appearance in l, is [p, q]. */
  lemma {:induction false} TwoInOrder(r: seq<Wire>, l: seq<Wire>, p: Wire, q: Wire)
    requires NoDup(r) && p != q && p in l && q in l && FirstIndex(l, p) < FirstIndex(l, q)
    requires forall w :: w in r <==> w in l
    requires forall w :: w in l ==> w == p || w == q
    requires forall i, j :: 0 <= i < j < |r| ==> FirstIndex(l, r[i]) < FirstIndex(l, r[j])
    ensures r == [p, q]
  {
    var k :| 0 <= k < |r| && r[k] == p;
    var m :| 0 <= m < |r| && r[m] == q;
    assert k == 0 by {
      assert r[0] in r;
    }
    assert m == 1 by {
      assert r[1] in r;
    }
    assert |r| == 2 by {
      assert r[|r| - 1] in r;
    }
    assert r == [p, q];
  }

  /** Wire 0 first appears at position 0 of the tape's wire list, wire 1 at position 3. */
  lemma {:induction false} TwoWireTapeFirsts(x: real, y: real, z: real)
    ensures Int(0) in TapeWireList(TwoWireTape(x, y, z)) && Int(1) in TapeWireList(TwoWireTape(x, y, z))
    ensures FirstIndex(TapeWireList(TwoWireTape(x, y, z)), Int(0)) < FirstIndex(TapeWireList(TwoWireTape(x, y, z)), Int(1))
    ensures forall w :: w in TapeWireList(TwoWireTape(x, y, z)) ==> w == Int(0) || w == Int(1)
  {
    var l := TapeWireList(TwoWireTape(x, y, z));
    TwoWireTapeList(x, y, z);
    FirstIndexIs(l, Int(0), 0);
    FirstIndexIs(l, Int(1), 3);
  }

  /**
   * Given no order, the tape of TwoWireTape is written in the order [0, 1]: the wires come in
   * order of first appearance, which puts RY RX in the first Kronecker factor.
   */
  lemma {:induction false} TapeOrderFirstAppearance(x: real, y: real, z: real)
    ensures TapeWires(TwoWireTape(x, y, z)) == [Int(0), Int(1)]
  {
    var t := TwoWireTape(x, y, z);
    TwoWireTapeFirsts(x, y, z);
    TwoInOrder(TapeWires(t), TapeWireList(t), Int(0), Int(1));
  }

  /** Prepared without an order, the tape TwoWireTape is embedded on the wires [0, 1]. */
  lemma {:induction false} TapePreparedInOrder(x: real, y: real, z: real)
    ensures Prepare(TapeInput(TwoWireTape(x, y, z)), None)
      == Ok(Embedded(TwoWireTape(x, y, z).operations, [Int(0), Int(1)]))
  {
    TapeOrderFirstAppearance(x, y, z);
  }

  /** Without a wire order, a QNode is written in the order of its device's wires. */
  lemma {:induction false} QNodeDefaultOrder(ops: seq<Op>, dev: seq<Wire>)
    requires NoDup(dev) && Placed(ops, dev)
    ensures Prepare(QNodeInput(ops, dev), None) == Ok(Embedded(ops, dev))
  {
  }

  /** A quantum function given no wire order is refused, whatever it records. */
  lemma {:induction false} QFuncNeedsOrder(ops: seq<Op>)
    ensures Prepare(QFuncInput(ops), None) == Err(WireOrderNotSpecified)
  {
  }

  /** Anything but a tape, a QNode or a quantum function is refused. */
  lemma {:induction false} NotCircuitRefused(given: Option<seq<Wire>>)
    ensures Prepare(NotCircuit, given) == Err(NotACircuit)
  {
  }

  /** A function that records no operation is refused, whatever the wire order. */
  lemma {:induction false} EmptyFunctionRefused(order: seq<Wire>)
    ensures Prepare(QFuncInput([]), Some(order)) == Err(NoQuantumOperation)
  {
  }

  /** An operation on a wire the order does not list is refused. */
  lemma {:induction false} MissingWireRefused(c: Circuit, order: seq<Wire>, i: nat, w: Wire)
    requires c.TapeInput? || c.QNodeInput? || (c.QFuncInput? && c.ops != [])
    requires NoDup(order) && i < |OpsOf(c)| && w in OpsOf(c)[i].wires && w !in order
    ensures Prepare(c, Some(order)) == Err(WireNotInOrder)
  {
    assert !Within(OpsOf(c)[i].wires, order);
  }

  // ---------------------------------------------------------------------------------------
  // Basis states listed in wire order
  // ---------------------------------------------------------------------------------------

  /** The operations are permutation gates of the shapes their classes demand. */
  predicate Permutational(ops: seq<Op>) {
    forall i :: 0 <= i < |ops| ==> WellFormed(ops[i]) && IsPermutationKind(ops[i].kind)
  }

  predicate Valid(e: Embedded) {
    NoDup(e.order) && Placed(e.ops, e.order) && Permutational(e.ops)
  }

  /** The basis state whose bits, listed in wire order, are `bits`. */
  function StateOf(order: seq<Wire>, bits: seq<bool>): (s: State)
    requires NoDup(order) && |bits| == |order|
    ensures s.Keys == SetOf(order)
    ensures forall i :: 0 <= i < |order| ==> s[order[i]] == bits[i]
  {
    map i | 0 <= i < |order| :: order[i] := bits[i]
  }

  /** The bits of a basis state, listed in wire order. */
  function BitsIn(order: seq<Wire>, s: State): (bits: seq<bool>)
    requires Covers(s, order)
    ensures |bits| == |order| && forall i :: 0 <= i < |order| ==> bits[i] == s[order[i]]
  {
    seq(|order|, i requires 0 <= i < |order| => s[order[i]])
  }

  /** Listing the bits of the state they describe gives them back. */
  lemma {:induction false} BitsRoundTrip(order: seq<Wire>, bits: seq<bool>)
    requires NoDup(order) && |bits| == |order|
    ensures BitsIn(order, StateOf(order, bits)) == bits
  {
  }

  /** A state on exactly the ordered wires is the one its listed bits describe. */
  lemma {:induction false} StateRoundTrip(order: seq<Wire>, s: State)
    requires NoDup(order) && s.Keys == SetOf(order)
    ensures StateOf(order, BitsIn(order, s)) == s
  {
    var t := StateOf(order, BitsIn(order, s));
    forall w | w in s ensures t[w] == s[w] {
      var i :| 0 <= i < |order| && order[i] == w;
    }
  }

  lemma {:induction false} ValidApplicable(e: Embedded, s: State)
    requires Valid(e) && s.Keys == SetOf(e.order)
    ensures AllApplicable(e.ops, s)
  {
    forall i | 0 <= i < |e.ops| ensures Applicable(e.ops[i], s) {
      assert Within(e.ops[i].wires, e.order);
    }
  }

  // ---------------------------------------------------------------------------------------
  // The unitary
  // ---------------------------------------------------------------------------------------

  /** The basis state the circuit sends the basis state `bits` to, both listed in wire order. */
  function Evolve(e: Embedded, bits: seq<bool>): (out: seq<bool>)
    requires Valid(e) && |bits| == |e.order|
    ensures |out| == |bits|
  {
    var s := StateOf(e.order, bits);
    ValidApplicable(e, s);
    BitsIn(e.order, Run(e.ops, s))
  }

  /** Column j of the unitary holds its single 1 in this row: the number of the image of state j. */
  function Column(e: Embedded, j: nat): (i: nat)
    requires Valid(e) && j < Pow2(|e.order|)
    ensures i < Pow2(|e.order|)
  {
    Index(Evolve(e, BitsOf(j, |e.order|)))
  }

  /** Entry (i, j) of the unitary. */
  function Entry(e: Embedded, i: nat, j: nat): int
    requires Valid(e) && j < Pow2(|e.order|)
  {
    if Column(e, j) == i then 1 else 0
  }

  /**
   * The embedding describes the gates' action on wires: read as a state on the wires,
   * the image of a basis state is what running the operations makes of it.
   */
  lemma {:induction false} EvolveIsRun(e: Embedded, bits: seq<bool>)
    requires Valid(e) && |bits| == |e.order|
    ensures AllApplicable(e.ops, StateOf(e.order, bits))
    ensures StateOf(e.order, Evolve(e, bits)) == Run(e.ops, StateOf(e.order, bits))
  {
    var s := StateOf(e.order, bits);
    ValidApplicable(e, s);
    StateRoundTrip(e.order, Run(e.ops, s));
  }

  /**
   * Control and target follow the gates' own wire arguments, not the wire order: two orders
   * of the same wires describe the same action on every basis state.
   */
  lemma {:induction false} OrderIndependent(ops: seq<Op>, o1: seq<Wire>, o2: seq<Wire>, s: State)
    requires Valid(Embedded(ops, o1)) && Valid(Embedded(ops, o2))
    requires s.Keys == SetOf(o1) && SetOf(o2) == SetOf(o1)
    ensures StateOf(o1, Evolve(Embedded(ops, o1), BitsIn(o1, s)))
         == StateOf(o2, Evolve(Embedded(ops, o2), BitsIn(o2, s)))
  {
    EvolveIsRun(Embedded(ops, o1), BitsIn(o1, s));
    EvolveIsRun(Embedded(ops, o2), BitsIn(o2, s));
    StateRoundTrip(o1, s);
    StateRoundTrip(o2, s);
  }

  /** The empty circuit leaves every basis state alone: the accumulator starts as the identity. */
  lemma {:induction false} EmptyIsIdentity(order: seq<Wire>, j: nat)
    requires NoDup(order) && j < Pow2(|order|)
    ensures Valid(Embedded([], order)) && Column(Embedded([], order), j) == j
  {
    BitsRoundTrip(order, BitsOf(j, |order|));
  }

  /** Running a + b is running a and then b. */
  lemma {:induction false} EvolveComposes(a: seq<Op>, b: seq<Op>, order: seq<Wire>, bits: seq<bool>)
    requires Valid(Embedded(a, order)) && Valid(Embedded(b, order)) && |bits| == |order|
    ensures Valid(Embedded(a + b, order))
    ensures Evolve(Embedded(a + b, order), bits)
         == Evolve(Embedded(b, order), Evolve(Embedded(a, order), bits))
  {
    var ea, eb, eab := Embedded(a, order), Embedded(b, order), Embedded(a + b, order);
    assert Valid(eab) by {
      forall i | 0 <= i < |a + b|
        ensures WellFormed((a + b)[i]) && IsPermutationKind((a + b)[i].kind) && Within((a + b)[i].wires, order)
      {
        if i < |a| { assert (a + b)[i] == a[i]; } else { assert (a + b)[i] == b[i - |a|]; }
      }
    }
    var s := StateOf(order, bits);
    ValidApplicable(ea, s);
    ValidApplicable(eb, s);
    RunAppend(a, b, s);
    var mid := Evolve(ea, bits);
    EvolveIsRun(ea, bits);
    assert StateOf(order, mid) == Run(a, s);
  }

  /**
   * Later operations are multiplied on the left: the unitary of a + b is U_b U_a. With U_a a
   * permutation matrix, entry (i, j) of the product is entry (i, Column(a, j)) of U_b.
   */
  lemma {:induction false} ColumnComposes(a: seq<Op>, b: seq<Op>, order: seq<Wire>, i: nat, j: nat)
    requires Valid(Embedded(a, order)) && Valid(Embedded(b, order)) && j < Pow2(|order|)
    ensures Valid(Embedded(a + b, order))
    ensures Column(Embedded(a + b, order), j) == Column(Embedded(b, order), Column(Embedded(a, order), j))
    ensures Entry(Embedded(a + b, order), i, j) == Entry(Embedded(b, order), i, Column(Embedded(a, order), j))
  {
    var n := |order|;
    var mid := Evolve(Embedded(a, order), BitsOf(j, n));
    EvolveComposes(a, b, order, BitsOf(j, n));
    BitsOfIndex(mid);
  }

  /** Running the operations twice in reverse undoes them: no two basis states share an image. */
  lemma {:induction false} RunInjective(ops: seq<Op>, s1: State, s2: State)
    requires AllApplicable(ops, s1) && AllApplicable(ops, s2) && Run(ops, s1) == Run(ops, s2)
    ensures s1 == s2
    decreases |ops|
  {
    if ops != [] {
      var t1, t2 := ApplyGate(ops[0], s1), ApplyGate(ops[0], s2);
      ApplicableSameKeys(ops[1..], s1, t1);
      ApplicableSameKeys(ops[1..], s2, t2);
      RunInjective(ops[1..], t1, t2);
      ApplyTwice(ops[0], s1);
      ApplyTwice(ops[0], s2);
    }
  }

  /** The unitary is a permutation matrix: distinct columns hold their 1 in distinct rows. */
  lemma {:induction false} ColumnInjective(e: Embedded, j1: nat, j2: nat)
    requires Valid(e) && j1 < Pow2(|e.order|) && j2 < Pow2(|e.order|)
    requires Column(e, j1) == Column(e, j2)
    ensures j1 == j2
  {
    var n := |e.order|;
    var b1, b2 := BitsOf(j1, n), BitsOf(j2, n);
    IndexInjective(Evolve(e, b1), Evolve(e, b2));
    EvolveIsRun(e, b1);
    EvolveIsRun(e, b2);
    RunInjective(e.ops, StateOf(e.order, b1), StateOf(e.order, b2));
    BitsRoundTrip(e.order, b1);
    BitsRoundTrip(e.order, b2);
  }

  // ---------------------------------------------------------------------------------------
  // Placement on the wire order
  // ---------------------------------------------------------------------------------------

  /** Setting bit k of a basis state moves its number by 2^(n-1-k): the first bit is the most significant. */
  lemma {:induction false} IndexSet(b: seq<bool>, k: nat, v: bool)
    requires k < |b|
    ensures Index(b[k := v]) + (if b[k] then Pow2(|b| - 1 - k) else 0)
         == Index(b) + (if v then Pow2(|b| - 1 - k) else 0)
    decreases |b|
  {
    var n := |b|;
    var c := b[k := v];
    assert c[..n - 1] == if k == n - 1 then b[..n - 1] else b[..n - 1][k := v];
    if k < n - 1 {
      IndexSet(b[..n - 1], k, v);
    }
  }

  lemma {:induction false} ColumnIs(e: Embedded, j: nat, out: seq<bool>)
    requires Valid(e) && j < Pow2(|e.order|) && Evolve(e, BitsOf(j, |e.order|)) == out
    ensures Column(e, j) == Index(out)
  {
  }

  /** Negating bit k of a basis state moves its number by 2^(n-1-k). */
  lemma {:induction false} IndexNegate(b: seq<bool>, k: nat)
    requires k < |b|
    ensures b[k] ==> Index(b[k := !b[k]]) + Pow2(|b| - 1 - k) == Index(b)
    ensures !b[k] ==> Index(b[k := !b[k]]) == Index(b) + Pow2(|b| - 1 - k)
  {
    IndexSet(b, k, !b[k]);
  }

  /** The basis state after the bit of one wire is negated. */
  lemma {:induction false} FlipListed(order: seq<Wire>, bits: seq<bool>, k: nat)
    requires NoDup(order) && |bits| == |order| && k < |order|
    ensures BitsIn(order, Flip(StateOf(order, bits), order[k])) == bits[k := !bits[k]]
  {
  }

  /** The image of a basis state under a one-gate circuit. */
  lemma {:induction false} EvolveSingle(g: Op, order: seq<Wire>, bits: seq<bool>)
    requires Valid(Embedded([g], order)) && |bits| == |order|
    ensures Applicable(g, StateOf(order, bits))
    ensures Evolve(Embedded([g], order), bits) == BitsIn(order, ApplyGate(g, StateOf(order, bits)))
  {
    var s := StateOf(order, bits);
    ValidApplicable(Embedded([g], order), s);
    assert [g][0] == g;
    RunSingle(g, s);
  }

  /** PauliX negates the bit of its wire, wherever that wire sits in the order. */
  lemma {:induction false} PauliXListed(order: seq<Wire>, bits: seq<bool>, k: nat)
    requires NoDup(order) && |bits| == |order| && k < |order|
    ensures Valid(Embedded([Gate(PauliX, [order[k]])], order))
    ensures Evolve(Embedded([Gate(PauliX, [order[k]])], order), bits) == bits[k := !bits[k]]
  {
    var g := Gate(PauliX, [order[k]]);
    assert Within(g.wires, order);
    assert Valid(Embedded([g], order));
    EvolveSingle(g, order, bits);
    FlipListed(order, bits, k);
  }

  /**
   * PauliX on the wire in slot k of an order of n wires embeds as kron(I_{2^k}, X, I_{2^(n-1-k)}):
   * it moves basis state j by 2^(n-1-k), up when that bit of j is clear and down when it is set.
   */
  lemma {:induction false} PauliXPlacement(order: seq<Wire>, k: nat, j: nat)
    requires NoDup(order) && k < |order| && j < Pow2(|order|)
    ensures Valid(Embedded([Gate(PauliX, [order[k]])], order))
    ensures BitsOf(j, |order|)[k] ==>
      Column(Embedded([Gate(PauliX, [order[k]])], order), j) + Pow2(|order| - 1 - k) == j
    ensures !BitsOf(j, |order|)[k] ==>
      Column(Embedded([Gate(PauliX, [order[k]])], order), j) == j + Pow2(|order| - 1 - k)
  {
    var e := Embedded([Gate(PauliX, [order[k]])], order);
    var bits := BitsOf(j, |order|);
    var out := bits[k := !bits[k]];
    var p := Pow2(|order| - 1 - k);
    assert bits[k] ==> Index(out) + p == j by {
      IndexNegate(bits, k);
    }
    assert !bits[k] ==> Index(out) == j + p by {
      IndexNegate(bits, k);
    }
    assert Valid(e) && Column(e, j) == Index(out) by {
      PauliXListed(order, bits, k);
      ColumnIs(e, j, out);
    }
  }

  /** A controlled-NOT whose control wire is set negates the bit of its target wire, wherever the two sit in the order. */
  lemma {:induction false} CnotListed(order: seq<Wire>, bits: seq<bool>, c: nat, t: nat)
    requires NoDup(order) && |bits| == |order| && c < |order| && t < |order| && c != t
    ensures Valid(Embedded([Gate(CNOT, [order[c], order[t]])], order))
    ensures bits[c] ==> Evolve(Embedded([Gate(CNOT, [order[c], order[t]])], order), bits) == bits[t := !bits[t]]
    ensures !bits[c] ==> Evolve(Embedded([Gate(CNOT, [order[c], order[t]])], order), bits) == bits
  {
    var g := Gate(CNOT, [order[c], order[t]]);
    assert Within(g.wires, order);
    assert Valid(Embedded([g], order));
    EvolveSingle(g, order, bits);
    var s := StateOf(order, bits);
    CnotIsCx(order[c], order[t], s);
    assert s[order[c]] == bits[c];
    if bits[c] {
      assert ApplyGate(g, s) == Flip(s, order[t]);
      FlipListed(order, bits, t);
    } else {
      assert ApplyGate(g, s) == s;
      BitsRoundTrip(order, bits);
    }
  }

  /** A Toffoli whose two control wires are set negates the bit of its target wire. */
  lemma {:induction false} ToffoliListed(order: seq<Wire>, bits: seq<bool>, a: nat, b: nat, t: nat)
    requires NoDup(order) && |bits| == |order| && a < |order| && b < |order| && t < |order|
    requires a != b && a != t && b != t
    ensures Valid(Embedded([Gate(Toffoli, [order[a], order[b], order[t]])], order))
    ensures bits[a] && bits[b] ==>
      Evolve(Embedded([Gate(Toffoli, [order[a], order[b], order[t]])], order), bits) == bits[t := !bits[t]]
    ensures !(bits[a] && bits[b]) ==>
      Evolve(Embedded([Gate(Toffoli, [order[a], order[b], order[t]])], order), bits) == bits
  {
    var g := Gate(Toffoli, [order[a], order[b], order[t]]);
    assert Within(g.wires, order);
    assert Valid(Embedded([g], order));
    EvolveSingle(g, order, bits);
    var s := StateOf(order, bits);
    ToffoliIsCcx(order[a], order[b], order[t], s);
    assert s[order[a]] == bits[a] && s[order[b]] == bits[b];
    if bits[a] && bits[b] {
      assert ApplyGate(g, s) == Flip(s, order[t]);
      FlipListed(order, bits, t);
    } else {
      assert ApplyGate(g, s) == s;
      BitsRoundTrip(order, bits);
    }
  }

  /** The wires in the given slots of the order. */
  function Slots(order: seq<Wire>, ps: seq<nat>): (ws: seq<Wire>)
    requires forall i :: 0 <= i < |ps| ==> ps[i] < |order|
    ensures |ws| == |ps| && forall i :: 0 <= i < |ps| ==> ws[i] == order[ps[i]]
  {
    seq(|ps|, i requires 0 <= i < |ps| => order[ps[i]])
  }

  /** Slots of an order of n wires: distinct, in range, none of them t. */
  predicate ControlSlots(n: nat, ps: seq<nat>, t: nat) {
    && t < n
    && (forall i :: 0 <= i < |ps| ==> ps[i] < n && ps[i] != t)
    && (forall i, j :: 0 <= i < j < |ps| ==> ps[i] != ps[j])
  }

  /** MultiControlledX with control wires in slots ps, target in slot t, control values cv. */
  function McxOn(order: seq<Wire>, ps: seq<nat>, t: nat, cv: string): Op
    requires ControlSlots(|order|, ps, t)
  {
    Op(MultiControlledX, Slots(order, ps) + [order[t]], [], false, McxHyper(cv, []))
  }

  lemma {:induction false} McxApplies(g: Op, s: State)
    requires Applicable(g, s) && g.kind == MultiControlledX
    ensures var n := |g.wires| - 1;
      ApplyGate(g, s) == if Matches(s, g.wires[..n], g.hyper.controlValues) then Flip(s, g.wires[n]) else s
  {
  }

  /** Every control bit equals its control value. */
  predicate ControlsMatch(bits: seq<bool>, ps: seq<nat>, cv: string)
    requires (forall i :: 0 <= i < |ps| ==> ps[i] < |bits|) && |cv| == |ps|
  {
    forall i :: 0 <= i < |ps| ==> (bits[ps[i]] <==> cv[i] == '1')
  }

  /** The operator is well formed and acts on wires of the order. */
  lemma {:induction false} McxOnValid(order: seq<Wire>, ps: seq<nat>, t: nat, cv: string)
    requires NoDup(order) && ControlSlots(|order|, ps, t)
    requires |ps| >= 1 && |cv| == |ps| && IsBitString(cv)
    ensures Valid(Embedded([McxOn(order, ps, t, cv)], order))
    ensures var ws := McxOn(order, ps, t, cv).wires;
      |ws| == |ps| + 1 && ws[..|ps|] == Slots(order, ps) && ws[|ps|] == order[t]
  {
    var g := McxOn(order, ps, t, cv);
    var n := |ps|;
    var ws := g.wires;
    assert ws[..n] == Slots(order, ps);
    assert NoDup(ws) by {
      forall i, j | 0 <= i < j < |ws| ensures ws[i] != ws[j] {
        if j < n {
          assert ps[i] != ps[j];
        }
      }
    }
    assert Within(ws, order);
  }

  /** The controls of the basis state match exactly when its listed bits do. */
  lemma {:induction false} MatchesListed(order: seq<Wire>, bits: seq<bool>, ps: seq<nat>, cv: string)
    requires NoDup(order) && |bits| == |order| && |cv| == |ps|
    requires forall i :: 0 <= i < |ps| ==> ps[i] < |order|
    ensures Covers(StateOf(order, bits), Slots(order, ps))
    ensures Matches(StateOf(order, bits), Slots(order, ps), cv) <==> ControlsMatch(bits, ps, cv)
  {
  }

  /**
   * MultiControlledX negates the bit of its target wire exactly when every control bit equals
   * its control value, wherever controls and target sit in the order.
   */
  lemma {:induction false} McxListed(order: seq<Wire>, bits: seq<bool>, ps: seq<nat>, t: nat, cv: string)
    requires NoDup(order) && |bits| == |order| && ControlSlots(|order|, ps, t)
    requires |ps| >= 1 && |cv| == |ps| && IsBitString(cv)
    ensures Valid(Embedded([McxOn(order, ps, t, cv)], order))
    ensures ControlsMatch(bits, ps, cv) ==>
      Evolve(Embedded([McxOn(order, ps, t, cv)], order), bits) == bits[t := !bits[t]]
    ensures !ControlsMatch(bits, ps, cv) ==>
      Evolve(Embedded([McxOn(order, ps, t, cv)], order), bits) == bits
  {
    var g := McxOn(order, ps, t, cv);
    McxOnValid(order, ps, t, cv);
    EvolveSingle(g, order, bits);
    var s := StateOf(order, bits);
    MatchesListed(order, bits, ps, cv);
    McxApplies(g, s);
    if ControlsMatch(bits, ps, cv) {
      FlipListed(order, bits, t);
    } else {
      BitsRoundTrip(order, bits);
    }
  }

  // ---------------------------------------------------------------------------------------
  // The basis-state cases the tests assert
  // ---------------------------------------------------------------------------------------

  /** The wires 0, 1, ..., n - 1. */
  function Range(n: nat): (r: seq<Wire>)
    ensures |r| == n && NoDup(r) && forall i :: 0 <= i < n ==> r[i] == Int(i)
  {
    seq(n, i => Int(i))
  }

  function AllOnes(n: nat): (b: seq<bool>)
    ensures |b| == n
  {
    seq(n, _ => true)
  }

  /**
   * CNOT([1, t]) on |11111> of wires 0..4 clears exactly bit t, for targets before and after
   * the control, adjacent or not.
   */
  lemma {:induction false} CnotOnAllOnes(t: nat)
    requires t < 5 && t != 1
    ensures Valid(Embedded([Gate(CNOT, [Int(1), Int(t)])], Range(5)))
    ensures Evolve(Embedded([Gate(CNOT, [Int(1), Int(t)])], Range(5)), AllOnes(5)) == AllOnes(5)[t := false]
  {
    CnotListed(Range(5), AllOnes(5), 1, t);
  }

  /**
   * Toffoli([0, 4, 'a']) under the order [0, 'a', 2, 'c', 4]: |11111> goes to |10111> and
   * |00110> is left alone.
   */
  lemma {:induction false} ToffoliWithLabels()
    ensures var e := Embedded([Gate(Toffoli, [Int(0), Int(4), Label("a")])], [Int(0), Label("a"), Int(2), Label("c"), Int(4)]);
      && Valid(e)
      && Evolve(e, [true, true, true, true, true]) == [true, false, true, true, true]
      && Evolve(e, [false, false, true, true, false]) == [false, false, true, true, false]
  {
    var order := [Int(0), Label("a"), Int(2), Label("c"), Int(4)];
    assert [order[0], order[4], order[1]] == [Int(0), Int(4), Label("a")];
    assert [true, true, true, true, true][1 := false] == [true, false, true, true, true];
    ToffoliListed(order, [true, true, true, true, true], 0, 4, 1);
    ToffoliListed(order, [false, false, true, true, false], 0, 4, 1);
  }

  /**
   * MultiControlledX with controls on the wires in slots 0, 2, 4, 5 and target in slot 3 of an
   * order of six wires (the test's wires 0..5 are one such order) sends |111111> to |111011>.
   */
  lemma {:induction false} McxOnSixWiresFlips(order: seq<Wire>)
    requires NoDup(order) && |order| == 6
    ensures var e := Embedded([Op(MultiControlledX, [order[0], order[2], order[4], order[5], order[3]], [], false, McxHyper("1111", []))], order);
      && Valid(e)
      && Evolve(e, [true, true, true, true, true, true]) == [true, true, true, false, true, true]
  {
    var ps := [0, 2, 4, 5];
    var ones := [true, true, true, true, true, true];
    assert ControlSlots(|order|, ps, 3) && IsBitString("1111");
    assert McxOn(order, ps, 3, "1111")
      == Op(MultiControlledX, [order[0], order[2], order[4], order[5], order[3]], [], false, McxHyper("1111", [])) by {
      assert Slots(order, ps) + [order[3]] == [order[0], order[2], order[4], order[5], order[3]];
    }
    assert ones[3 := false] == [true, true, true, false, true, true];
    assert ControlsMatch(ones, ps, "1111");
    McxListed(order, ones, ps, 3, "1111");
  }

  /** The same operator leaves |010010> alone: its first control is clear. */
  lemma {:induction false} McxOnSixWiresKeeps(order: seq<Wire>)
    requires NoDup(order) && |order| == 6
    ensures var e := Embedded([Op(MultiControlledX, [order[0], order[2], order[4], order[5], order[3]], [], false, McxHyper("1111", []))], order);
      && Valid(e)
      && Evolve(e, [false, true, false, false, true, false]) == [false, true, false, false, true, false]
  {
    var ps := [0, 2, 4, 5];
    var other := [false, true, false, false, true, false];
    assert ControlSlots(|order|, ps, 3) && IsBitString("1111");
    assert McxOn(order, ps, 3, "1111")
      == Op(MultiControlledX, [order[0], order[2], order[4], order[5], order[3]], [], false, McxHyper("1111", [])) by {
      assert Slots(order, ps) + [order[3]] == [order[0], order[2], order[4], order[5], order[3]];
    }
    assert !ControlsMatch(other, ps, "1111") by {
      assert !(other[ps[0]] <==> "1111"[0] == '1');
    }
    McxListed(order, other, ps, 3, "1111");
  }

  /** The column of a basis state given by its bits. */
  lemma {:induction false} ColumnOfBits(e: Embedded, b: seq<bool>, out: seq<bool>)
    requires Valid(e) && |b| == |e.order| && Evolve(e, b) == out
    ensures Column(e, Index(b)) == Index(out)
  {
    BitsOfIndex(b);
  }

  /**
   * CNOT([x, y]) under the order [y, x] (the test's CNOT([0, 1]) under [1, 0]) is the matrix
   * controlled on the second axis, [[1,0,0,0], [0,0,0,1], [0,0,1,0], [0,1,0,0]]: its columns
   * 0, 1, 2, 3 hold their 1 in rows 0, 3, 2, 1.
   */
  lemma {:induction false} CnotReversedColumns(x: Wire, y: Wire)
    requires x != y
    ensures var e := Embedded([Gate(CNOT, [x, y])], [y, x]);
      && Valid(e) && |e.order| == 2
      && Column(e, 0) == 0 && Column(e, 1) == 3 && Column(e, 2) == 2 && Column(e, 3) == 1
  {
    var order := [y, x];
    var e := Embedded([Gate(CNOT, [x, y])], order);
    assert [order[1], order[0]] == [x, y];
    var b0, b1, b2, b3 := [false, false], [false, true], [true, false], [true, true];
    assert Index(b0) == 0 && Index(b1) == 1 && Index(b2) == 2 && Index(b3) == 3;
    assert b1[0 := true] == b3 && b3[0 := false] == b1;
    CnotListed(order, b0, 1, 0);
    CnotListed(order, b1, 1, 0);
    CnotListed(order, b2, 1, 0);
    CnotListed(order, b3, 1, 0);
    ColumnOfBits(e, b0, b0);
    ColumnOfBits(e, b1, b3);
    ColumnOfBits(e, b2, b2);
    ColumnOfBits(e, b3, b1);
  }

  /**
   * PauliX on wire 4 under the order [1, 0, 4, 2, 3] sits in the third kron slot,
   * kron(I, I, X, I, I): it moves every basis state by 4.
   */
  lemma {:induction false} PauliXInThirdSlot(j: nat)
    requires j < 32
    ensures var e := Embedded([Gate(PauliX, [Int(4)])], [Int(1), Int(0), Int(4), Int(2), Int(3)]);
      && Valid(e) && |e.order| == 5
      && (Column(e, j) == j + 4 || Column(e, j) + 4 == j)
  {
    var order := [Int(1), Int(0), Int(4), Int(2), Int(3)];
    assert |order| == 5 && order[2] == Int(4);
    assert Pow2(5) == 32;
    assert Pow2(|order| - 1 - 2) == 4;
    PauliXPlacement(order, 2, j);
  }
}
