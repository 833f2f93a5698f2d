/**
 * The action of the permutation gates (PauliX, CNOT, Toffoli, MultiControlledX, SWAP, CSWAP)
 * on computational basis states. A basis state gives each wire its bit; the matrices of
 * non_parametric_ops.py for these gates send basis states to basis states exactly as below.
 */
module BasisStates {
  import opened Wires
  import opened Operators

  /** A computational basis state: the bit of every wire in its domain. */
  type State = map<Wire, bool>

  /** The state assigns a bit to every wire of ws. */
  predicate Covers(s: State, ws: seq<Wire>) {
    forall w :: w in ws ==> w in s
  }

  /** The state with the bit of w negated. */
  function Flip(s: State, w: Wire): (r: State)
    requires w in s
    ensures r.Keys == s.Keys
  {
    s[w := !s[w]]
  }

  /** The state with the bits of a and b exchanged. */
  function Exchange(s: State, a: Wire, b: Wire): (r: State)
    requires a in s && b in s
    ensures r.Keys == s.Keys
  {
    s[a := s[b]][b := s[a]]
  }

  lemma {:induction false} FlipTwice(s: State, w: Wire)
    requires w in s
    ensures Flip(Flip(s, w), w) == s
  {
  }

  lemma {:induction false} FlipCommute(s: State, v: Wire, w: Wire)
    requires v in s && w in s
    ensures Flip(Flip(s, v), w) == Flip(Flip(s, w), v)
  {
  }

  /** Every control wire is set. */
  predicate AllSet(s: State, cs: seq<Wire>)
    requires Covers(s, cs)
  {
    forall i :: 0 <= i < |cs| ==> s[cs[i]]
  }

  /** Every control wire holds the bit its control value asks for. */
  predicate Matches(s: State, cs: seq<Wire>, cv: string)
    requires Covers(s, cs) && |cv| == |cs|
  {
    forall i :: 0 <= i < |cs| ==> (s[cs[i]] <==> cv[i] == '1')
  }

  predicate IsPermutationKind(k: Kind) {
    k in {PauliX, CNOT, Toffoli, MultiControlledX, SWAP, CSWAP}
  }

  /** A well-formed permutation gate on wires the state covers. */
  predicate Applicable(op: Op, s: State) {
    WellFormed(op) && IsPermutationKind(op.kind) && Covers(s, op.wires)
  }

  /**
   * What each permutation matrix does to a basis state: PauliX negates its wire; CNOT,
   * Toffoli and MultiControlledX negate the last wire when the others match; SWAP exchanges
   * its wires; CSWAP exchanges its last two wires when the first is set. The inverse marker
   * is irrelevant: every one of these is self-inverse.
   */
  function ApplyGate(op: Op, s: State): (r: State)
    requires Applicable(op, s)
    ensures r.Keys == s.Keys
  {
    var ws := op.wires;
    match op.kind
    case PauliX => Flip(s, ws[0])
    case CNOT => if s[ws[0]] then Flip(s, ws[1]) else s
    case Toffoli => if s[ws[0]] && s[ws[1]] then Flip(s, ws[2]) else s
    case MultiControlledX =>
      var n := |ws| - 1;
      if Matches(s, ws[..n], op.hyper.controlValues) then Flip(s, ws[n]) else s
    case SWAP => Exchange(s, ws[0], ws[1])
    case CSWAP => if s[ws[0]] then Exchange(s, ws[1], ws[2]) else s
  }

  /** Every operation is a permutation gate on wires in the domain. */
  predicate AllApplicable(ops: seq<Op>, s: State) {
    forall i :: 0 <= i < |ops| ==> Applicable(ops[i], s)
  }

  /** Whether a gate applies depends only on the domain, which no gate changes. */
  lemma {:induction false} ApplicableSameKeys(ops: seq<Op>, s: State, r: State)
    requires AllApplicable(ops, s) && r.Keys == s.Keys
    ensures AllApplicable(ops, r)
  {
  }

  /** Apply the operations in tape order. */
  function Run(ops: seq<Op>, s: State): (r: State)
    requires AllApplicable(ops, s)
    ensures r.Keys == s.Keys
    decreases |ops|
  {
    if ops == [] then s
    else
      var s1 := ApplyGate(ops[0], s);
      ApplicableSameKeys(ops[1..], s, s1);
      Run(ops[1..], s1)
  }

  /** Running a concatenation runs the first part and then the second. */
  lemma {:induction false} RunAppend(a: seq<Op>, b: seq<Op>, s: State)
    requires AllApplicable(a, s) && AllApplicable(b, s)
    ensures AllApplicable(a + b, s) && AllApplicable(b, Run(a, s))
    ensures Run(a + b, s) == Run(b, Run(a, s))
    decreases |a|
  {
    assert AllApplicable(a + b, s) by {
      forall i | 0 <= i < |a + b| ensures Applicable((a + b)[i], s) {
        if i < |a| { assert (a + b)[i] == a[i]; } else { assert (a + b)[i] == b[i - |a|]; }
      }
    }
    ApplicableSameKeys(b, s, Run(a, s));
    if a != [] {
      assert (a + b)[1..] == a[1..] + b;
      assert (a + b)[0] == a[0];
      var s1 := ApplyGate(a[0], s);
      ApplicableSameKeys(a[1..], s, s1);
      ApplicableSameKeys(b, s, s1);
      RunAppend(a[1..], b, s1);
    } else {
      assert a + b == b;
    }
  }

  /** Running a, reaching x, and then b, reaching y, is running a + b to y. */
  lemma {:induction false} RunThen(a: seq<Op>, b: seq<Op>, s: State, x: State, y: State)
    requires AllApplicable(a, s) && AllApplicable(b, x)
    requires Run(a, s) == x && Run(b, x) == y
    ensures AllApplicable(a + b, s) && Run(a + b, s) == y
  {
    ApplicableSameKeys(b, x, s);
    RunAppend(a, b, s);
  }

  lemma {:induction false} RunSingle(g: Op, s: State)
    requires Applicable(g, s)
    ensures AllApplicable([g], s)
    ensures Run([g], s) == ApplyGate(g, s)
  {
    assert [g][1..] == [];
  }

  lemma {:induction false} Run3(d: seq<Op>, s: State)
    requires |d| == 3 && AllApplicable(d, s)
    ensures Run(d, s) == ApplyGate(d[2], ApplyGate(d[1], ApplyGate(d[0], s)))
  {
    var s1 := ApplyGate(d[0], s);
    var s2 := ApplyGate(d[1], s1);
    assert Run(d, s) == Run(d[1..], s1);
    assert d[1..][0] == d[1];
    ApplicableSameKeys(d, s, s1);
    ApplicableSameKeys(d, s, s2);
    assert Run(d[1..], s1) == Run(d[2..], s2) by { assert d[1..][1..] == d[2..]; }
    assert d[2..] == [d[2]];
    RunSingle(d[2], s2);
  }

  /** Every permutation gate undoes itself: the semantic content of `is_self_inverse` for these kinds. */
  lemma {:induction false} ApplyTwice(op: Op, s: State)
    requires Applicable(op, s)
    ensures IsSelfInverse(op.kind)
    ensures ApplyGate(op, ApplyGate(op, s)) == s
  {
    var ws := op.wires;
    match op.kind {
      case PauliX => FlipTwice(s, ws[0]);
      case CNOT =>
        if s[ws[0]] { FlipTwice(s, ws[1]); }
      case Toffoli =>
        if s[ws[0]] && s[ws[1]] { FlipTwice(s, ws[2]); }
      case MultiControlledX =>
        var n := |ws| - 1;
        if Matches(s, ws[..n], op.hyper.controlValues) {
          var s1 := Flip(s, ws[n]);
          assert forall i :: 0 <= i < n ==> s1[ws[..n][i]] == s[ws[..n][i]];
          FlipTwice(s, ws[n]);
        }
      case SWAP =>
      case CSWAP =>
    }
  }

  // ---------------------------------------------------------------------------------------
  // Fixed decompositions and controlled forms, semantically
  // ---------------------------------------------------------------------------------------

  /** Negate y when x is set: what a CNOT on [x, y] does. */
  function Cx(s: State, x: Wire, y: Wire): (r: State)
    requires x in s && y in s
    ensures r.Keys == s.Keys
  {
    if s[x] then Flip(s, y) else s
  }

  lemma {:induction false} CnotIsCx(x: Wire, y: Wire, s: State)
    requires x in s && y in s && x != y
    ensures Applicable(Gate(CNOT, [x, y]), s)
    ensures ApplyGate(Gate(CNOT, [x, y]), s) == Cx(s, x, y)
  {
  }

  /** Three CNOTs with alternating control: the exchange of the two wires. */
  lemma {:induction false} CxExchange(s: State, a: Wire, b: Wire)
    requires a in s && b in s && a != b
    ensures Cx(Cx(Cx(s, a, b), b, a), a, b) == Exchange(s, a, b)
  {
    var s3 := Cx(Cx(Cx(s, a, b), b, a), a, b);
    assert s3[a] == s[b] && s3[b] == s[a];
    assert forall w :: w in s && w != a && w != b ==> s3[w] == s[w];
  }

  /** SWAP(a, b) and its three CNOTs act alike on every basis state. */
  lemma {:induction false} SwapDecompositionCorrect(op: Op, s: State)
    requires Applicable(op, s) && op.kind == SWAP
    ensures AllApplicable(Decomposition(op).value, s)
    ensures Run(Decomposition(op).value, s) == ApplyGate(op, s)
  {
    var a, b := op.wires[0], op.wires[1];
    var d := Decomposition(op).value;
    assert d == SwapDecomposition(a, b);
    CnotIsCx(a, b, s);
    CnotIsCx(b, a, s);
    Run3(d, s);
    var s1 := Cx(s, a, b);
    CnotIsCx(b, a, s1);
    var s2 := Cx(s1, b, a);
    CnotIsCx(a, b, s2);
    CxExchange(s, a, b);
  }

  /** Negate z when x and y are set: what a Toffoli on [x, y, z] does. */
  function Ccx(s: State, x: Wire, y: Wire, z: Wire): (r: State)
    requires x in s && y in s && z in s
    ensures r.Keys == s.Keys
  {
    if s[x] && s[y] then Flip(s, z) else s
  }

  /** Three Toffolis with a common control, the other two wires crossed: a controlled exchange. */
  lemma {:induction false} CcxExchange(s: State, a: Wire, b: Wire, c: Wire)
    requires a in s && b in s && c in s && a != b && b != c && a != c
    ensures Ccx(Ccx(Ccx(s, a, c, b), a, b, c), a, c, b) == if s[a] then Exchange(s, b, c) else s
  {
    var s1 := Ccx(s, a, c, b);
    var s2 := Ccx(s1, a, b, c);
    var s3 := Ccx(s2, a, c, b);
    if s[a] {
      assert s3[b] == s[c] && s3[c] == s[b];
      assert forall w :: w in s && w != b && w != c ==> s3[w] == s[w];
    }
  }

  lemma {:induction false} ToffoliIsCcx(x: Wire, y: Wire, z: Wire, s: State)
    requires x in s && y in s && z in s && x != y && y != z && x != z
    ensures Applicable(Gate(Toffoli, [x, y, z]), s)
    ensures ApplyGate(Gate(Toffoli, [x, y, z]), s) == Ccx(s, x, y, z)
  {
  }

  lemma {:induction false} CswapGatesCorrect(a: Wire, b: Wire, c: Wire, s: State)
    requires a in s && b in s && c in s && a != b && b != c && a != c
    ensures AllApplicable(CswapDecomposition(a, b, c), s)
    ensures Run(CswapDecomposition(a, b, c), s) == if s[a] then Exchange(s, b, c) else s
  {
    var d := CswapDecomposition(a, b, c);
    ToffoliIsCcx(a, c, b, s);
    ToffoliIsCcx(a, b, c, s);
    Run3(d, s);
    var s1 := Ccx(s, a, c, b);
    ToffoliIsCcx(a, b, c, s1);
    var s2 := Ccx(s1, a, b, c);
    ToffoliIsCcx(a, c, b, s2);
    CcxExchange(s, a, b, c);
  }

  /** CSWAP(a, b, c) and its three Toffolis act alike on every basis state. */
  lemma {:induction false} CswapDecompositionCorrect(op: Op, s: State)
    requires Applicable(op, s) && op.kind == CSWAP
    ensures AllApplicable(Decomposition(op).value, s)
    ensures Run(Decomposition(op).value, s) == ApplyGate(op, s)
  {
    var a, b, c := op.wires[0], op.wires[1], op.wires[2];
    assert Decomposition(op).value == CswapDecomposition(a, b, c);
    CswapGatesCorrect(a, b, c, s);
  }

  /**
   * The controlled form of X, CNOT and SWAP applies the gate exactly when the new control
   * wire is set.
   */
  lemma {:induction false} ControlledCorrect(op: Op, c: Wire, s: State)
    requires Applicable(op, s) && op.kind in {PauliX, CNOT, SWAP} && c !in op.wires && c in s
    ensures Controlled(op, c).Ok? && Applicable(Controlled(op, c).value, s)
    ensures ApplyGate(Controlled(op, c).value, s) == if s[c] then ApplyGate(op, s) else s
  {
  }

  /** CNOT is the MultiControlledX with one control on value '1'; Toffoli the one with two. */
  lemma {:induction false} CnotToffoliAreMcx(op: Op, s: State)
    requires Applicable(op, s) && op.kind in {CNOT, Toffoli}
    ensures var m := Op(MultiControlledX, op.wires, [], false, McxHyper(if op.kind == CNOT then "1" else "11", []));
      Applicable(m, s) && ApplyGate(m, s) == ApplyGate(op, s)
  {
    var m := Op(MultiControlledX, op.wires, [], false, McxHyper(if op.kind == CNOT then "1" else "11", []));
    var n := |op.wires| - 1;
    assert Matches(s, op.wires[..n], m.hyper.controlValues) <==> forall i :: 0 <= i < n ==> s[op.wires[i]];
  }
}
