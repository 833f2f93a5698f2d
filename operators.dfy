/**
 * The gate algebra of pennylane/ops/qubit/non_parametric_ops.py: gate kinds, their per-kind
 * attributes, the fixed decomposition tables, the adjoint rules, the controlled-form map and
 * the control wires. Angles are kept symbolic as reals; no matrix entry is computed here.
 */
module Operators {
  import opened Wires
  import opened Results
  import opened Binary

  /** np.pi; the decompositions only ever use it symbolically. */
  const Pi: real := 3.141592653589793

  /** The gate classes of the modelled file, plus the rotations the rewrite passes meet. */
  datatype Kind =
    | Hadamard | PauliX | PauliY | PauliZ | S | T | SX
    | CNOT | CZ | CY | SWAP | ISWAP | SISWAP | CSWAP | Toffoli
    | MultiControlledX | Barrier
    | RX | RY | RZ | PhaseShift | Rot | CRX | CRY | CRZ

  /** The hyperparameters a gate carries besides wires and angles. */
  datatype Hyper =
    | NoHyper
    | McxHyper(controlValues: string, workWires: seq<Wire>)
    | BarrierHyper(onlyVisual: bool)

  /**
   * One operation on a tape. `inverse` is the marker that `.inv()` toggles; for a
   * MultiControlledX the wires are the control wires followed by the single target.
   */
  datatype Op = Op(kind: Kind, wires: seq<Wire>, params: seq<real>, inverse: bool, hyper: Hyper)

  /** `op.name`: the class name, with ".inv" appended when the inverse marker is set. */
  datatype Name = Name(kind: Kind, inverted: bool)

  function NameOf(op: Op): Name {
    Name(op.kind, op.inverse)
  }

  /** A freshly constructed gate without angles. */
  function Gate(k: Kind, ws: seq<Wire>): Op {
    Op(k, ws, [], false, NoHyper)
  }

  /** A freshly constructed one-angle rotation. */
  function Rotation(k: Kind, angle: real, ws: seq<Wire>): Op {
    Op(k, ws, [angle], false, NoHyper)
  }

  /** `op.inv()`: toggles the inverse marker and nothing else. */
  function Inv(op: Op): (r: Op)
    ensures r.inverse != op.inverse
    ensures r.kind == op.kind && r.wires == op.wires && r.params == op.params && r.hyper == op.hyper
  {
    op.(inverse := !op.inverse)
  }

  /** The value WiresEnum.AnyWires takes as a class attribute `num_wires`. */
  const AnyWires: int := -1

  /** The class attribute `num_wires`. */
  function NumWiresAttr(k: Kind): int {
    match k
    case Hadamard | PauliX | PauliY | PauliZ | S | T | SX => 1
    case RX | RY | RZ | PhaseShift | Rot => 1
    case CNOT | CZ | CY | SWAP | ISWAP | SISWAP => 2
    case CRX | CRY | CRZ => 2
    case CSWAP | Toffoli => 3
    case MultiControlledX | Barrier => AnyWires
  }

  /** The `num_params` property. */
  function NumParams(k: Kind): nat {
    match k
    case RX | RY | RZ | PhaseShift | CRX | CRY | CRZ => 1
    case Rot => 3
    case _ => 0
  }

  /** `is_self_inverse`: the kinds whose adjoint rule returns the same gate. */
  predicate IsSelfInverse(k: Kind) {
    k.Hadamard? || k.PauliX? || k.PauliY? || k.PauliZ? || k.CNOT? || k.CZ? || k.CY? || k.SWAP? || k.CSWAP? || k.Toffoli? || k.MultiControlledX?
  }

  /** `is_symmetric_over_wires`: reversing the wire arguments does not change the action. */
  predicate IsSymmetricOverWires(k: Kind) {
    k.CZ? || k.SWAP?
  }

  /** `is_composable_rotation`: consecutive gates on the same wires add their angles. */
  predicate IsComposableRotation(k: Kind) {
    k.RX? || k.RY? || k.RZ? || k.PhaseShift? || k.Rot? || k.CRX? || k.CRY? || k.CRZ?
  }

  /** The hyperparameters that the constructor of each kind stores. */
  predicate HyperFits(op: Op) {
    match op.kind
    case MultiControlledX =>
      op.hyper.McxHyper? && |op.hyper.controlValues| == |op.wires| - 1
      && IsBitString(op.hyper.controlValues)
      && Disjoint(op.wires, op.hyper.workWires)
    case Barrier => op.hyper.BarrierHyper?
    case _ => op.hyper.NoHyper?
  }

  /** What constructing an operator establishes: distinct wires, the declared arity and parameter count. */
  predicate WellFormed(op: Op) {
    && NoDup(op.wires)
    && (NumWiresAttr(op.kind) >= 0 ==> |op.wires| == NumWiresAttr(op.kind))
    && (op.kind == MultiControlledX ==> |op.wires| >= 2)
    && |op.params| == NumParams(op.kind)
    && HyperFits(op)
  }

  // ---------------------------------------------------------------------------------------
  // Fixed decompositions
  // ---------------------------------------------------------------------------------------

  /** The decompositions of the one-wire gates into phase shifts and rotations on the same wire. */
  function OneWireDecomposition(k: Kind, ws: seq<Wire>): seq<Op>
    requires k in {Hadamard, PauliX, PauliY, PauliZ, S, T, SX}
  {
    match k
    case Hadamard =>
      [Rotation(PhaseShift, Pi / 2.0, ws), Rotation(RX, Pi / 2.0, ws), Rotation(PhaseShift, Pi / 2.0, ws)]
    case PauliX =>
      [Rotation(PhaseShift, Pi / 2.0, ws), Rotation(RX, Pi, ws), Rotation(PhaseShift, Pi / 2.0, ws)]
    case PauliY =>
      [Rotation(PhaseShift, Pi / 2.0, ws), Rotation(RY, Pi, ws), Rotation(PhaseShift, Pi / 2.0, ws)]
    case PauliZ => [Rotation(PhaseShift, Pi, ws)]
    case S => [Rotation(PhaseShift, Pi / 2.0, ws)]
    case T => [Rotation(PhaseShift, Pi / 4.0, ws)]
    case SX =>
      [Rotation(RZ, Pi / 2.0, ws), Rotation(RY, Pi / 2.0, ws), Rotation(RZ, -Pi, ws), Rotation(PhaseShift, Pi / 2.0, ws)]
  }

  function CyDecomposition(a: Wire, b: Wire): seq<Op> {
    [Rotation(CRY, Pi, [a, b]), Gate(S, [a])]
  }

  function SwapDecomposition(a: Wire, b: Wire): seq<Op> {
    [Gate(CNOT, [a, b]), Gate(CNOT, [b, a]), Gate(CNOT, [a, b])]
  }

  function IswapDecomposition(a: Wire, b: Wire): seq<Op> {
    [Gate(S, [a]), Gate(S, [b]), Gate(Hadamard, [a]), Gate(CNOT, [a, b]), Gate(CNOT, [b, a]), Gate(Hadamard, [b])]
  }

  function SiswapDecomposition(a: Wire, b: Wire): seq<Op> {
    [ Gate(SX, [a]), Rotation(RZ, Pi / 2.0, [a]), Gate(CNOT, [a, b]),
      Gate(SX, [a]), Rotation(RZ, 7.0 * Pi / 4.0, [a]), Gate(SX, [a]),
      Rotation(RZ, Pi / 2.0, [a]), Gate(SX, [b]), Rotation(RZ, 7.0 * Pi / 4.0, [b]),
      Gate(CNOT, [a, b]), Gate(SX, [a]), Gate(SX, [b]) ]
  }

  function CswapDecomposition(a: Wire, b: Wire, c: Wire): seq<Op> {
    [Gate(Toffoli, [a, c, b]), Gate(Toffoli, [a, b, c]), Gate(Toffoli, [a, c, b])]
  }

  /** The Toffoli gate's 15-gate decomposition into H, CNOT and T gates (three of them T.inv). */
  function ToffoliDecomposition(a: Wire, b: Wire, c: Wire): seq<Op> {
    [ Gate(Hadamard, [c]),
      Gate(CNOT, [b, c]),
      Inv(Gate(T, [c])),
      Gate(CNOT, [a, c]),
      Gate(T, [c]),
      Gate(CNOT, [b, c]),
      Inv(Gate(T, [c])),
      Gate(CNOT, [a, c]),
      Gate(T, [c]),
      Gate(T, [b]),
      Gate(CNOT, [a, b]),
      Gate(Hadamard, [c]),
      Gate(T, [a]),
      Inv(Gate(T, [b])),
      Gate(CNOT, [a, b]) ]
  }

  /**
   * `compute_decomposition(wires)` of each kind with a fixed table; None for the kinds
   * the file gives no decomposition (CNOT, CZ) and for those it does not define.
   * MultiControlledX has its own, failing decomposition in module MultiControlled.
   */
  function Decomposition(op: Op): (d: Option<seq<Op>>)
    requires WellFormed(op)
    ensures d.Some? <==> op.kind in {Hadamard, PauliX, PauliY, PauliZ, S, T, SX, CY, SWAP, ISWAP, SISWAP, CSWAP, Toffoli, Barrier}
  {
    var ws := op.wires;
    match op.kind
    case Hadamard | PauliX | PauliY | PauliZ | S | T | SX => Some(OneWireDecomposition(op.kind, ws))
    case CY => Some(CyDecomposition(ws[0], ws[1]))
    case SWAP => Some(SwapDecomposition(ws[0], ws[1]))
    case ISWAP => Some(IswapDecomposition(ws[0], ws[1]))
    case SISWAP => Some(SiswapDecomposition(ws[0], ws[1]))
    case CSWAP => Some(CswapDecomposition(ws[0], ws[1], ws[2]))
    case Toffoli => Some(ToffoliDecomposition(ws[0], ws[1], ws[2]))
    case Barrier => Some([])
    case _ => None
  }

  /** Each gate of a decomposition is well formed and acts only on wires of the decomposed gate. */
  predicate OnOwnWires(d: seq<Op>, ws: seq<Wire>) {
    forall i :: 0 <= i < |d| ==> WellFormed(d[i]) && forall w :: w in d[i].wires ==> w in ws
  }

  lemma {:induction false} DecompositionOnOwnWires(op: Op)
    requires WellFormed(op) && Decomposition(op).Some?
    ensures OnOwnWires(Decomposition(op).value, op.wires)
  {
    var ws := op.wires;
    match op.kind {
      case Hadamard | PauliX | PauliY | PauliZ | S | T | SX =>
        OneWireOnOwnWires(op.kind, ws);
      case CY =>
        CyOnOwnWires(ws[0], ws[1]);
        assert ws == [ws[0], ws[1]];
      case SWAP =>
        SwapOnOwnWires(ws[0], ws[1]);
        assert ws == [ws[0], ws[1]];
      case ISWAP =>
        IswapOnOwnWires(ws[0], ws[1]);
        assert ws == [ws[0], ws[1]];
      case SISWAP =>
        SiswapOnOwnWires(ws[0], ws[1]);
        assert ws == [ws[0], ws[1]];
      case CSWAP =>
        CswapOnOwnWires(ws[0], ws[1], ws[2]);
        assert ws == [ws[0], ws[1], ws[2]];
      case Toffoli =>
        ToffoliOnOwnWires(ws[0], ws[1], ws[2]);
        assert ws == [ws[0], ws[1], ws[2]];
      case Barrier =>
    }
  }

  /** A gate of fixed arity, built by Gate or Rotation, whose wires are distinct and among ws. */
  predicate Plain(g: Op, ws: seq<Wire>) {
    && g.kind !in {MultiControlledX, Barrier}
    && |g.wires| == NumWiresAttr(g.kind) && NoDup(g.wires)
    && |g.params| == NumParams(g.kind) && g.hyper == NoHyper
    && forall w :: w in g.wires ==> w in ws
  }

  lemma {:induction false} PlainOnOwnWires(d: seq<Op>, ws: seq<Wire>)
    requires forall i :: 0 <= i < |d| ==> Plain(d[i], ws)
    ensures OnOwnWires(d, ws)
  {
  }

  lemma {:induction false} OneWireOnOwnWires(k: Kind, ws: seq<Wire>)
    requires k in {Hadamard, PauliX, PauliY, PauliZ, S, T, SX} && |ws| == 1
    ensures OnOwnWires(OneWireDecomposition(k, ws), ws)
  {
    var d := OneWireDecomposition(k, ws);
    forall i | 0 <= i < |d| ensures Plain(d[i], ws) {
      assert d[i].kind in {PhaseShift, RX, RY, RZ} && d[i].wires == ws;
    }
    PlainOnOwnWires(d, ws);
  }

  lemma {:induction false} CyOnOwnWires(a: Wire, b: Wire)
    requires a != b
    ensures OnOwnWires(CyDecomposition(a, b), [a, b])
  {
  }

  lemma {:induction false} SwapOnOwnWires(a: Wire, b: Wire)
    requires a != b
    ensures OnOwnWires(SwapDecomposition(a, b), [a, b])
  {
  }

  lemma {:induction false} IswapOnOwnWires(a: Wire, b: Wire)
    requires a != b
    ensures OnOwnWires(IswapDecomposition(a, b), [a, b])
  {
    var d := IswapDecomposition(a, b);
    forall i | 0 <= i < |d| ensures Plain(d[i], [a, b]) {
      assert d[i].wires in {[a], [b], [a, b], [b, a]};
    }
    PlainOnOwnWires(d, [a, b]);
  }

  lemma {:induction false} SiswapOnOwnWires(a: Wire, b: Wire)
    requires a != b
    ensures OnOwnWires(SiswapDecomposition(a, b), [a, b])
  {
    var d := SiswapDecomposition(a, b);
    forall i | 0 <= i < |d| ensures Plain(d[i], [a, b]) {
      assert d[i].wires in {[a], [b], [a, b]};
    }
    PlainOnOwnWires(d, [a, b]);
  }

  lemma {:induction false} CswapOnOwnWires(a: Wire, b: Wire, c: Wire)
    requires a != b && b != c && a != c
    ensures OnOwnWires(CswapDecomposition(a, b, c), [a, b, c])
  {
  }

  lemma {:induction false} ToffoliOnOwnWires(a: Wire, b: Wire, c: Wire)
    requires a != b && b != c && a != c
    ensures OnOwnWires(ToffoliDecomposition(a, b, c), [a, b, c])
  {
    var d := ToffoliDecomposition(a, b, c);
    forall i | 0 <= i < |d| ensures Plain(d[i], [a, b, c]) {
      assert d[i].wires in {[a], [b], [c], [a, b], [a, c], [b, c]};
      assert d[i].kind in {Hadamard, CNOT, T};
    }
    PlainOnOwnWires(d, [a, b, c]);
  }

  /** SWAP(a, b) is three CNOTs whose control alternates a, b, a. */
  lemma {:induction false} SwapDecompositionShape(op: Op)
    requires WellFormed(op) && op.kind == SWAP
    ensures var d := Decomposition(op).value;
      |d| == 3 && (forall g :: g in d ==> g.kind == CNOT && SetOf(g.wires) == SetOf(op.wires))
      && d[0] == d[2] && d[0].wires == op.wires && d[1].wires == [op.wires[1], op.wires[0]]
  {
  }

  /** CSWAP(w0, w1, w2) is three Toffolis, all controlled first on w0, with the other two wires alternating. */
  lemma {:induction false} CswapDecompositionShape(op: Op)
    requires WellFormed(op) && op.kind == CSWAP
    ensures var d := Decomposition(op).value;
      |d| == 3 && d[0] == d[2]
      && (forall g :: g in d ==> g.kind == Toffoli && g.wires[0] == op.wires[0] && SetOf(g.wires) == SetOf(op.wires))
      && d[1].wires == op.wires && d[0].wires == [op.wires[0], op.wires[2], op.wires[1]]
  {
  }

  /** Toffoli is 15 gates of kinds H, CNOT and T, opening and closing its middle part with H on the target. */
  lemma {:induction false} ToffoliDecompositionKinds(a: Wire, b: Wire, c: Wire)
    ensures var d := ToffoliDecomposition(a, b, c);
      && |d| == 15
      && d[0] == d[11] == Gate(Hadamard, [c])
      && forall i :: 0 <= i < |d| ==> d[i].kind == Hadamard || d[i].kind == CNOT || d[i].kind == T
  {
  }

  /** In the Toffoli decomposition the Hadamards act on the target alone and no CNOT targets the first control. */
  lemma {:induction false} ToffoliDecompositionTargets(a: Wire, b: Wire, c: Wire)
    requires a != b && a != c
    ensures var d := ToffoliDecomposition(a, b, c);
      && (forall i :: 0 <= i < |d| && d[i].kind == Hadamard ==> d[i].wires == [c])
      && (forall i :: 0 <= i < |d| && d[i].kind == CNOT ==> d[i].wires[1] != a)
  {
  }

  /** CY is a controlled RY(pi) on both wires, then an S correction on its control wire. */
  lemma {:induction false} CyDecompositionShape(op: Op)
    requires WellFormed(op) && op.kind == CY
    ensures var d := Decomposition(op).value;
      |d| == 2 && d[0].kind == CRY && d[0].wires == op.wires && d[0].params == [Pi]
      && d[1].kind == S && Some(d[1].wires) == ControlWires(op)
  {
  }

  /** A Barrier decomposes into nothing, whatever its wires. */
  lemma {:induction false} BarrierDecompositionEmpty(op: Op)
    requires WellFormed(op) && op.kind == Barrier
    ensures Decomposition(op) == Some([])
  {
  }

  /**
   * Every Z, S and T gate decomposes into a single phase shift on its own wire, and the angles
   * halve down the ladder: T twice is S, and S twice is Z.
   */
  lemma {:induction false} PhaseLadder(op: Op)
    requires WellFormed(op) && op.kind in {PauliZ, S, T}
    ensures var d := Decomposition(op).value;
      && |d| == 1 && WellFormed(d[0]) && d[0].kind == PhaseShift && d[0].wires == op.wires && !d[0].inverse
      && (op.kind == T ==> 2.0 * d[0].params[0] == Decomposition(Gate(S, op.wires)).value[0].params[0])
      && (op.kind == S ==> 2.0 * d[0].params[0] == Decomposition(Gate(PauliZ, op.wires)).value[0].params[0])
  {
  }

  // ---------------------------------------------------------------------------------------
  // Adjoints
  // ---------------------------------------------------------------------------------------

  /** The kinds that are marked S, T, SX, ISWAP and SISWAP: their adjoint is the inverse-marked gate. */
  predicate MarkedAdjoint(k: Kind) {
    k in {S, T, SX, ISWAP, SISWAP}
  }

  /**
   * `adjoint()` as the file writes it: self-inverse kinds rebuild the same gate;
   * S, T, SX, ISWAP and SISWAP return a fresh gate with the inverse marker set, whatever
   * the marker of the gate itself; MultiControlledX keeps controls, target, control values
   * and work wires. None for kinds whose adjoint is not defined in the file.
   */
  function AdjointAsWritten(op: Op): (a: Option<Op>)
    requires WellFormed(op)
    ensures a.Some? <==> IsSelfInverse(op.kind) || MarkedAdjoint(op.kind)
    ensures a.Some? ==> a.value.kind == op.kind && a.value.wires == op.wires && a.value.hyper == op.hyper
    ensures a.Some? ==> (a.value.inverse <==> MarkedAdjoint(op.kind))
  {
    if op.kind == MultiControlledX then Some(Op(MultiControlledX, op.wires, [], false, op.hyper))
    else if IsSelfInverse(op.kind) then Some(Gate(op.kind, op.wires))
    else if MarkedAdjoint(op.kind) then Some(Inv(Gate(op.kind, op.wires)))
    else None
  }

  /**
   * Whether an operation applies the inverse of its class's unitary. The marker is
   * irrelevant on self-inverse kinds.
   */
  predicate AppliesInverse(op: Op) {
    op.inverse && !IsSelfInverse(op.kind)
  }

  /** The adjoint with the inverse marker toggled rather than set, for the marked kinds. */
  function Adjoint(op: Op): (a: Option<Op>)
    requires WellFormed(op)
    ensures a.Some? <==> IsSelfInverse(op.kind) || MarkedAdjoint(op.kind)
    ensures a.Some? ==> WellFormed(a.value)
    ensures a.Some? ==> a.value.kind == op.kind && a.value.wires == op.wires && a.value.hyper == op.hyper
    ensures a.Some? && !IsSelfInverse(op.kind) ==> (AppliesInverse(a.value) <==> !AppliesInverse(op))
    ensures a.Some? && IsSelfInverse(op.kind) ==> !AppliesInverse(a.value)
  {
    if MarkedAdjoint(op.kind) then Some(Inv(op)) else AdjointAsWritten(op)
  }

  /** Self-inverse kinds are exactly those whose adjoint applies the same unitary as the gate. */
  lemma {:induction false} SelfInverseAdjoint(op: Op)
    requires WellFormed(op)
    requires IsSelfInverse(op.kind) || MarkedAdjoint(op.kind)
    ensures IsSelfInverse(op.kind) ==> Adjoint(op) == Some(op.(inverse := false))
    ensures IsSelfInverse(op.kind) <==> AppliesInverse(Adjoint(op).value) == AppliesInverse(op)
  {
  }

  /** With the marker toggled, taking the adjoint twice gives back the gate (up to a marker on a self-inverse kind). */
  lemma {:induction false} AdjointInvolution(op: Op)
    requires WellFormed(op) && Adjoint(op).Some?
    ensures Adjoint(Adjoint(op).value).Some?
    ensures var b := Adjoint(Adjoint(op).value).value;
      b.kind == op.kind && b.wires == op.wires && b.hyper == op.hyper && AppliesInverse(b) == AppliesInverse(op)
  {
  }

  /** As written, the adjoint of S.inv is S.inv again rather than S. */
  lemma {:induction false} AdjointAsWrittenNotInvolution(w: Wire)
    ensures var s := Gate(S, [w]);
      WellFormed(s) && AdjointAsWritten(s) == Some(Inv(s))
      && AdjointAsWritten(AdjointAsWritten(s).value) == Some(Inv(s)) && Inv(s) != s
  {
  }

  // ---------------------------------------------------------------------------------------
  // Controlled forms and control wires
  // ---------------------------------------------------------------------------------------

  /** The kinds whose class defines `_controlled`. */
  predicate HasControlledForm(k: Kind) {
    k in {PauliX, PauliY, PauliZ, CNOT, SWAP}
  }

  /** The kind `_controlled` builds: CNOT, CY, CZ, Toffoli and CSWAP, one control more. */
  function ControlledKind(k: Kind): (c: Kind)
    requires HasControlledForm(k)
    ensures NumWiresAttr(c) == NumWiresAttr(k) + 1 && NumParams(c) == 0
  {
    match k
    case PauliX => CNOT
    case PauliY => CY
    case PauliZ => CZ
    case CNOT => Toffoli
    case SWAP => CSWAP
  }

  /**
   * `_controlled(wire)`: the gate controlled on one extra wire, built on `Wires(wire) +
   * self.wires`. Wires addition drops a label already present, so a control on one of the
   * gate's own wires leaves the new gate a wire short and its construction fails.
   */
  function Controlled(op: Op, c: Wire): (r: Result<Op>)
    requires WellFormed(op)
    ensures r.Ok? <==> HasControlledForm(op.kind) && c !in op.wires
    ensures !HasControlledForm(op.kind) ==> r == Err(NoControlledForm)
    ensures HasControlledForm(op.kind) && c in op.wires ==> r == Err(WrongWireCount)
    ensures r.Ok? ==> WellFormed(r.value) && r.value.kind == ControlledKind(op.kind) && r.value.wires == [c] + op.wires
  {
    if !HasControlledForm(op.kind) then Err(NoControlledForm)
    else
      var k := ControlledKind(op.kind);
      var ws := Union([c], op.wires);
      assert NoDup(ws) && (c !in op.wires ==> ws == [c] + op.wires) by {
        UnionNoDup([c], op.wires);
      }
      assert c in op.wires ==> |ws| < 1 + |op.wires| by {
        if c in op.wires {
          UnionOverlap([c], op.wires, c);
        }
      }
      if |ws| != NumWiresAttr(k) then Err(WrongWireCount)
      else
        Ok(Gate(k, ws))
  }

  /**
   * The `control_wires` property: the first wire of CNOT, CZ, CY and CSWAP, the first two of
   * Toffoli, all but the last of MultiControlledX. None where the file does not define it.
   */
  function ControlWires(op: Op): (cw: Option<seq<Wire>>)
    requires WellFormed(op)
    ensures cw.Some? <==> op.kind in {CNOT, CZ, CY, CSWAP, Toffoli, MultiControlledX}
    ensures cw.Some? ==> 1 <= |cw.value| < |op.wires| && cw.value == op.wires[..|cw.value|]
  {
    match op.kind
    case CNOT | CZ | CY | CSWAP => Some([op.wires[0]])
    case Toffoli => Some(op.wires[..2])
    case MultiControlledX => Some(op.wires[..|op.wires| - 1])
    case _ => None
  }

  /** The controlled form is controlled on exactly the added wire, prepended to the controls it already had. */
  lemma {:induction false} ControlledControlWires(op: Op, c: Wire)
    requires WellFormed(op) && Controlled(op, c).Ok?
    ensures var g := Controlled(op, c).value;
      ControlWires(g).Some?
      && ControlWires(g).value == [c] + (if ControlWires(op).Some? then ControlWires(op).value else [])
      && g.wires[|ControlWires(g).value|..] == op.wires[|ControlWires(g).value| - 1..]
  {
    var g := Controlled(op, c).value;
    match op.kind {
      case CNOT =>
        assert g.wires[..2] == [c] + op.wires[..1];
      case _ =>
    }
  }
}
