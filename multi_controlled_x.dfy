/**
 * MultiControlledX of pennylane/ops/qubit/non_parametric_ops.py: construction and validation,
 * the control-value bit string, the lazily cached matrix, the adjoint, and the Toffoli-ladder
 * decompositions of Lemmas 7.2 and 7.3 of Barenco et al. (arXiv quant-ph/9503016).
 */
module MultiControlled {
  import opened Results
  import opened Wires
  import opened Binary
  import opened Sequences
  import opened Operators

  // ---------------------------------------------------------------------------------------
  // Construction
  // ---------------------------------------------------------------------------------------

  /** The `control_values` argument as passed: absent, a string, or some other value with its truth value. */
  datatype ControlArg = Unset | Text(s: string) | Other(truthy: bool)

  predicate Falsy(cv: ControlArg) {
    cv.Unset? || (cv.Text? && cv.s == []) || (cv.Other? && !cv.truthy)
  }

  /** A falsy argument is replaced by the all-ones string, one '1' per control wire. */
  function EffectiveControls(cv: ControlArg, n: nat): (e: ControlArg)
    ensures Falsy(cv) ==> e == Text(Ones(n))
    ensures !Falsy(cv) ==> e == cv
  {
    if Falsy(cv) then Text(Ones(n)) else cv
  }

  /**
   * `_parse_control_values`: the string must have one character per control wire, each
   * '0' or '1', and is read as a binary number (an empty string is no number at all).
   */
  function ParseControlValues(controls: seq<Wire>, cv: ControlArg): (r: Result<nat>)
    ensures r.Ok? <==> cv.Text? && |cv.s| == |controls| && IsBitString(cv.s) && cv.s != []
    ensures r.Ok? ==> r.value == BinaryValue(cv.s) && r.value < Pow2(|controls|)
    ensures !cv.Text? ==> r == Err(ControlValuesNotString)
    ensures cv.Text? && |cv.s| != |controls| ==> r == Err(ControlLengthMismatch)
    ensures cv.Text? && |cv.s| == |controls| && !IsBitString(cv.s) ==> r == Err(ControlValueNotBinary)
    ensures cv.Text? && cv.s == [] && |controls| == 0 ==> r == Err(EmptyBinaryLiteral)
  {
    match cv
    case Text(s) =>
      if |s| != |controls| then Err(ControlLengthMismatch)
      else if !IsBitString(s) then Err(ControlValueNotBinary)
      else if s == [] then Err(EmptyBinaryLiteral)
      else Ok(BinaryValue(s))
    case _ => Err(ControlValuesNotString)
  }

  /** The private fields `__init__` sets. */
  datatype Fields = Fields(
    targetWire: Wire,
    workWires: seq<Wire>,
    controlWires: seq<Wire>,
    wires: seq<Wire>,
    controlValues: string,
    paddingLeft: nat,
    paddingRight: int)

  /** No list holds a label twice, as building each Wires object demands. */
  predicate Distinct(controls: seq<Wire>, target: seq<Wire>, work: seq<Wire>) {
    NoDup(controls) && NoDup(target) && NoDup(work)
  }

  /**
   * `__init__` without its side effects: turn each wire list into Wires (which refuses a
   * repeated label), validate the target and work wires, place the target after the
   * controls, default and parse the control string, compute the paddings.
   */
  function Construct(controls: seq<Wire>, target: seq<Wire>, cv: ControlArg, work: seq<Wire>): (r: Result<Fields>)
    ensures !Distinct(controls, target, work) ==> r == Err(DuplicateWires)
    ensures Distinct(controls, target, work) && |target| != 1 ==> r == Err(SingleTargetRequired)
    ensures Distinct(controls, target, work) && |target| == 1 && !(Disjoint(target, work) && Disjoint(controls, work)) ==>
      r == Err(WorkWireConflict)
    ensures Distinct(controls, target, work) && |target| == 1 && Disjoint(target, work) && Disjoint(controls, work) ==>
      var parsed := ParseControlValues(controls, EffectiveControls(cv, |controls|));
      parsed.Err? ==> r == Err(parsed.error)
    ensures r.Ok? <==>
      Distinct(controls, target, work) && |target| == 1 && Disjoint(target, work) && Disjoint(controls, work)
      && ParseControlValues(controls, EffectiveControls(cv, |controls|)).Ok?
    ensures r.Ok? ==> ValidFields(r.value)
    ensures r.Ok? ==>
      && r.value.targetWire == target[0] && r.value.controlWires == controls && r.value.workWires == work
      && r.value.controlValues == EffectiveControls(cv, |controls|).s
  {
    if !Distinct(controls, target, work) then Err(DuplicateWires)
    else if |target| != 1 then Err(SingleTargetRequired)
    else if SharedWires(target, work) != {} || SharedWires(controls, work) != {} then Err(WorkWireConflict)
    else
      var wires := Union(controls, target);
      var effective := EffectiveControls(cv, |controls|);
      var controlInt :- ParseControlValues(controls, effective);
      var paddingLeft := controlInt * 2;
      UnionNoDup(controls, target);
      assert target == [target[0]];
      Ok(Fields(target[0], work, controls, wires, effective.s, paddingLeft, Pow2(|wires|) - 2 - paddingLeft))
  }

  /** The fields every successfully constructed MultiControlledX holds. */
  predicate ValidFields(f: Fields) {
    && NoDup(f.controlWires) && NoDup(f.workWires) && NoDup(f.wires)
    && f.wires == Union(f.controlWires, [f.targetWire])
    && Disjoint(f.wires, f.workWires)
    && IsBitString(f.controlValues) && |f.controlValues| == |f.controlWires| && f.controlValues != []
    && f.paddingLeft == 2 * BinaryValue(f.controlValues)
    && f.paddingLeft + 2 + f.paddingRight == Pow2(|f.wires|)
  }

  /**
   * With the target not among the controls, the wires are the controls followed by the
   * target, and the X block sits at rows 2c and 2c + 1 of a 2^(n+1) matrix: paddings are
   * non-negative and add up with the block to the full dimension.
   */
  lemma {:induction false} PaddingArithmetic(f: Fields)
    requires ValidFields(f) && f.targetWire !in f.controlWires
    ensures f.wires == f.controlWires + [f.targetWire]
    ensures f.paddingLeft + 2 + f.paddingRight == Pow2(|f.controlWires| + 1)
    ensures f.paddingRight >= 0 && f.paddingLeft % 2 == 0
    ensures f.paddingLeft == 2 * Index(BitsOfString(f.controlValues))
  {
    UnionNoDup(f.controlWires, [f.targetWire]);
    BinaryValueIsIndex(f.controlValues);
  }

  /** An absent or empty control string controls on the all-ones state. */
  lemma {:induction false} DefaultControlValues(controls: seq<Wire>, target: seq<Wire>, cv: ControlArg, work: seq<Wire>)
    requires NoDup(controls) && NoDup(target) && NoDup(work) && Falsy(cv)
    requires |target| == 1 && Disjoint(target, work) && Disjoint(controls, work) && controls != []
    ensures Construct(controls, target, cv, work).Ok?
    ensures Construct(controls, target, cv, work).value.controlValues == Ones(|controls|)
    ensures Construct(controls, target, cv, work).value.paddingLeft == Pow2(|controls|) * 2 - 2
  {
    OnesValue(|controls|);
  }

  lemma {:induction false} OnesValue(n: nat)
    ensures BinaryValue(Ones(n)) == Pow2(n) - 1
  {
    if n > 0 {
      OnesValue(n - 1);
      assert Ones(n)[..n - 1] == Ones(n - 1);
    }
  }

  /** Without control wires even the default string is empty, and parsing it fails. */
  lemma {:induction false} NoControlsRejected(target: seq<Wire>, cv: ControlArg, work: seq<Wire>)
    ensures Construct([], target, cv, work).Err?
  {
  }

  // ---------------------------------------------------------------------------------------
  // The matrix
  // ---------------------------------------------------------------------------------------

  /** The permutation of basis indices that exchanges p and p + 1. */
  function SwapPair(p: nat, i: nat): nat {
    if i == p then p + 1 else if i == p + 1 then p else i
  }

  /** Exchanging twice is the identity: the block matrix is its own inverse as a permutation. */
  lemma {:induction false} SwapPairInvolution(p: nat, i: nat)
    ensures SwapPair(p, SwapPair(p, i)) == i
  {
  }

  /** block_diag(eye(pl), X, eye(pr)). */
  function BlockDiagX(pl: nat, pr: nat): (m: seq<seq<int>>)
    ensures |m| == pl + 2 + pr && forall i :: 0 <= i < |m| ==> |m[i]| == |m|
  {
    seq(pl + 2 + pr, i requires 0 <= i < pl + 2 + pr => seq(pl + 2 + pr, j => if j == SwapPair(pl, i) then 1 else 0))
  }

  /** The matrix is the identity except that rows pl and pl + 1 are exchanged: X on the block. */
  lemma {:induction false} BlockDiagXEntries(pl: nat, pr: nat)
    ensures var m := BlockDiagX(pl, pr);
      && (forall i, j :: 0 <= i < |m| && 0 <= j < |m| && i != pl && i != pl + 1 ==> m[i][j] == (if i == j then 1 else 0))
      && m[pl][pl] == 0 && m[pl][pl + 1] == 1 && m[pl + 1][pl] == 1 && m[pl + 1][pl + 1] == 0
      && (forall i, j :: 0 <= i < |m| && 0 <= j < |m| ==> m[i][j] == m[j][i])
  {
  }

  // ---------------------------------------------------------------------------------------
  // The operator object
  // ---------------------------------------------------------------------------------------

  class MultiControlledX {
    var targetWire: Wire
    var workWires: seq<Wire>
    var controlWires: seq<Wire>
    var wires: seq<Wire>
    var controlValues: string
    var paddingLeft: nat
    var paddingRight: int
    /** The `_CX` cache that `_matrix` fills on first use. */
    var cx: Option<seq<seq<int>>>

    function FieldsOf(): Fields
      reads this
    {
      Fields(targetWire, workWires, controlWires, wires, controlValues, paddingLeft, paddingRight)
    }

    /** The fields come from a successful construction, and a filled cache holds the block matrix. */
    ghost predicate Valid()
      reads this
    {
      && ValidFields(FieldsOf())
      && (cx.Some? ==> paddingRight >= 0 && cx.value == BlockDiagX(paddingLeft, paddingRight))
    }

    constructor Init(f: Fields)
      requires ValidFields(f)
      ensures FieldsOf() == f && cx == None && Valid()
    {
      targetWire := f.targetWire;
      workWires := f.workWires;
      controlWires := f.controlWires;
      wires := f.wires;
      controlValues := f.controlValues;
      paddingLeft := f.paddingLeft;
      paddingRight := f.paddingRight;
      cx := None;
    }

    /** `MultiControlledX(control_wires=..., wires=..., control_values=..., work_wires=...)`. */
    static method New(controls: seq<Wire>, target: seq<Wire>, cv: ControlArg, work: seq<Wire>)
      returns (r: Result<MultiControlledX>)
      ensures r.Err? <==> Construct(controls, target, cv, work).Err?
      ensures r.Err? ==> r.error == Construct(controls, target, cv, work).error
      ensures r.Ok? ==> fresh(r.value) && r.value.Valid() && r.value.cx == None
      ensures r.Ok? ==> r.value.FieldsOf() == Construct(controls, target, cv, work).value
    {
      var f :- Construct(controls, target, cv, work);
      var m := new MultiControlledX.Init(f);
      r := Ok(m);
    }

    /**
     * `_matrix`: builds block_diag(eye(pl), X, eye(pr)) on first use and caches it; np.eye
     * rejects a negative right padding.
     */
    method Matrix() returns (r: Result<seq<seq<int>>>)
      requires Valid()
      modifies this`cx
      ensures Valid()
      ensures r.Ok? <==> paddingRight >= 0
      ensures r.Ok? ==> r.value == BlockDiagX(paddingLeft, paddingRight) && cx == Some(r.value)
      ensures r.Err? ==> r.error == NegativeDimension && cx == old(cx)
    {
      if cx.None? {
        if paddingRight < 0 {
          return Err(NegativeDimension);
        }
        cx := Some(BlockDiagX(paddingLeft, paddingRight));
      }
      r := Ok(cx.value);
    }

    /** The gate as a tape operation: controls then target, no angles, the two hyperparameters. */
    function AsOp(): (op: Op)
      reads this
      ensures ValidFields(FieldsOf()) && targetWire !in controlWires ==>
        WellFormed(op) && ControlWires(op) == Some(controlWires) && op.wires[|op.wires| - 1] == targetWire
    {
      assert ValidFields(FieldsOf()) && targetWire !in controlWires ==> wires == controlWires + [targetWire] by {
        if ValidFields(FieldsOf()) && targetWire !in controlWires {
          PaddingArithmetic(FieldsOf());
        }
      }
      Op(MultiControlledX, wires, [], false, McxHyper(controlValues, workWires))
    }

    /**
     * `adjoint()`: a new MultiControlledX on all wires but the last as controls, the last as
     * target, with the same control string and work wires. When the target was among the
     * controls the wires are the controls alone, so the new gate has one control fewer than
     * the string has characters, and its construction fails.
     */
    method Adjoint() returns (r: Result<MultiControlledX>)
      requires Valid()
      ensures targetWire !in controlWires ==>
        r.Ok? && fresh(r.value) && r.value.FieldsOf() == FieldsOf() && r.value.cx == None
      ensures targetWire in controlWires ==> r == Err(ControlLengthMismatch)
    {
      assert |wires| >= |controlWires| == |controlValues| > 0;
      var controls := wires[..|wires| - 1];
      var target := [wires[|wires| - 1]];
      if targetWire !in controlWires {
        Reconstruct(FieldsOf());
      } else {
        ReconstructOnControl(FieldsOf());
      }
      r := New(controls, target, Text(controlValues), workWires);
    }
  }

  /** Constructing again from the wires, control string and work wires of a gate gives the same fields. */
  lemma {:induction false} Reconstruct(f: Fields)
    requires ValidFields(f) && f.targetWire !in f.controlWires
    ensures var n := |f.wires| - 1;
      n >= 0 && f.wires[..n] == f.controlWires && [f.wires[n]] == [f.targetWire]
      && Construct(f.wires[..n], [f.wires[n]], Text(f.controlValues), f.workWires) == Ok(f)
  {
    PaddingArithmetic(f);
    var n := |f.wires| - 1;
    assert f.wires[..n] == f.controlWires;
  }

  /**
   * When the target is one of the controls, the wires are the controls alone; constructing
   * again from them passes the wire checks but finds one control fewer than the string has
   * characters.
   */
  lemma {:induction false} ReconstructOnControl(f: Fields)
    requires ValidFields(f) && f.targetWire in f.controlWires
    ensures var n := |f.wires| - 1;
      n >= 0 && Construct(f.wires[..n], [f.wires[n]], Text(f.controlValues), f.workWires) == Err(ControlLengthMismatch)
  {
    UnionAbsorbs(f.controlWires, f.targetWire);
    var n := |f.wires| - 1;
    var controls, target := f.wires[..n], [f.wires[n]];
    assert f.wires == controls + target;
    assert Distinct(controls, target, f.workWires);
    assert Disjoint(target, f.workWires) && Disjoint(controls, f.workWires);
  }

  // ---------------------------------------------------------------------------------------
  // Decomposition
  // ---------------------------------------------------------------------------------------

  /** The indices of the '0' characters, in increasing order. */
  function ZeroPositions(cv: string): (z: seq<nat>)
    ensures forall k :: 0 <= k < |z| ==> z[k] < |cv| && cv[z[k]] == '0'
    ensures forall i :: 0 <= i < |cv| && cv[i] == '0' ==> i in z
    ensures forall k, l :: 0 <= k < l < |z| ==> z[k] < z[l]
  {
    if cv == [] then []
    else ZeroPositions(cv[..|cv| - 1]) + (if cv[|cv| - 1] == '0' then [|cv| - 1] else [])
  }

  /** One PauliX per '0' of the control string, on the matching control wire. */
  function Flips(cs: seq<Wire>, cv: string): (r: Result<seq<Op>>)
    ensures r.Ok? <==> forall i :: 0 <= i < |cv| && cv[i] == '0' ==> i < |cs|
    ensures r.Ok? ==> |r.value| == |ZeroPositions(cv)|
    ensures r.Ok? ==> forall k :: 0 <= k < |r.value| ==> r.value[k] == Gate(PauliX, [cs[ZeroPositions(cv)[k]]])
  {
    var z := ZeroPositions(cv);
    if forall k :: 0 <= k < |z| ==> z[k] < |cs| then
      Ok(seq(|z|, k requires 0 <= k < |z| => Gate(PauliX, [cs[z[k]]])))
    else
      Err(IndexOutOfRange)
  }

  /** W(k): the k-th work wire, and the target as W(m) where m is the number of work wires used. */
  function W(t: Wire, ws: seq<Wire>, k: nat): Wire
    requires k <= |ws|
  {
    if k == |ws| then t else ws[k]
  }

  /** Rung k of the ladder: flip W(k + 1) when control k + 2 and W(k) are both set. */
  function Rung(cs: seq<Wire>, t: Wire, ws: seq<Wire>, k: nat): Op
    requires |cs| == |ws| + 2 && k < |ws|
  {
    Gate(Toffoli, [cs[k + 2], W(t, ws, k), W(t, ws, k + 1)])
  }

  /** The foot of the ladder: flip W(0) when the first two controls are set. */
  function Base(cs: seq<Wire>, ws: seq<Wire>): Op
    requires |cs| >= 2 && |ws| >= 1
  {
    Gate(Toffoli, [cs[0], cs[1], ws[0]])
  }

  function Down(cs: seq<Wire>, t: Wire, ws: seq<Wire>, h: nat): (d: seq<Op>)
    requires |cs| == |ws| + 2 && h <= |ws|
    ensures |d| == h
  {
    seq(h, i requires 0 <= i < h => Rung(cs, t, ws, h - 1 - i))
  }

  function Up(cs: seq<Wire>, t: Wire, ws: seq<Wire>, h: nat): (u: seq<Op>)
    requires |cs| == |ws| + 2 && h <= |ws|
    ensures |u| == h
  {
    seq(h, i requires 0 <= i < h => Rung(cs, t, ws, i))
  }

  /** Rungs h - 1 down to 0, the foot, rungs 0 up to h - 1. */
  function Ladder(cs: seq<Wire>, t: Wire, ws: seq<Wire>, h: nat): seq<Op>
    requires |cs| == |ws| + 2 && 1 <= |ws| && h <= |ws|
  {
    Down(cs, t, ws, h) + [Base(cs, ws)] + Up(cs, t, ws, h)
  }

  /** Lemma 7.2 with the first n - 2 work wires: the full ladder, then the ladder one rung shorter. */
  function ManyWorkers(cs: seq<Wire>, t: Wire, work: seq<Wire>): seq<Op>
    requires |cs| >= 3 && |work| >= |cs| - 2
  {
    var ws := work[..|cs| - 2];
    Ladder(cs, t, ws, |ws|) + Ladder(cs, t, ws, |ws| - 1)
  }

  /** The Toffoli the first and second loops append at index i is rung m - 1 - i. */
  lemma {:induction false} OuterRung(cs: seq<Wire>, t: Wire, ws: seq<Wire>, i: nat)
    requires |cs| == |ws| + 2 && i < |ws|
    ensures Gate(Toffoli, [Reversed(cs)[i], Reversed(ws)[i], if i == 0 then t else Reversed(ws)[i - 1]])
         == Rung(cs, t, ws, |ws| - 1 - i)
  {
  }

  /** The Toffoli the third and fourth loops append at index j is rung m - 2 - j. */
  lemma {:induction false} InnerRung(cs: seq<Wire>, t: Wire, ws: seq<Wire>, j: nat)
    requires |cs| == |ws| + 2 && j + 1 < |ws|
    ensures Gate(Toffoli, [Reversed(cs)[j + 1], Reversed(ws)[j + 1], Reversed(ws)[j]])
         == Rung(cs, t, ws, |ws| - 2 - j)
  {
  }

  /** A Toffoli on three wires drawn from the controls, the work wires in use and the target. */
  predicate ToffoliAmong(g: Op, cs: seq<Wire>, ws: seq<Wire>, t: Wire) {
    g.kind == Toffoli && |g.wires| == 3 && forall w :: w in g.wires ==> w in cs || w in ws || w == t
  }

  /** Controls, work wires in use and target are pairwise distinct labels. */
  predicate Separate(cs: seq<Wire>, ws: seq<Wire>, t: Wire) {
    NoDup(cs) && NoDup(ws) && Disjoint(cs, ws) && t !in cs && t !in ws
  }

  lemma {:induction false} RungAmong(cs: seq<Wire>, t: Wire, ws: seq<Wire>, k: nat)
    requires |cs| == |ws| + 2 && k < |ws|
    ensures ToffoliAmong(Rung(cs, t, ws, k), cs, ws, t)
    ensures Separate(cs, ws, t) ==> NoDup(Rung(cs, t, ws, k).wires)
  {
    if Separate(cs, ws, t) {
      var a, b, c := cs[k + 2], W(t, ws, k), W(t, ws, k + 1);
      assert Rung(cs, t, ws, k).wires == [a, b, c];
      assert b == ws[k] && (c == t || c == ws[k + 1]);
      assert a in cs;
      assert a != b && a != c && b != c;
    }
  }

  lemma {:induction false} BaseAmong(cs: seq<Wire>, t: Wire, ws: seq<Wire>)
    requires |cs| == |ws| + 2 && 1 <= |ws|
    ensures ToffoliAmong(Base(cs, ws), cs, ws, t)
    ensures Separate(cs, ws, t) ==> NoDup(Base(cs, ws).wires)
  {
    if Separate(cs, ws, t) {
      assert cs[0] != cs[1] && ws[0] !in cs;
    }
  }

  /** A ladder of height h holds 2h + 1 Toffolis, each on three distinct wires of the gate. */
  lemma {:induction false} LadderAmong(cs: seq<Wire>, t: Wire, ws: seq<Wire>, h: nat)
    requires |cs| == |ws| + 2 && 1 <= |ws| && h <= |ws|
    ensures var l := Ladder(cs, t, ws, h);
      && |l| == 2 * h + 1
      && (forall i :: 0 <= i < |l| ==> ToffoliAmong(l[i], cs, ws, t))
      && (Separate(cs, ws, t) ==> forall i :: 0 <= i < |l| ==> NoDup(l[i].wires))
  {
    var l := Ladder(cs, t, ws, h);
    forall i | 0 <= i < |l|
      ensures ToffoliAmong(l[i], cs, ws, t) && (Separate(cs, ws, t) ==> NoDup(l[i].wires))
    {
      if i < h {
        assert l[i] == Rung(cs, t, ws, h - 1 - i);
        RungAmong(cs, t, ws, h - 1 - i);
      } else if i == h {
        assert l[i] == Base(cs, ws);
        BaseAmong(cs, t, ws);
      } else {
        assert l[i] == Rung(cs, t, ws, i - h - 1);
        RungAmong(cs, t, ws, i - h - 1);
      }
    }
  }

  /**
   * Lemma 7.2 uses the first n - 2 work wires only: 4(n - 2) Toffolis, the first one targeting
   * the target wire, each on three wires among the controls, those work wires and the target,
   * distinct when the inputs are.
   */
  lemma {:induction false} ManyWorkersShape(cs: seq<Wire>, t: Wire, work: seq<Wire>)
    requires |cs| >= 3 && |work| >= |cs| - 2
    ensures var d, ws := ManyWorkers(cs, t, work), work[..|cs| - 2];
      && |d| == 4 * (|cs| - 2) && d[0].wires[2] == t
      && (forall i :: 0 <= i < |d| ==> ToffoliAmong(d[i], cs, ws, t))
      && (Separate(cs, ws, t) ==> forall i :: 0 <= i < |d| ==> NoDup(d[i].wires))
  {
    var ws := work[..|cs| - 2];
    var m := |ws|;
    var a, b := Ladder(cs, t, ws, m), Ladder(cs, t, ws, m - 1);
    LadderAmong(cs, t, ws, m);
    LadderAmong(cs, t, ws, m - 1);
    var d := a + b;
    assert d == ManyWorkers(cs, t, work);
    assert d[0] == Rung(cs, t, ws, m - 1);
    forall i | 0 <= i < |d|
      ensures ToffoliAmong(d[i], cs, ws, t) && (Separate(cs, ws, t) ==> NoDup(d[i].wires))
    {
      if i < |a| { assert d[i] == a[i]; } else { assert d[i] == b[i - |a|]; }
    }
  }

  /**
   * `_decomposition_with_many_workers`: four index loops appending Toffolis, each loop in a
   * method of its own below, with the foot of the ladder appended between them.
   */
  method DecompositionWithManyWorkers(cs: seq<Wire>, t: Wire, work: seq<Wire>) returns (gates: seq<Op>)
    requires |cs| >= 3 && |work| >= |cs| - 2
    ensures gates == ManyWorkers(cs, t, work)
  {
    var m := |cs| - 2;
    var ws := work[..m];
    var wr := Reversed(ws);
    var cr := Reversed(cs);
    gates := [];
    gates := OuterLoopDown(gates, cs, t, ws, cr, wr);
    assert cs[..2] + [ws[0]] == [cs[0], cs[1], ws[0]];
    gates := gates + [Gate(Toffoli, cs[..2] + [ws[0]])];
    gates := OuterLoopUp(gates, cs, t, ws, cr, wr);
    assert gates == Ladder(cs, t, ws, m);
    gates := InnerLoopDown(gates, cs, t, ws, cr, wr);
    gates := gates + [Gate(Toffoli, cs[..2] + [ws[0]])];
    gates := InnerLoopUp(gates, cs, t, ws, cr, wr);
  }

  /** `for i in range(len(work_wires))`: Toffoli(controls reversed [i], work reversed [i], target or work reversed [i - 1]). */
  method OuterLoopDown(g0: seq<Op>, cs: seq<Wire>, t: Wire, ws: seq<Wire>, cr: seq<Wire>, wr: seq<Wire>)
    returns (gates: seq<Op>)
    requires |cs| == |ws| + 2 && cr == Reversed(cs) && wr == Reversed(ws)
    ensures gates == g0 + Down(cs, t, ws, |ws|)
  {
    ghost var down := Down(cs, t, ws, |ws|);
    gates := g0;
    for i := 0 to |ws|
      invariant gates == g0 + down[..i]
    {
      var target := if i == 0 then t else wr[i - 1];
      OuterRung(cs, t, ws, i);
      gates := gates + [Gate(Toffoli, [cr[i], wr[i], target])];
      TakeSnoc(down, i);
    }
    assert down[..|ws|] == down;
  }

  /** `for i in reversed(range(len(work_wires)))`, the same Toffolis in the opposite order. */
  method OuterLoopUp(g0: seq<Op>, cs: seq<Wire>, t: Wire, ws: seq<Wire>, cr: seq<Wire>, wr: seq<Wire>)
    returns (gates: seq<Op>)
    requires |cs| == |ws| + 2 && cr == Reversed(cs) && wr == Reversed(ws)
    ensures gates == g0 + Up(cs, t, ws, |ws|)
  {
    ghost var up := Up(cs, t, ws, |ws|);
    var m := |ws|;
    gates := g0;
    var i := m;
    while i > 0
      invariant 0 <= i <= m
      invariant gates == g0 + up[..m - i]
    {
      i := i - 1;
      var target := if i == 0 then t else wr[i - 1];
      OuterRung(cs, t, ws, i);
      gates := gates + [Gate(Toffoli, [cr[i], wr[i], target])];
      TakeSnoc(up, m - 1 - i);
    }
    assert up[..m] == up;
  }

  /** `for i in range(len(work_wires) - 1)`: Toffoli(controls reversed [i + 1], work reversed [i + 1], work reversed [i]). */
  method InnerLoopDown(g0: seq<Op>, cs: seq<Wire>, t: Wire, ws: seq<Wire>, cr: seq<Wire>, wr: seq<Wire>)
    returns (gates: seq<Op>)
    requires |cs| == |ws| + 2 && |ws| >= 1 && cr == Reversed(cs) && wr == Reversed(ws)
    ensures gates == g0 + Down(cs, t, ws, |ws| - 1)
  {
    ghost var down := Down(cs, t, ws, |ws| - 1);
    gates := g0;
    for j := 0 to |ws| - 1
      invariant gates == g0 + down[..j]
    {
      InnerRung(cs, t, ws, j);
      gates := gates + [Gate(Toffoli, [cr[j + 1], wr[j + 1], wr[j]])];
      TakeSnoc(down, j);
    }
    assert down[..|ws| - 1] == down;
  }

  /** `for i in reversed(range(len(work_wires) - 1))`, the same Toffolis in the opposite order. */
  method InnerLoopUp(g0: seq<Op>, cs: seq<Wire>, t: Wire, ws: seq<Wire>, cr: seq<Wire>, wr: seq<Wire>)
    returns (gates: seq<Op>)
    requires |cs| == |ws| + 2 && |ws| >= 1 && cr == Reversed(cs) && wr == Reversed(ws)
    ensures gates == g0 + Up(cs, t, ws, |ws| - 1)
  {
    ghost var up := Up(cs, t, ws, |ws| - 1);
    var m := |ws| - 1;
    gates := g0;
    var i := m;
    while i > 0
      invariant 0 <= i <= m
      invariant gates == g0 + up[..m - i]
    {
      i := i - 1;
      InnerRung(cs, t, ws, i);
      gates := gates + [Gate(Toffoli, [cr[i + 1], wr[i + 1], wr[i]])];
      TakeSnoc(up, m - 1 - i);
    }
    assert up[..m] == up;
  }

  /** A MultiControlledX built by its constructor, as a tape operation. */
  function McxOp(controls: seq<Wire>, target: Wire, work: seq<Wire>): (r: Result<Op>)
    ensures r.Ok? <==> Construct(controls, [target], Unset, work).Ok?
    ensures r.Ok? ==> r.value.kind == MultiControlledX && !r.value.inverse
  {
    var f :- Construct(controls, [target], Unset, work);
    Ok(Op(MultiControlledX, f.wires, [], false, McxHyper(f.controlValues, f.workWires)))
  }

  /** A MultiControlledX the constructor accepts is a well-formed gate on the controls then the target. */
  lemma {:induction false} McxOpWellFormed(controls: seq<Wire>, target: Wire, work: seq<Wire>)
    requires McxOp(controls, target, work).Ok? && target !in controls
    ensures var op := McxOp(controls, target, work).value;
      && WellFormed(op) && op.wires == controls + [target]
      && ControlWires(op) == Some(controls)
  {
    var f := Construct(controls, [target], Unset, work).value;
    PaddingArithmetic(f);
  }

  /** ceil((n + 2) / 2): where the controls are split for Lemma 7.3. */
  function Partition(n: nat): (p: nat)
    ensures 2 * p == n + 2 || 2 * p == n + 3
  {
    (n + 3) / 2
  }

  /**
   * `_decomposition_with_one_worker` (Lemma 7.3): MultiControlledX from the first part of the
   * controls onto the work wire, then from the second part and the work wire onto the target,
   * both twice.
   */
  function OneWorker(cs: seq<Wire>, t: Wire, w: Wire): Result<seq<Op>>
    requires NoDup(cs) && |cs| >= 2
  {
    var p := Partition(|cs|);
    var first := cs[..p];
    var second := cs[p..];
    UnionNoDup(second, [t]);
    UnionNoDup(second, [w]);
    var g0 :- McxOp(first, w, Union(second, [t]));
    var g1 :- McxOp(Union(second, [w]), t, first);
    Ok([g0, g1, g0, g1])
  }

  /** `compute_decomposition(wires, work_wires, control_values)`: flips, the core gates, the same flips. */
  function DecompositionOf(wires: seq<Wire>, work: seq<Wire>, cv: string): Result<seq<Op>>
    requires NoDup(wires) && NoDup(work) && Disjoint(wires, work)
  {
    if wires == [] then Err(IndexOutOfRange)
    else
      var t := wires[|wires| - 1];
      var cs := wires[..|wires| - 1];
      if |cs| > 2 && work == [] then Err(WorkWireRequired)
      else
        var flips :- Flips(cs, cv);
        var core :- CoreDecomposition(cs, t, work);
        Ok(flips + core + flips)
  }

  /** The gates between the flips, chosen by the number of controls and of work wires. */
  function CoreDecomposition(cs: seq<Wire>, t: Wire, work: seq<Wire>): Result<seq<Op>>
    requires NoDup(cs) && (|cs| > 2 ==> work != [])
  {
    if |cs| == 0 then Err(IndexOutOfRange)
    else if |cs| == 1 then Ok([Gate(CNOT, [cs[0], t])])
    else if |cs| == 2 then Ok([Gate(Toffoli, cs + [t])])
    else if |work| >= |cs| - 2 then Ok(ManyWorkers(cs, t, work))
    else OneWorker(cs, t, work[0])
  }

  /** `compute_decomposition`, calling the looping many-worker construction. */
  method ComputeDecomposition(wires: seq<Wire>, work: seq<Wire>, cv: string) returns (r: Result<seq<Op>>)
    requires NoDup(wires) && NoDup(work) && Disjoint(wires, work)
    ensures r == DecompositionOf(wires, work, cv)
  {
    if |wires| == 0 {
      return Err(IndexOutOfRange);
    }
    var t := wires[|wires| - 1];
    var cs := wires[..|wires| - 1];
    if |cs| > 2 && |work| == 0 {
      return Err(WorkWireRequired);
    }
    var flips :- Flips(cs, cv);
    var core: seq<Op>;
    if |cs| == 0 {
      return Err(IndexOutOfRange);
    } else if |cs| == 1 {
      core := [Gate(CNOT, [cs[0], t])];
    } else if |cs| == 2 {
      core := [Gate(Toffoli, cs + [t])];
    } else if |work| >= |cs| - 2 {
      core := DecompositionWithManyWorkers(cs, t, work);
    } else {
      core :- OneWorker(cs, t, work[0]);
    }
    r := Ok(flips + core + flips);
  }
}
