/**
 * The peephole rewrite passes of pennylane/transforms/optimization.py. Each pass walks a working
 * copy of the tape's operations from the front, looks for the next gate on the same wires with
 * `_find_next_gate`, and queues what survives; the measurements are queued afterwards, unchanged.
 * Every pass is a method with the source's `while` loop, proved equal to a recursive function
 * over the working list, and the lemmas below state what those functions guarantee.
 */
module Optimization {
  import opened Results
  import opened Wires
  import opened Sequences
  import opened Operators

  /** A terminal measurement: an observable on some wires. The passes never look inside one. */
  datatype Measurement = Measurement(observable: Op, wires: seq<Wire>)

  /** A quantum tape: its operations in temporal order, then its measurements. */
  datatype Tape = Tape(operations: seq<Op>, measurements: seq<Measurement>)

  // ---------------------------------------------------------------------------------------
  // _find_next_gate
  // ---------------------------------------------------------------------------------------

  /** The gate acts on the same set of wires: `Wires.unique_wires([ws, op.wires])` is empty. */
  predicate SameSet(ws: seq<Wire>, op: Op) {
    UniqueWires(ws, op.wires) == {}
  }

  /** The gate shares no wire: `Wires.shared_wires([ws, op.wires])` is empty. */
  predicate Apart(ws: seq<Wire>, op: Op) {
    SharedWires(ws, op.wires) == {}
  }

  /** The scan steps over every gate before index k: none is on the same wire set, none shares a wire. */
  predicate Skipped(ws: seq<Wire>, ops: seq<Op>, k: nat)
    requires k <= |ops|
  {
    forall j :: 0 <= j < k ==> !SameSet(ws, ops[j]) && Apart(ws, ops[j])
  }

  /** The scan from index k onwards. */
  function NextGateFrom(ws: seq<Wire>, ops: seq<Op>, k: nat): (r: Option<nat>)
    requires k <= |ops|
    ensures r.Some? ==> k <= r.value < |ops|
    decreases |ops| - k
  {
    if k == |ops| then None
    else if SameSet(ws, ops[k]) then Some(k)
    else if Apart(ws, ops[k]) then NextGateFrom(ws, ops, k + 1)
    else None
  }

  /** `_find_next_gate(wires, op_list)`. */
  function NextGate(ws: seq<Wire>, ops: seq<Op>): (r: Option<nat>)
    ensures r.Some? ==> r.value < |ops|
  {
    NextGateFrom(ws, ops, 0)
  }

  /** What the scan from k finds, once everything before k has been stepped over. */
  lemma {:induction false} NextGateFromSpec(ws: seq<Wire>, ops: seq<Op>, k: nat)
    requires k <= |ops| && Skipped(ws, ops, k)
    ensures var r := NextGateFrom(ws, ops, k);
      && (r.Some? ==> Skipped(ws, ops, r.value) && SameSet(ws, ops[r.value]))
      && (r.None? ==>
        || Skipped(ws, ops, |ops|)
        || exists b :: k <= b < |ops| && Skipped(ws, ops, b) && !SameSet(ws, ops[b]) && !Apart(ws, ops[b]))
    decreases |ops| - k
  {
    if k < |ops| && !SameSet(ws, ops[k]) && Apart(ws, ops[k]) {
      NextGateFromSpec(ws, ops, k + 1);
    }
  }

  /**
   * The index the scan returns is that of the first gate on the same wire set, and every gate
   * before it shares no wire; it returns None when every gate shares no wire, or when the
   * first gate that shares a wire acts on a different wire set.
   */
  lemma {:induction false} NextGateSpec(ws: seq<Wire>, ops: seq<Op>)
    ensures var r := NextGate(ws, ops);
      && (r.Some? ==> Skipped(ws, ops, r.value) && SameSet(ws, ops[r.value]))
      && (r.None? ==>
        || Skipped(ws, ops, |ops|)
        || exists b :: 0 <= b < |ops| && Skipped(ws, ops, b) && !SameSet(ws, ops[b]) && !Apart(ws, ops[b]))
  {
    NextGateFromSpec(ws, ops, 0);
  }

  /** The scan as the source writes it: a loop over the list that breaks at the first decision. */
  method FindNextGate(ws: seq<Wire>, ops: seq<Op>) returns (r: Option<nat>)
    ensures r == NextGate(ws, ops)
  {
    r := None;
    var i := 0;
    while i < |ops|
      invariant i <= |ops|
      invariant NextGate(ws, ops) == NextGateFrom(ws, ops, i)
      decreases |ops| - i
    {
      if SameSet(ws, ops[i]) {
        r := Some(i);
        return;
      } else if Apart(ws, ops[i]) {
        i := i + 1;
      } else {
        return;
      }
    }
  }

  /** The working list after popping the matched gate at index k and then the head. */
  function Rest(l: seq<Op>, k: nat): (r: seq<Op>)
    requires 1 <= k < |l|
    ensures |r| == |l| - 2
  {
    RemoveAt(l, k)[1..]
  }

  lemma {:induction false} RestIsTail(l: seq<Op>, k: nat)
    requires 1 <= k < |l|
    ensures Rest(l, k) == RemoveAt(l[1..], k - 1)
    ensures IsSubseq(Rest(l, k), l)
  {
    RemoveAtThenTail(l, k - 1);
    SubseqRemoveAt(l[1..], k - 1);
    assert l == [l[0]] + l[1..];
    SubseqSkip(Rest(l, k), l[1..], l[0]);
  }

  /** Dropping the head and the gate at k loses nothing that p keeps when p rejects both. */
  lemma {:induction false} FilterRest(p: Op -> bool, l: seq<Op>, k: nat)
    requires 1 <= k < |l| && !p(l[0]) && !p(l[k])
    ensures Filter(p, Rest(l, k)) == Filter(p, l)
  {
    FilterRemoveAt(p, l, k);
    var r := RemoveAt(l, k);
    assert r[0] == l[0];
  }

  /** `for m in tape.measurements: m.queue()`. */
  method QueueMeasurements(ms: seq<Measurement>) returns (queued: seq<Measurement>)
    ensures queued == ms
  {
    queued := [];
    for i := 0 to |ms|
      invariant queued == ms[..i]
    {
      queued := queued + [ms[i]];
    }
  }

  /** One iteration of a pass's loop: the gates it queues and the working list it leaves. */
  datatype Step = Step(queued: seq<Op>, rest: seq<Op>)

  // ---------------------------------------------------------------------------------------
  // cancel_inverses
  // ---------------------------------------------------------------------------------------

  /** The matched gate undoes the head: the same name, and the same ordered wires or a gate symmetric over them. */
  predicate Cancels(g: Op, h: Op) {
    NameOf(g) == NameOf(h) && (g.wires == h.wires || IsSymmetricOverWires(g.kind))
  }

  /**
   * One iteration of the `cancel_inverses` loop: a self-inverse head vanishes together with
   * the next gate on its wires when that one cancels it; otherwise the head is queued.
   */
  function CancelStep(l: seq<Op>): (s: Step)
    requires l != []
    ensures |s.queued| + |s.rest| == |l| || (s.queued == [] && |s.rest| == |l| - 2)
  {
    var g := l[0];
    var next := NextGate(g.wires, l[1..]);
    if IsSelfInverse(g.kind) && next.Some? && Cancels(g, l[next.value + 1]) then
      Step([], Rest(l, next.value + 1))
    else
      Step([g], l[1..])
  }

  /** What `cancel_inverses` queues for a working list. */
  function Cancelled(l: seq<Op>): (r: seq<Op>)
    ensures |r| <= |l|
    decreases |l|
  {
    if l == [] then []
    else
      var s := CancelStep(l);
      s.queued + Cancelled(s.rest)
  }

  /** `cancel_inverses(tape)`, with `queue()` appending to the operations of the new tape. */
  method CancelInverses(tape: Tape) returns (out: Tape)
    ensures out == Tape(Cancelled(tape.operations), tape.measurements)
  {
    var work := tape.operations;
    var queued: seq<Op> := [];
    while |work| > 0
      invariant queued + Cancelled(work) == Cancelled(tape.operations)
      decreases |work|
    {
      ghost var before, w := queued, work;
      var g := work[0];
      if !IsSelfInverse(g.kind) {
        queued := queued + [g];
        work := work[1..];
        StepDone(before, CancelStep(w), Cancelled(w), Cancelled(work));
        continue;
      }
      var next := FindNextGate(g.wires, work[1..]);
      if next.None? {
        queued := queued + [g];
        work := work[1..];
        StepDone(before, CancelStep(w), Cancelled(w), Cancelled(work));
        continue;
      }
      var h := work[next.value + 1];
      if Cancels(g, h) {
        work := RemoveAt(work, next.value + 1)[1..];
        assert CancelStep(w) == Step([], work);
      } else {
        queued := queued + [g];
        work := work[1..];
        assert CancelStep(w) == Step([g], work);
      }
      StepDone(before, CancelStep(w), Cancelled(w), Cancelled(work));
    }
    var ms := QueueMeasurements(tape.measurements);
    out := Tape(queued, ms);
  }

  /** Queueing what one iteration queues keeps the loop invariant, whichever pass it is. */
  lemma {:induction false} StepDone(before: seq<Op>, s: Step, whole: seq<Op>, rest: seq<Op>)
    requires whole == s.queued + rest
    ensures before + whole == (before + s.queued) + rest
  {
  }

  /** The number of cancelled pairs: each iteration that drops anything drops two gates. */
  lemma {:induction false} CancelledPairs(l: seq<Op>) returns (pairs: nat)
    ensures |l| - |Cancelled(l)| == 2 * pairs
    decreases |l|
  {
    if l == [] {
      pairs := 0;
    } else {
      var s := CancelStep(l);
      assert Cancelled(l) == s.queued + Cancelled(s.rest);
      var inner := CancelledPairs(s.rest);
      pairs := if |s.queued| + |s.rest| == |l| then inner else inner + 1;
    }
  }

  /** Gates are only ever removed in pairs. */
  lemma {:induction false} CancelledDropsPairs(l: seq<Op>)
    ensures (|l| - |Cancelled(l)|) % 2 == 0
  {
    var pairs := CancelledPairs(l);
    assert (2 * pairs) % 2 == 0;
  }

  /** One iteration queues a subsequence of what it consumes, in order. */
  lemma {:induction false} CancelStepSubseq(l: seq<Op>)
    requires l != []
    ensures IsSubseq(CancelStep(l).queued + CancelStep(l).rest, l)
  {
    var s := CancelStep(l);
    var next := NextGate(l[0].wires, l[1..]);
    if IsSelfInverse(l[0].kind) && next.Some? && Cancels(l[0], l[next.value + 1]) {
      assert s.queued + s.rest == Rest(l, next.value + 1);
      RestIsTail(l, next.value + 1);
    } else {
      assert s.queued + s.rest == l;
      SubseqRefl(l);
    }
  }

  /** The pass only deletes: what it queues is a subsequence of the input, in the same order. */
  lemma {:induction false} CancelledSubseq(l: seq<Op>)
    ensures IsSubseq(Cancelled(l), l)
    decreases |l|
  {
    if l != [] {
      var s := CancelStep(l);
      CancelledSubseq(s.rest);
      SubseqPrefix(s.queued, Cancelled(s.rest), s.rest);
      CancelStepSubseq(l);
      SubseqTrans(Cancelled(l), s.queued + s.rest, l);
    }
  }

  function NotSelfInverse(op: Op): bool {
    !IsSelfInverse(op.kind)
  }

  lemma {:induction false} CancelStepKeeps(l: seq<Op>)
    requires l != []
    ensures Filter(NotSelfInverse, CancelStep(l).queued + CancelStep(l).rest) == Filter(NotSelfInverse, l)
  {
    var s := CancelStep(l);
    if s.queued == [] {
      var k := NextGate(l[0].wires, l[1..]).value + 1;
      FilterRest(NotSelfInverse, l, k);
      assert s.queued + s.rest == s.rest;
    } else {
      assert s.queued + s.rest == l;
    }
  }

  /** Only self-inverse gates are ever removed: the others all survive, in their order. */
  lemma {:induction false} CancelledKeepsOthers(l: seq<Op>)
    ensures Filter(NotSelfInverse, Cancelled(l)) == Filter(NotSelfInverse, l)
    decreases |l|
  {
    if l != [] {
      var s := CancelStep(l);
      CancelledKeepsOthers(s.rest);
      FilterConcat(NotSelfInverse, s.queued, Cancelled(s.rest));
      FilterConcat(NotSelfInverse, s.queued, s.rest);
      CancelStepKeeps(l);
    }
  }

  // ---------------------------------------------------------------------------------------
  // merge_rotations
  // ---------------------------------------------------------------------------------------

  /** The gate rotates by one angle: every composable rotation except Rot. */
  predicate SingleAngle(k: Kind) {
    IsComposableRotation(k) && k != Rot
  }

  /** The angle a single-angle rotation applies, negated when the inverse marker is set. */
  function SignedAngle(op: Op): real
    requires |op.params| >= 1
  {
    if op.inverse then -op.params[0] else op.params[0]
  }

  /**
   * `parameters[0]`. Every composable rotation is constructed with its angles, so the 0 for a
   * gate without parameters is never read.
   */
  function FirstAngle(op: Op): real {
    if op.params == [] then 0.0 else op.params[0]
  }

  /**
   * The merged gate as `merge_rotations` builds it: `type(current_gate)(*combined_angles,
   * wires=...)`. It tests the name against "Rot", so an inverse-marked Rot gets the one-angle
   * sum, and the fresh gate has no inverse marker.
   */
  function MergedGateAsWritten(g: Op, h: Op, fuse: (seq<real>, seq<real>) -> seq<real>): (m: Op)
    ensures m.kind == g.kind && m.wires == g.wires && !m.inverse
  {
    var angles := if NameOf(g) == Name(Rot, false) then fuse(g.params, h.params) else [FirstAngle(g) + FirstAngle(h)];
    Op(g.kind, g.wires, angles, false, NoHyper)
  }

  /**
   * The merged gate keeping the inverse marker the two gates share: single angles add, and a
   * Rot pair is fused (in reverse order when both are inverted, since (A B)^-1 = B^-1 A^-1).
   */
  function MergedGate(g: Op, h: Op, fuse: (seq<real>, seq<real>) -> seq<real>): (m: Op)
    ensures m.kind == g.kind && m.wires == g.wires && m.inverse == g.inverse
  {
    var angles :=
      if g.kind == Rot then (if g.inverse then fuse(h.params, g.params) else fuse(g.params, h.params))
      else [FirstAngle(g) + FirstAngle(h)];
    Op(g.kind, g.wires, angles, g.inverse, NoHyper)
  }

  /** The matched gate merges with the head: same name and same ordered wires. */
  predicate Merges(g: Op, h: Op) {
    NameOf(g) == NameOf(h) && g.wires == h.wires
  }

  /**
   * One iteration of the `merge_rotations` loop, building the merged gate as written or as
   * corrected: a composable rotation merges with the next gate on its wires when that has the
   * same name and ordered wires, and the merged gate is queued unless its angles are all close
   * to zero; otherwise the head is queued.
   */
  function MergeStep(l: seq<Op>, asWritten: bool, fuse: (seq<real>, seq<real>) -> seq<real>, nearZero: seq<real> -> bool): (s: Step)
    requires l != []
    ensures |s.rest| < |l| && |s.queued| + |s.rest| <= |l|
  {
    var g := l[0];
    var next := NextGate(g.wires, l[1..]);
    if IsComposableRotation(g.kind) && next.Some? && Merges(g, l[next.value + 1]) then
      var h := l[next.value + 1];
      var m := if asWritten then MergedGateAsWritten(g, h, fuse) else MergedGate(g, h, fuse);
      Step(if nearZero(m.params) then [] else [m], Rest(l, next.value + 1))
    else
      Step([g], l[1..])
  }

  /** What `merge_rotations` as written queues for a working list: the merged gate loses the inverse marker. */
  function MergedAsWritten(l: seq<Op>, fuse: (seq<real>, seq<real>) -> seq<real>, nearZero: seq<real> -> bool): (r: seq<Op>)
    ensures |r| <= |l|
    decreases |l|
  {
    if l == [] then []
    else
      var s := MergeStep(l, true, fuse, nearZero);
      s.queued + MergedAsWritten(s.rest, fuse, nearZero)
  }

  /** What the corrected `merge_rotations` queues for a working list: the merged gate keeps the inverse marker. */
  function Merged(l: seq<Op>, fuse: (seq<real>, seq<real>) -> seq<real>, nearZero: seq<real> -> bool): (r: seq<Op>)
    ensures |r| <= |l|
    decreases |l|
  {
    if l == [] then []
    else
      var s := MergeStep(l, false, fuse, nearZero);
      s.queued + Merged(s.rest, fuse, nearZero)
  }

  /** The corrected `merge_rotations(tape)`: the merged gate keeps the inverse marker. */
  method MergeRotations(tape: Tape, fuse: (seq<real>, seq<real>) -> seq<real>, nearZero: seq<real> -> bool)
    returns (out: Tape)
    ensures out == Tape(Merged(tape.operations, fuse, nearZero), tape.measurements)
  {
    var work := tape.operations;
    var queued: seq<Op> := [];
    while |work| > 0
      invariant queued + Merged(work, fuse, nearZero) == Merged(tape.operations, fuse, nearZero)
      decreases |work|
    {
      ghost var before, w := queued, work;
      var g := work[0];
      if !IsComposableRotation(g.kind) {
        queued := queued + [g];
        work := work[1..];
        StepDone(before, MergeStep(w, false, fuse, nearZero), Merged(w, fuse, nearZero), Merged(work, fuse, nearZero));
        continue;
      }
      var next := FindNextGate(g.wires, work[1..]);
      if next.None? {
        queued := queued + [g];
        work := work[1..];
        StepDone(before, MergeStep(w, false, fuse, nearZero), Merged(w, fuse, nearZero), Merged(work, fuse, nearZero));
        continue;
      }
      var h := work[next.value + 1];
      if Merges(g, h) {
        var m := MergedGate(g, h, fuse);
        var kept := if nearZero(m.params) then [] else [m];
        queued := queued + kept;
        work := RemoveAt(work, next.value + 1)[1..];
        assert MergeStep(w, false, fuse, nearZero) == Step(kept, work);
      } else {
        queued := queued + [g];
        work := work[1..];
        assert MergeStep(w, false, fuse, nearZero) == Step([g], work);
      }
      StepDone(before, MergeStep(w, false, fuse, nearZero), Merged(w, fuse, nearZero), Merged(work, fuse, nearZero));
    }
    var ms := QueueMeasurements(tape.measurements);
    out := Tape(queued, ms);
  }

  function NotRotation(op: Op): bool {
    !IsComposableRotation(op.kind)
  }

  lemma {:induction false} MergeStepKeeps(l: seq<Op>, fuse: (seq<real>, seq<real>) -> seq<real>, nearZero: seq<real> -> bool)
    requires l != []
    ensures var s := MergeStep(l, false, fuse, nearZero);
      Filter(NotRotation, s.queued + s.rest) == Filter(NotRotation, l)
  {
    var s := MergeStep(l, false, fuse, nearZero);
    var next := NextGate(l[0].wires, l[1..]);
    if IsComposableRotation(l[0].kind) && next.Some? && Merges(l[0], l[next.value + 1]) {
      FilterRest(NotRotation, l, next.value + 1);
      FilterConcat(NotRotation, s.queued, s.rest);
      assert Filter(NotRotation, s.queued) == [];
    } else {
      assert s.queued + s.rest == l;
    }
  }

  /** Only composable rotations are merged or dropped: every other gate survives, in its order. */
  lemma {:induction false} MergedKeepsOthers(l: seq<Op>, fuse: (seq<real>, seq<real>) -> seq<real>, nearZero: seq<real> -> bool)
    ensures Filter(NotRotation, Merged(l, fuse, nearZero)) == Filter(NotRotation, l)
    decreases |l|
  {
    if l != [] {
      var s := MergeStep(l, false, fuse, nearZero);
      MergedKeepsOthers(s.rest, fuse, nearZero);
      FilterConcat(NotRotation, s.queued, Merged(s.rest, fuse, nearZero));
      FilterConcat(NotRotation, s.queued, s.rest);
      MergeStepKeeps(l, fuse, nearZero);
    }
  }

  /** The merged single-angle rotation rotates by the sum of the two signed angles. */
  lemma {:induction false} MergedGateAngle(g: Op, h: Op, fuse: (seq<real>, seq<real>) -> seq<real>)
    requires WellFormed(g) && WellFormed(h) && SingleAngle(g.kind) && Merges(g, h)
    ensures WellFormed(MergedGate(g, h, fuse))
    ensures SignedAngle(MergedGate(g, h, fuse)) == SignedAngle(g) + SignedAngle(h)
  {
  }

  /** With fuse_rot returning three angles, the merged gate is a well-formed gate of the same kind. */
  lemma {:induction false} MergedGateWellFormed(g: Op, h: Op, fuse: (seq<real>, seq<real>) -> seq<real>)
    requires WellFormed(g) && WellFormed(h) && IsComposableRotation(g.kind) && Merges(g, h)
    requires |fuse(g.params, h.params)| == 3 && |fuse(h.params, g.params)| == 3
    ensures WellFormed(MergedGate(g, h, fuse))
  {
  }

  /**
   * As written, two inverted RX(1) gates merge into RX(2) rather than the inverted RX(2), and
   * two inverted Rot gates build a Rot with a single angle, which is not a well-formed gate:
   * the Rot constructor raises on it.
   */
  lemma {:induction false} MergedGateAsWrittenWrong(w: Wire, fuse: (seq<real>, seq<real>) -> seq<real>)
    ensures var g := Inv(Rotation(RX, 1.0, [w]));
      WellFormed(g) && SignedAngle(g) + SignedAngle(g) == -2.0
      && SignedAngle(MergedGateAsWritten(g, g, fuse)) == 2.0
    ensures var r := Inv(Op(Rot, [w], [1.0, 2.0, 3.0], false, NoHyper));
      WellFormed(r) && !WellFormed(MergedGateAsWritten(r, r, fuse))
  {
  }

  /** A merge step leaves a working list made of gates of the list it was given. */
  lemma {:induction false} MergeStepRest(l: seq<Op>, asWritten: bool, fuse: (seq<real>, seq<real>) -> seq<real>, nearZero: seq<real> -> bool)
    requires l != []
    ensures forall op :: op in MergeStep(l, asWritten, fuse, nearZero).rest ==> op in l
  {
    var s := MergeStep(l, asWritten, fuse, nearZero);
    var next := NextGate(l[0].wires, l[1..]);
    if IsComposableRotation(l[0].kind) && next.Some? && Merges(l[0], l[next.value + 1]) {
      forall op | op in s.rest ensures op in l {
        RestIsTail(l, next.value + 1);
        SubseqMember(s.rest, l, op);
      }
    } else {
      forall op | op in s.rest ensures op in l {
        assert s.rest == l[1..];
      }
    }
  }

  /**
   * On gates without the inverse marker, `merge_rotations` as written and as corrected queue
   * the same gates: the two merged gates differ only for an inverted head.
   */
  lemma {:induction false} MergedAgree(l: seq<Op>, fuse: (seq<real>, seq<real>) -> seq<real>, nearZero: seq<real> -> bool)
    requires forall op :: op in l ==> !op.inverse
    ensures MergedAsWritten(l, fuse, nearZero) == Merged(l, fuse, nearZero)
    decreases |l|
  {
    if l != [] {
      var next := NextGate(l[0].wires, l[1..]);
      assert l[0] in l;
      if IsComposableRotation(l[0].kind) && next.Some? && Merges(l[0], l[next.value + 1]) {
        assert MergedGateAsWritten(l[0], l[next.value + 1], fuse) == MergedGate(l[0], l[next.value + 1], fuse);
      }
      var s := MergeStep(l, false, fuse, nearZero);
      assert MergeStep(l, true, fuse, nearZero) == s;
      MergeStepRest(l, false, fuse, nearZero);
      MergedAgree(s.rest, fuse, nearZero);
    }
  }

  /**
   * As written, a tape holding two inverted RX(1) gates on one wire becomes RX(2), a rotation
   * the wrong way round; the corrected pass gives the inverted RX(2).
   */
  lemma {:induction false} MergedAsWrittenDropsInverse(w: Wire, fuse: (seq<real>, seq<real>) -> seq<real>, nearZero: seq<real> -> bool)
    requires !nearZero([2.0])
    ensures var g := Inv(Rotation(RX, 1.0, [w]));
      && MergedAsWritten([g, g], fuse, nearZero) == [Rotation(RX, 2.0, [w])]
      && Merged([g, g], fuse, nearZero) == [Inv(Rotation(RX, 2.0, [w]))]
  {
    var g := Inv(Rotation(RX, 1.0, [w]));
    var l := [g, g];
    assert l[1..] == [g] && l[1] == g;
    OneWireTests(w, g);
    NextGateHits([w], g, []);
    assert Rest(l, 1) == [];
    assert MergeStep(l, true, fuse, nearZero) == Step([Rotation(RX, 2.0, [w])], []);
    assert MergeStep(l, false, fuse, nearZero) == Step([Inv(Rotation(RX, 2.0, [w]))], []);
  }

  // ---------------------------------------------------------------------------------------
  // single_qubit_fusion
  // ---------------------------------------------------------------------------------------

  /** The angles of a gate as a Rot: its own parameters when it is named "Rot", `convert_to_rot` otherwise. */
  function RotAngles(op: Op, toRot: Op -> seq<real>): seq<real> {
    if NameOf(op) != Name(Rot, false) then toRot(op) else op.params
  }

  /**
   * The Rot that replaces a fused pair: `Rot(*combined_angles, wires=current_gate.wires)`. It
   * is well formed only when the head acts on one wire; the source's constructor raises on
   * any other wire count, where this function still returns the ill-formed gate.
   */
  function FusedGate(g: Op, h: Op, fuse: (seq<real>, seq<real>) -> seq<real>, toRot: Op -> seq<real>): (f: Op)
    ensures f.kind == Rot && f.wires == g.wires && !f.inverse
  {
    Op(Rot, g.wires, fuse(RotAngles(g, toRot), RotAngles(h, toRot)), false, NoHyper)
  }

  /**
   * One iteration of the `single_qubit_fusion` loop, given whether the head is passed through
   * as a multi-qubit gate: otherwise it fuses with the next gate on its wires when the ordered
   * wires agree, and the fused Rot is queued unless its angles are all close to zero.
   */
  function FuseStep(l: seq<Op>, passThrough: bool, fuse: (seq<real>, seq<real>) -> seq<real>, toRot: Op -> seq<real>, nearZero: seq<real> -> bool): (s: Step)
    requires l != []
    ensures |s.rest| < |l| && |s.queued| + |s.rest| <= |l|
  {
    var g := l[0];
    var next := NextGate(g.wires, l[1..]);
    if !passThrough && next.Some? && g.wires == l[next.value + 1].wires then
      var f := FusedGate(g, l[next.value + 1], fuse, toRot);
      Step(if nearZero(f.params) then [] else [f], Rest(l, next.value + 1))
    else
      Step([g], l[1..])
  }

  /** `single_qubit_fusion` as written: the head passes through when its class attribute `num_wires` exceeds 1. */
  function FusedAsWritten(l: seq<Op>, fuse: (seq<real>, seq<real>) -> seq<real>, toRot: Op -> seq<real>, nearZero: seq<real> -> bool): (r: seq<Op>)
    ensures |r| <= |l|
    decreases |l|
  {
    if l == [] then []
    else
      var s := FuseStep(l, NumWiresAttr(l[0].kind) > 1, fuse, toRot, nearZero);
      s.queued + FusedAsWritten(s.rest, fuse, toRot, nearZero)
  }

  /** The gate is left alone by the fusion: it does not act on exactly one wire. */
  predicate NotSingleWire(op: Op) {
    |op.wires| != 1
  }

  /** What `single_qubit_fusion` queues when the test is on the gate's own wires: only one-wire gates are fused. */
  function Fused(l: seq<Op>, fuse: (seq<real>, seq<real>) -> seq<real>, toRot: Op -> seq<real>, nearZero: seq<real> -> bool): (r: seq<Op>)
    ensures |r| <= |l|
    decreases |l|
  {
    if l == [] then []
    else
      var s := FuseStep(l, NotSingleWire(l[0]), fuse, toRot, nearZero);
      s.queued + Fused(s.rest, fuse, toRot, nearZero)
  }

  /** The corrected `single_qubit_fusion(tape)`: it passes through every gate not on exactly one wire. */
  method SingleQubitFusion(tape: Tape, fuse: (seq<real>, seq<real>) -> seq<real>, toRot: Op -> seq<real>, nearZero: seq<real> -> bool)
    returns (out: Tape)
    ensures out == Tape(Fused(tape.operations, fuse, toRot, nearZero), tape.measurements)
  {
    var work := tape.operations;
    var queued: seq<Op> := [];
    while |work| > 0
      invariant queued + Fused(work, fuse, toRot, nearZero) == Fused(tape.operations, fuse, toRot, nearZero)
      decreases |work|
    {
      ghost var before, w := queued, work;
      ghost var s := FuseStep(w, NotSingleWire(w[0]), fuse, toRot, nearZero);
      var g := work[0];
      if |g.wires| != 1 {
        queued := queued + [g];
        work := work[1..];
        StepDone(before, s, Fused(w, fuse, toRot, nearZero), Fused(work, fuse, toRot, nearZero));
        continue;
      }
      var next := FindNextGate(g.wires, work[1..]);
      if next.None? {
        queued := queued + [g];
        work := work[1..];
        StepDone(before, s, Fused(w, fuse, toRot, nearZero), Fused(work, fuse, toRot, nearZero));
        continue;
      }
      var h := work[next.value + 1];
      if g.wires == h.wires {
        var gAngles := if NameOf(g) != Name(Rot, false) then toRot(g) else g.params;
        var hAngles := if NameOf(h) != Name(Rot, false) then toRot(h) else h.params;
        var combined := fuse(gAngles, hAngles);
        var kept := if nearZero(combined) then [] else [Op(Rot, g.wires, combined, false, NoHyper)];
        queued := queued + kept;
        work := RemoveAt(work, next.value + 1)[1..];
        assert s == Step(kept, work);
      } else {
        queued := queued + [g];
        work := work[1..];
        assert s == Step([g], work);
      }
      StepDone(before, s, Fused(w, fuse, toRot, nearZero), Fused(work, fuse, toRot, nearZero));
    }
    var ms := QueueMeasurements(tape.measurements);
    out := Tape(queued, ms);
  }

  lemma {:induction false} FuseStepKeepsWide(l: seq<Op>, fuse: (seq<real>, seq<real>) -> seq<real>, toRot: Op -> seq<real>, nearZero: seq<real> -> bool)
    requires l != []
    ensures var s := FuseStep(l, NotSingleWire(l[0]), fuse, toRot, nearZero);
      Filter(NotSingleWire, s.queued + s.rest) == Filter(NotSingleWire, l)
  {
    var s := FuseStep(l, NotSingleWire(l[0]), fuse, toRot, nearZero);
    var next := NextGate(l[0].wires, l[1..]);
    if !NotSingleWire(l[0]) && next.Some? && l[0].wires == l[next.value + 1].wires {
      FilterRest(NotSingleWire, l, next.value + 1);
      FilterConcat(NotSingleWire, s.queued, s.rest);
      assert Filter(NotSingleWire, s.queued) == [];
    } else {
      assert s.queued + s.rest == l;
    }
  }

  /** Gates on more or fewer than one wire all survive the fusion, in their order. */
  lemma {:induction false} FusedKeepsWide(l: seq<Op>, fuse: (seq<real>, seq<real>) -> seq<real>, toRot: Op -> seq<real>, nearZero: seq<real> -> bool)
    ensures Filter(NotSingleWire, Fused(l, fuse, toRot, nearZero)) == Filter(NotSingleWire, l)
    decreases |l|
  {
    if l != [] {
      var s := FuseStep(l, NotSingleWire(l[0]), fuse, toRot, nearZero);
      FusedKeepsWide(s.rest, fuse, toRot, nearZero);
      FilterConcat(NotSingleWire, s.queued, Fused(s.rest, fuse, toRot, nearZero));
      FilterConcat(NotSingleWire, s.queued, s.rest);
      FuseStepKeepsWide(l, fuse, toRot, nearZero);
    }
  }

  /** A fusion step leaves a working list made of gates of the list it was given. */
  lemma {:induction false} FuseStepRest(l: seq<Op>, passThrough: bool, fuse: (seq<real>, seq<real>) -> seq<real>, toRot: Op -> seq<real>, nearZero: seq<real> -> bool)
    requires l != []
    ensures forall op :: op in FuseStep(l, passThrough, fuse, toRot, nearZero).rest ==> op in l
  {
    var s := FuseStep(l, passThrough, fuse, toRot, nearZero);
    var next := NextGate(l[0].wires, l[1..]);
    if !passThrough && next.Some? && l[0].wires == l[next.value + 1].wires {
      forall op | op in s.rest ensures op in l {
        RestIsTail(l, next.value + 1);
        SubseqMember(s.rest, l, op);
      }
    } else {
      forall op | op in s.rest ensures op in l {
        assert s.rest == l[1..];
      }
    }
  }

  /**
   * On well-formed gates of a fixed arity, the class attribute `num_wires` is the number of
   * wires, so `single_qubit_fusion` as written and as corrected queue the same gates; they
   * differ only on gates of any arity, MultiControlledX and Barrier.
   */
  lemma {:induction false} FusedAgree(l: seq<Op>, fuse: (seq<real>, seq<real>) -> seq<real>, toRot: Op -> seq<real>, nearZero: seq<real> -> bool)
    requires forall op :: op in l ==> WellFormed(op) && NumWiresAttr(op.kind) != AnyWires
    ensures FusedAsWritten(l, fuse, toRot, nearZero) == Fused(l, fuse, toRot, nearZero)
    decreases |l|
  {
    if l != [] {
      assert l[0] in l;
      assert (NumWiresAttr(l[0].kind) > 1) == NotSingleWire(l[0]);
      var s := FuseStep(l, NotSingleWire(l[0]), fuse, toRot, nearZero);
      FuseStepRest(l, NotSingleWire(l[0]), fuse, toRot, nearZero);
      FusedAgree(s.rest, fuse, toRot, nearZero);
    }
  }

  /** The wires some gate of the list acts on. */
  function WiresOf(l: seq<Op>): set<Wire> {
    set op, w | op in l && w in op.wires :: w
  }

  /** A gate the fusion may queue: one of the given gates, or a Rot on one of their wires. */
  predicate FromInput(op: Op, l: seq<Op>) {
    op in l || (op.kind == Rot && |op.wires| == 1 && op.wires[0] in WiresOf(l))
  }

  lemma {:induction false} FuseStepOutputs(l: seq<Op>, fuse: (seq<real>, seq<real>) -> seq<real>, toRot: Op -> seq<real>, nearZero: seq<real> -> bool)
    requires l != []
    ensures var s := FuseStep(l, NotSingleWire(l[0]), fuse, toRot, nearZero);
      (forall op :: op in s.queued ==> FromInput(op, l)) && (forall op :: op in s.rest ==> op in l)
  {
    var s := FuseStep(l, NotSingleWire(l[0]), fuse, toRot, nearZero);
    var next := NextGate(l[0].wires, l[1..]);
    if !NotSingleWire(l[0]) && next.Some? && l[0].wires == l[next.value + 1].wires {
      var k := next.value + 1;
      forall op | op in s.rest ensures op in l {
        RestIsTail(l, k);
        SubseqMember(s.rest, l, op);
      }
      assert l[0] in l && l[0].wires[0] in l[0].wires;
    }
  }

  /** Every gate the fusion queues is an input gate or a Rot on one wire of the input. */
  lemma {:induction false} FusedOutputs(l: seq<Op>, fuse: (seq<real>, seq<real>) -> seq<real>, toRot: Op -> seq<real>, nearZero: seq<real> -> bool)
    ensures forall op :: op in Fused(l, fuse, toRot, nearZero) ==> FromInput(op, l)
    decreases |l|
  {
    if l != [] {
      var s := FuseStep(l, NotSingleWire(l[0]), fuse, toRot, nearZero);
      FusedOutputs(s.rest, fuse, toRot, nearZero);
      FuseStepOutputs(l, fuse, toRot, nearZero);
      assert WiresOf(s.rest) <= WiresOf(l);
    }
  }

  // ---------------------------------------------------------------------------------------
  // The docstring circuits and the behaviour of repeated passes
  // ---------------------------------------------------------------------------------------

  /** The scan's two wire tests in terms of membership. */
  lemma {:induction false} WireTests(ws: seq<Wire>, op: Op)
    ensures SameSet(ws, op) <==> (forall w :: w in ws <==> w in op.wires)
    ensures Apart(ws, op) <==> (forall w :: w in ws ==> w !in op.wires)
  {
    if forall w :: w in ws ==> w !in op.wires {
      assert SharedWires(ws, op.wires) == {};
    }
  }

  /** For a one-wire scan, the two tests compare single labels. */
  lemma {:induction false} OneWireTests(a: Wire, op: Op)
    ensures |op.wires| == 1 ==> (SameSet([a], op) <==> a == op.wires[0])
    ensures Apart([a], op) <==> a !in op.wires
  {
    WireTests([a], op);
    if |op.wires| == 1 && a != op.wires[0] {
      assert a in [a] && a !in op.wires;
    }
  }

  /** The scan result one position further along. */
  function Shifted(r: Option<nat>): Option<nat> {
    if r.Some? then Some(r.value + 1) else None
  }

  lemma {:induction false} NextGateFromShift(ws: seq<Wire>, g: Op, l: seq<Op>, k: nat)
    requires k <= |l|
    ensures NextGateFrom(ws, [g] + l, k + 1) == Shifted(NextGateFrom(ws, l, k))
    decreases |l| - k
  {
    if k < |l| {
      assert ([g] + l)[k + 1] == l[k];
      NextGateFromShift(ws, g, l, k + 1);
    }
  }

  /** The scan steps over a gate on other wires and finds what it finds after it. */
  lemma {:induction false} NextGateSkips(ws: seq<Wire>, g: Op, l: seq<Op>)
    requires !SameSet(ws, g) && Apart(ws, g)
    ensures NextGate(ws, [g] + l) == Shifted(NextGate(ws, l))
  {
    NextGateFromShift(ws, g, l, 0);
  }

  /** The scan stops at a gate on the same set of wires. */
  lemma {:induction false} NextGateHits(ws: seq<Wire>, g: Op, l: seq<Op>)
    requires SameSet(ws, g)
    ensures NextGate(ws, [g] + l) == Some(0)
  {
  }

  /** `cancel_inverses` queues a head that is not self-inverse. */
  lemma {:induction false} CancelledKeeps(g: Op, l: seq<Op>)
    requires !IsSelfInverse(g.kind)
    ensures Cancelled([g] + l) == [g] + Cancelled(l)
  {
    assert ([g] + l)[1..] == l;
  }

  /** `cancel_inverses` queues a head whose scan finds no gate on the same wires. */
  lemma {:induction false} CancelledUnmatched(g: Op, l: seq<Op>)
    requires NextGate(g.wires, l).None?
    ensures Cancelled([g] + l) == [g] + Cancelled(l)
  {
    assert ([g] + l)[1..] == l;
  }

  /** `cancel_inverses` queues a head whose next gate on the same wires does not cancel it. */
  lemma {:induction false} CancelledBlocked(g: Op, l: seq<Op>, k: nat)
    requires NextGate(g.wires, l) == Some(k) && !Cancels(g, l[k])
    ensures Cancelled([g] + l) == [g] + Cancelled(l)
  {
    var gl := [g] + l;
    assert gl[1..] == l && gl[k + 1] == l[k];
  }

  /** `cancel_inverses` drops a self-inverse head together with the partner that cancels it. */
  lemma {:induction false} CancelledRemoves(g: Op, l: seq<Op>, k: nat)
    requires IsSelfInverse(g.kind) && NextGate(g.wires, l) == Some(k) && Cancels(g, l[k])
    ensures Cancelled([g] + l) == Cancelled(RemoveAt(l, k))
  {
    var gl := [g] + l;
    assert gl[1..] == l && gl[k + 1] == l[k];
    RestIsTail(gl, k + 1);
  }

  /** The last three gates of the `cancel_inverses` docstring circuit pass unchanged. */
  lemma {:induction false} CancelExampleTail(rz: Op, rx: Op, c: Op)
    requires rz.kind == RZ && rx.kind == RX && c == Gate(CNOT, [Int(0), Int(2)])
    ensures Cancelled([rz, rx, c]) == [rz, rx, c]
  {
    assert [rz, rx, c] == [rz] + [rx, c] && [rx, c] == [rx] + [c] && [c] == [c] + [];
    CancelledUnmatched(c, []);
    CancelledKeeps(rx, [c]);
    CancelledKeeps(rz, [rx, c]);
  }

  /** The PauliX on wire 1 cancels its partner past three gates on wires 0 and 2. */
  lemma {:induction false} CancelExamplePauliX(rz: Op, rx: Op, c: Op)
    requires rz.wires == [Int(0)] && rx.wires == [Int(2)] && c == Gate(CNOT, [Int(0), Int(2)])
    ensures var x1 := Gate(PauliX, [Int(1)]);
      Cancelled([x1, rz, rx, c, x1]) == Cancelled([rz, rx, c])
  {
    var w1, x1 := Int(1), Gate(PauliX, [Int(1)]);
    var p := [rz, rx, c, x1];
    assert p == [rz] + [rx, c, x1] && [rx, c, x1] == [rx] + [c, x1] && [c, x1] == [c] + [x1];
    assert [x1] == [x1] + [] && [x1, rz, rx, c, x1] == [x1] + p;
    assert RemoveAt(p, 3) == [rz, rx, c];
    OneWireTests(w1, x1);
    OneWireTests(w1, c);
    OneWireTests(w1, rx);
    OneWireTests(w1, rz);
    NextGateHits([w1], x1, []);
    NextGateSkips([w1], c, [x1]);
    NextGateSkips([w1], rx, [c, x1]);
    NextGateSkips([w1], rz, [rx, c, x1]);
    CancelledRemoves(x1, p, 3);
  }

  /** RX and RY are not self-inverse, so `cancel_inverses` keeps them. */
  lemma {:induction false} CancelExampleRotations(rx: Op, ry: Op, rest: seq<Op>)
    requires rx.kind == RX && ry.kind == RY
    ensures Cancelled([rx, ry] + rest) == [rx, ry] + Cancelled(rest)
  {
    assert [rx, ry] + rest == [rx] + ([ry] + rest);
    assert [rx] + ([ry] + Cancelled(rest)) == [rx, ry] + Cancelled(rest);
    CancelledKeeps(ry, rest);
    CancelledKeeps(rx, [ry] + rest);
  }

  /** The Hadamard on wire 1 meets the RY on its wire first, so it is kept. */
  lemma {:induction false} CancelExampleKept(rx: Op, ry: Op, rest: seq<Op>)
    requires rx.wires == [Int(2)] && ry.kind == RY && ry.wires == [Int(1)]
    ensures var h1 := Gate(Hadamard, [Int(1)]);
      Cancelled([h1, rx, ry] + rest) == [h1] + Cancelled([rx, ry] + rest)
  {
    var w1, h1 := Int(1), Gate(Hadamard, [Int(1)]);
    var a := [ry] + rest;
    var b := [rx] + a;
    assert [h1, rx, ry] + rest == [h1] + b && [rx, ry] + rest == b && b[1] == ry;
    OneWireTests(w1, rx);
    OneWireTests(w1, ry);
    NextGateHits([w1], ry, rest);
    NextGateSkips([w1], rx, a);
    CancelledBlocked(h1, b, 1);
  }

  /** The Hadamard pair on wire 0 cancels across the Hadamard on wire 1. */
  lemma {:induction false} CancelExampleHadamard(rest: seq<Op>)
    ensures var h0, h1 := Gate(Hadamard, [Int(0)]), Gate(Hadamard, [Int(1)]);
      Cancelled([h0, h1, h0] + rest) == Cancelled([h1] + rest)
  {
    var w0, h0, h1 := Int(0), Gate(Hadamard, [Int(0)]), Gate(Hadamard, [Int(1)]);
    var a := [h0] + rest;
    var l := [h1] + a;
    assert [h0, h1, h0] + rest == [h0] + l;
    assert RemoveAt(l, 1) == [h1] + rest;
    OneWireTests(w0, h1);
    OneWireTests(w0, h0);
    NextGateHits([w0], h0, rest);
    NextGateSkips([w0], h1, a);
    CancelledRemoves(h0, l, 1);
  }

  /**
   * The circuit of the `cancel_inverses` docstring: the Hadamard pair on wire 0 and the PauliX
   * pair on wire 1 cancel across the gates on other wires, and everything else is kept in order.
   */
  lemma {:induction false} CancelInversesExample(x: real, y: real, z: real)
    ensures var w0, w1, w2 := Int(0), Int(1), Int(2);
      Cancelled([Gate(Hadamard, [w0]), Gate(Hadamard, [w1]), Gate(Hadamard, [w0]), Rotation(RX, x, [w2]),
                 Rotation(RY, y, [w1]), Gate(PauliX, [w1]), Rotation(RZ, z, [w0]), Rotation(RX, y, [w2]),
                 Gate(CNOT, [w0, w2]), Gate(PauliX, [w1])])
      == [Gate(Hadamard, [w1]), Rotation(RX, x, [w2]), Rotation(RY, y, [w1]), Rotation(RZ, z, [w0]),
          Rotation(RX, y, [w2]), Gate(CNOT, [w0, w2])]
  {
    var w0, w1, w2 := Int(0), Int(1), Int(2);
    var h0, h1, x1, c := Gate(Hadamard, [w0]), Gate(Hadamard, [w1]), Gate(PauliX, [w1]), Gate(CNOT, [w0, w2]);
    var rx, ry, rz, rx' := Rotation(RX, x, [w2]), Rotation(RY, y, [w1]), Rotation(RZ, z, [w0]), Rotation(RX, y, [w2]);
    var tail := [x1, rz, rx', c, x1];
    var a := [rx, ry] + tail;
    assert [h0, h1, h0, rx, ry, x1, rz, rx', c, x1] == [h0, h1, h0] + a;
    assert [h1] + a == [h1, rx, ry] + tail;
    assert [h1] + ([rx, ry] + [rz, rx', c]) == [h1, rx, ry, rz, rx', c];
    CancelExampleHadamard(a);
    CancelExampleKept(rx, ry, tail);
    CancelExampleRotations(rx, ry, tail);
    CancelExamplePauliX(rz, rx', c);
    CancelExampleTail(rz, rx', c);
  }

  /** `merge_rotations` queues a head that has nothing to merge with. */
  lemma {:induction false} MergedQueues(g: Op, l: seq<Op>, fuse: (seq<real>, seq<real>) -> seq<real>, nearZero: seq<real> -> bool)
    requires var next := NextGate(g.wires, l);
      !IsComposableRotation(g.kind) || next.None? || !Merges(g, l[next.value])
    ensures Merged([g] + l, fuse, nearZero) == [g] + Merged(l, fuse, nearZero)
  {
    assert ([g] + l)[1..] == l;
  }

  /**
   * `merge_rotations` replaces a rotation and the next gate on its wires, when that one has
   * the same name and ordered wires, with their merged gate, or with nothing when its angles
   * are all close to zero.
   */
  lemma {:induction false} MergedMerges(g: Op, l: seq<Op>, k: nat, fuse: (seq<real>, seq<real>) -> seq<real>, nearZero: seq<real> -> bool)
    requires IsComposableRotation(g.kind) && NextGate(g.wires, l) == Some(k) && Merges(g, l[k])
    ensures var m := MergedGate(g, l[k], fuse);
      Merged([g] + l, fuse, nearZero) == (if nearZero(m.params) then [] else [m]) + Merged(RemoveAt(l, k), fuse, nearZero)
  {
    var gl := [g] + l;
    assert gl[1..] == l && gl[k + 1] == l[k] && gl[0] == g;
    RestIsTail(gl, k + 1);
  }

  /** The last two gates of the `merge_rotations` docstring circuit pass unchanged. */
  lemma {:induction false} MergeExampleTail(h: Op, crz: Op, fuse: (seq<real>, seq<real>) -> seq<real>, nearZero: seq<real> -> bool)
    requires h.kind == Hadamard && crz.kind == CRZ && |crz.params| == 1
    ensures Merged([h, crz], fuse, nearZero) == [h, crz]
  {
    assert [h, crz] == [h] + [crz] && [crz] == [crz] + [];
    MergedQueues(crz, [], fuse, nearZero);
    MergedQueues(h, [crz], fuse, nearZero);
  }

  /** On wire 1 of the `merge_rotations` docstring circuit, RY(y) and RY(-y) merge into a zero angle and vanish. */
  lemma {:induction false} MergeExampleWire1(y: real, h: Op, crz: Op, fuse: (seq<real>, seq<real>) -> seq<real>, nearZero: seq<real> -> bool)
    requires nearZero([0.0]) && h == Gate(Hadamard, [Int(2)]) && crz.kind == CRZ && crz.wires == [Int(2), Int(0)] && |crz.params| == 1
    ensures var w1 := Int(1);
      var l := [Rotation(RY, y, [w1]), h, crz, Rotation(RY, -y, [w1])];
      Merged(l, fuse, nearZero) == Merged([h, crz], fuse, nearZero)
  {
    var w1 := Int(1);
    var ry, ry' := Rotation(RY, y, [w1]), Rotation(RY, -y, [w1]);
    var n := [h, crz, ry'];
    assert n == [h] + [crz, ry'] && [crz, ry'] == [crz] + [ry'] && [ry'] == [ry'] + [];
    assert [ry, h, crz, ry'] == [ry] + n;
    assert RemoveAt(n, 2) == [h, crz];
    assert n[2] == ry' && MergedGate(ry, ry', fuse).params == [0.0];
    OneWireTests(w1, h);
    OneWireTests(w1, crz);
    OneWireTests(w1, ry');
    NextGateHits([w1], ry', []);
    NextGateSkips([w1], crz, [ry']);
    NextGateSkips([w1], h, [crz, ry']);
    MergedMerges(ry, n, 2, fuse, nearZero);
  }

  /** On wire 0 of the `merge_rotations` docstring circuit, RX(x) and RX(y) merge into RX(x + y). */
  lemma {:induction false} MergeExampleWire0(x: real, y: real, m: seq<Op>, fuse: (seq<real>, seq<real>) -> seq<real>, nearZero: seq<real> -> bool)
    requires !nearZero([x + y])
    ensures var w0 := Int(0);
      Merged([Rotation(RX, x, [w0]), Rotation(RX, y, [w0])] + m, fuse, nearZero)
      == [Rotation(RX, x + y, [w0])] + Merged(m, fuse, nearZero)
  {
    var w0 := Int(0);
    var rx, rx', merged := Rotation(RX, x, [w0]), Rotation(RX, y, [w0]), Rotation(RX, x + y, [w0]);
    var l := [rx'] + m;
    assert [rx, rx'] + m == [rx] + l;
    assert RemoveAt(l, 0) == m;
    assert l[0] == rx' && MergedGate(rx, rx', fuse) == merged;
    OneWireTests(w0, rx');
    NextGateHits([w0], rx', m);
    MergedMerges(rx, l, 0, fuse, nearZero);
  }

  /**
   * The circuit of the `merge_rotations` docstring: the two RX gates on wire 0 merge into
   * RX(x + y), RY(y) and RY(-y) on wire 1 cancel, and the other gates are kept in order.
   */
  lemma {:induction false} MergeRotationsExample(x: real, y: real, z: real, fuse: (seq<real>, seq<real>) -> seq<real>, nearZero: seq<real> -> bool)
    requires nearZero([0.0]) && !nearZero([x + y])
    ensures var w0, w1, w2 := Int(0), Int(1), Int(2);
      var l := [Rotation(RX, x, [w0]), Rotation(RX, y, [w0]), Gate(CNOT, [w1, w2]), Rotation(RY, y, [w1]),
                Gate(Hadamard, [w2]), Rotation(CRZ, z, [w2, w0]), Rotation(RY, -y, [w1])];
      Merged(l, fuse, nearZero) == [Rotation(RX, x + y, [w0]), Gate(CNOT, [w1, w2]), Gate(Hadamard, [w2]), Rotation(CRZ, z, [w2, w0])]
  {
    var w0, w1, w2 := Int(0), Int(1), Int(2);
    var rx, rx', c := Rotation(RX, x, [w0]), Rotation(RX, y, [w0]), Gate(CNOT, [w1, w2]);
    var ry, h2, crz, ry' := Rotation(RY, y, [w1]), Gate(Hadamard, [w2]), Rotation(CRZ, z, [w2, w0]), Rotation(RY, -y, [w1]);
    var n := [ry, h2, crz, ry'];
    var m := [c] + n;
    var merged := Rotation(RX, x + y, [w0]);
    assert [rx, rx', c, ry, h2, crz, ry'] == [rx, rx'] + m;
    assert [merged] + ([c] + [h2, crz]) == [merged, c, h2, crz];
    MergeExampleWire0(x, y, m, fuse, nearZero);
    MergedQueues(c, n, fuse, nearZero);
    MergeExampleWire1(y, h2, crz, fuse, nearZero);
    MergeExampleTail(h2, crz, fuse, nearZero);
  }

  /**
   * `cancel_inverses` is not idempotent: removing the PauliX pair in H X X H brings the two
   * Hadamards together only for the next pass.
   */
  lemma {:induction false} CancelInversesNotIdempotent(w: Wire)
    ensures var h, x := Gate(Hadamard, [w]), Gate(PauliX, [w]);
      Cancelled([h, x, x, h]) == [h, h] && Cancelled([h, h]) == []
  {
    var h, x := Gate(Hadamard, [w]), Gate(PauliX, [w]);
    assert [h, x, x, h] == [h] + [x, x, h] && [x, x, h] == [x] + [x, h] && [x, h] == [x] + [h];
    assert [h, h] == [h] + [h] && [h] == [h] + [];
    assert RemoveAt([x, h], 0) == [h] && RemoveAt([h], 0) == [];
    OneWireTests(w, x);
    OneWireTests(w, h);
    NextGateHits([w], x, [h]);
    NextGateHits([w], h, []);
    CancelledUnmatched(h, []);
    CancelledRemoves(x, [x, h], 0);
    CancelledBlocked(h, [x, x, h], 0);
    CancelledRemoves(h, [h], 0);
  }

  /**
   * As written, a gate whose class attribute `num_wires` is at most 1 is replaced, together
   * with the next gate on the same ordered wires, by their fused Rot on its wires, or by
   * nothing when the fused angles are all close to zero.
   */
  lemma {:induction false} FusedAsWrittenFuses(g: Op, l: seq<Op>, k: nat, fuse: (seq<real>, seq<real>) -> seq<real>, toRot: Op -> seq<real>, nearZero: seq<real> -> bool)
    requires NumWiresAttr(g.kind) <= 1 && NextGate(g.wires, l) == Some(k) && g.wires == l[k].wires
    ensures var f := FusedGate(g, l[k], fuse, toRot);
      FusedAsWritten([g] + l, fuse, toRot, nearZero)
      == (if nearZero(f.params) then [] else [f]) + FusedAsWritten(RemoveAt(l, k), fuse, toRot, nearZero)
  {
    var gl := [g] + l;
    assert gl[1..] == l && gl[k + 1] == l[k] && gl[0] == g;
    RestIsTail(gl, k + 1);
    var f := FusedGate(g, l[k], fuse, toRot);
    assert FuseStep(gl, false, fuse, toRot, nearZero) == Step(if nearZero(f.params) then [] else [f], RemoveAt(l, k));
  }

  /** As written, a gate whose class attribute `num_wires` exceeds 1 is queued unchanged. */
  lemma {:induction false} FusedAsWrittenPasses(g: Op, l: seq<Op>, fuse: (seq<real>, seq<real>) -> seq<real>, toRot: Op -> seq<real>, nearZero: seq<real> -> bool)
    requires NumWiresAttr(g.kind) > 1
    ensures FusedAsWritten([g] + l, fuse, toRot, nearZero) == [g] + FusedAsWritten(l, fuse, toRot, nearZero)
  {
    assert ([g] + l)[1..] == l;
  }

  /**
   * As written, the fusion reads the class attribute `num_wires`, which is AnyWires (-1) for
   * MultiControlledX: for two CNOT-like MultiControlledX gates on wires 0 and 1 the pass builds
   * a Rot on two wires, which is not a well-formed gate (the source's constructor refuses it),
   * or drops the pair when the fused angles are close to zero; either way the two gates are
   * not passed through.
   */
  lemma {:induction false} FusedAsWrittenFusesWideGates(fuse: (seq<real>, seq<real>) -> seq<real>, toRot: Op -> seq<real>, nearZero: seq<real> -> bool)
    ensures var g := Op(MultiControlledX, [Int(0), Int(1)], [], false, McxHyper("1", []));
      var f := FusedGate(g, g, fuse, toRot);
      FusedAsWritten([g, g], fuse, toRot, nearZero) == (if nearZero(f.params) then [] else [f])
      && !WellFormed(f)
      && Filter(NotSingleWire, FusedAsWritten([g, g], fuse, toRot, nearZero)) != Filter(NotSingleWire, [g, g])
  {
    var g := Op(MultiControlledX, [Int(0), Int(1)], [], false, McxHyper("1", []));
    var f := FusedGate(g, g, fuse, toRot);
    var out := if nearZero(f.params) then [] else [f];
    assert !WellFormed(f);
    assert Filter(NotSingleWire, [g, g]) != Filter(NotSingleWire, out) by {
      assert Filter(NotSingleWire, [g, g]) == [g, g] by {
        assert [g, g][1..] == [g] && [g][1..] == [];
      }
      assert Filter(NotSingleWire, [f]) == [f] by {
        assert [f][1..] == [];
      }
    }
    FusedAsWrittenPair(g, fuse, toRot, nearZero);
  }

  /** As written, two equal gates whose class attribute `num_wires` is at most 1 are fused with each other. */
  lemma {:induction false} FusedAsWrittenPair(g: Op, fuse: (seq<real>, seq<real>) -> seq<real>, toRot: Op -> seq<real>, nearZero: seq<real> -> bool)
    requires NumWiresAttr(g.kind) <= 1
    ensures var f := FusedGate(g, g, fuse, toRot);
      FusedAsWritten([g, g], fuse, toRot, nearZero) == (if nearZero(f.params) then [] else [f])
  {
    var f := FusedGate(g, g, fuse, toRot);
    var out := if nearZero(f.params) then [] else [f];
    assert [g, g] == [g] + [g] && RemoveAt([g], 0) == [] && out + [] == out;
    NextGateHits(g.wires, g, []);
    FusedAsWrittenFuses(g, [g], 0, fuse, toRot, nearZero);
    assert FusedAsWritten([], fuse, toRot, nearZero) == [];
  }

  /** With the guard on the gate's own wires, the same two gates pass through unchanged. */
  lemma {:induction false} FusedKeepsWideGates(fuse: (seq<real>, seq<real>) -> seq<real>, toRot: Op -> seq<real>, nearZero: seq<real> -> bool)
    ensures var g := Op(MultiControlledX, [Int(0), Int(1)], [], false, McxHyper("1", []));
      Fused([g, g], fuse, toRot, nearZero) == [g, g]
  {
    var g := Op(MultiControlledX, [Int(0), Int(1)], [], false, McxHyper("1", []));
    assert [g, g][1..] == [g] && [g][1..] == [] && [g] + [g] == [g, g];
    assert Fused([g], fuse, toRot, nearZero) == [g];
  }
}
