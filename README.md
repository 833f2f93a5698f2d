# PennyLane circuit rewriting and permutation-gate semantics in Dafny

This project models three pieces of a PennyLane fork:

- **The peephole rewrite passes** of `pennylane/transforms/optimization.py`:
  - the adjacency scanner `_find_next_gate`;
  - the passes `cancel_inverses`, `merge_rotations` and `single_qubit_fusion`.

  Each pass is a method with a `while` loop over a `seq` work list that pops the head and the matched gate. Each method is proved equal to a recursive specification function. The lemmas about those functions state what the passes keep, drop and emit.
- **The gate algebra** of `pennylane/ops/qubit/non_parametric_ops.py`:
  - gate kinds and their class attributes;
  - the fixed decomposition tables;
  - the adjoint rules, the controlled forms and the control wires;
  - `MultiControlledX`: construction and validation, the control-value bit string, the padding arithmetic, the lazily cached matrix (a class whose `Matrix` method fills the cache), the adjoint, and the Toffoli-ladder decompositions of Lemmas 7.2 and 7.3 of Barenco et al. (arXiv quant-ph/9503016).

  The many-worker decomposition keeps the source's four index loops.
- **The embedding behaviour of `get_unitary_matrix`**, as `tests/transforms/test_get_unitary_matrix.py` pins it down:
  - the first wire of the wire order is the most significant bit;
  - operations compose in tape order, later ones multiplied on the left;
  - a gate's argument order decides control and target, whatever the wire order.

  For permutation gates the model computes the unitary exactly. The gates are PauliX, CNOT, SWAP, Toffoli, CSWAP and MultiControlledX. Their matrices are 0/1 matrices, so the unitary is fixed by where it sends each basis state. The model proves the tests' basis-state cases, the placement of a one-wire gate in the Kronecker product, and composition. It also proves that the result is a permutation matrix. On basis states it proves every MultiControlledX decomposition correct.

Angles are symbolic `real`s. `fuse_rot`, `convert_to_rot` and the `np.allclose` near-zero test are function parameters of the passes. A basis state is a map from wires to bits. Wires are integers or string labels.

Modules, one per file:
- `Results`: Option, Result and the errors raised.
- `Wires`: the `unique_wires` and `shared_wires` tests, Wires addition, and duplicate-free wire lists.
- `Sequences`: `list.pop`, subsequences, filtering and reversal.
- `Binary`: powers of two, `int(s, 2)`, and big-endian basis numbering.
- `Operators`: the gate algebra.
- `MultiControlled`: the MultiControlledX class and its decompositions.
- `BasisStates`: the action of permutation gates on basis states.
- `McxSemantics`: the Lemma 7.2 ladders.
- `McxCorrectness`: Lemma 7.3, the flips and the whole decomposition.
- `Optimization`: the rewrite passes.
- `Embedding`: `get_unitary_matrix` on permutation circuits.

## Model

| member | source | states |
|---|---|---|
| `Wires.UniqueWires` | pennylane/transforms/optimization.py:43 | a label is unique exactly when it is in one list and not the other; none is unique exactly when the two lists hold the same set |
| `Wires.SharedWires` | pennylane/transforms/optimization.py:50 | a label is shared exactly when both lists hold it |
| `Wires.Union` | pennylane/ops/qubit/non_parametric_ops.py:1334 | Wires addition keeps the first list as a prefix and holds exactly the labels of either list; what it appends comes from the second list and not the first |
| `Wires.UnionOrder` | pennylane/ops/qubit/non_parametric_ops.py:1334 | the labels Wires addition appends come in the order in which they first appear in the second list |
| `Wires.UnionFromEmpty` | pennylane/ops/qubit/non_parametric_ops.py:1334 | adding a list to no wires deduplicates it: duplicate-free, the same labels, in order of first appearance |
| `Wires.UnionAssoc` | pennylane/ops/qubit/non_parametric_ops.py:1334 | adding c to the sum of a and b is adding the concatenation of b and c to a |
| `Wires.UnionAbsorbs` | pennylane/ops/qubit/non_parametric_ops.py:1334 | adding a label the list already holds leaves the list unchanged |
| `Wires.UnionOverlap` | pennylane/ops/qubit/non_parametric_ops.py:219-220 | a label both lists hold is added once, so the sum is shorter than the two lists together |
| `Wires.UnionNoDup` | pennylane/ops/qubit/non_parametric_ops.py:1334 | adding wires keeps a Wires object duplicate-free, and adding disjoint wires is concatenation |
| `Sequences.RemoveAt` | pennylane/transforms/optimization.py:138 | `list.pop(i)` shortens the list by one, keeps the elements before i and shifts those after it |
| `Sequences.Reversed` | pennylane/ops/qubit/non_parametric_ops.py:1474-1475 | `list(reversed(s))` holds s's element n - 1 - i at index i |
| `Binary.Ones` | pennylane/ops/qubit/non_parametric_ops.py:1336-1337 | `"1" * n` is a bit string of n ones |
| `Binary.BinaryValue` | pennylane/ops/qubit/non_parametric_ops.py:1381 | `int(s, 2)` of an n-digit bit string is below 2^n |
| `Binary.BinaryValueIsIndex` | pennylane/ops/qubit/non_parametric_ops.py:1381 | `int(s, 2)` is the number of the basis state the string spells, first digit most significant |
| `Binary.BitsOf` | tests/transforms/test_get_unitary_matrix.py:29-48 | basis state j on n wires has n bits and is numbered j |
| `Binary.BitsOfIndex` | tests/transforms/test_get_unitary_matrix.py:29-48 | a basis state is recovered from its number |
| `Binary.IndexInjective` | tests/transforms/test_get_unitary_matrix.py:29-48 | distinct basis states of the same width have distinct numbers |
| `Operators.NumParams` | pennylane/ops/qubit/non_parametric_ops.py:148-149 | the `num_params` property: one angle for RX, RY, RZ, PhaseShift, CRX, CRY and CRZ, three for Rot, none for the other gates; no contract of its own, `Operators.WellFormed` requires a gate to carry that many |
| `Operators.IsSelfInverse` | pennylane/transforms/optimization.py:116 | the `is_self_inverse` attribute the cancelling pass tests; no contract of its own, `Operators.SelfInverseAdjoint` states the adjoint of such a gate is the gate without its marker, and `BasisStates.ApplyTwice` that it undoes itself |
| `Operators.IsSymmetricOverWires` | pennylane/transforms/optimization.py:142 | the `is_symmetric_over_wires` attribute (CZ and SWAP); no contract of its own, `Optimization.CancelledRemoves` and `Optimization.CancelledBlocked` state that a pair of these kinds cancels whatever the order of its wires, and a pair of another kind only on the same ordered wires |
| `Operators.IsComposableRotation` | pennylane/transforms/optimization.py:211 | the `is_composable_rotation` attribute the merging pass tests; no contract of its own, `Optimization.MergedKeepsOthers` states that gates without it pass through |
| `Operators.WellFormed` | pennylane/ops/qubit/non_parametric_ops.py:1317-1349 | what constructing a gate establishes: distinct wires, the class arity, at least two wires for MultiControlledX, the parameter count and the stored hyperparameters; no contract of its own, `MultiControlled.McxOpWellFormed` and `Optimization.MergedGateWellFormed` state that construction and merging produce it |
| `Operators.Inv` | pennylane/ops/qubit/non_parametric_ops.py:478-479 | `.inv()` toggles the inverse marker and changes nothing else |
| `Operators.NameOf` | pennylane/transforms/optimization.py:230 | the `name` property: the class name, with ".inv" when the inverse marker is set, so two gates have the same name exactly when their kinds and markers agree; no contract of its own, `Optimization.Merges` and `Optimization.Cancels` compare it, and `Optimization.MergedAsWrittenDropsInverse` shows the marker deciding a merge |
| `Operators.NumWiresAttr` | pennylane/ops/qubit/non_parametric_ops.py:1305 | the class attribute `num_wires`: one for the single-qubit gates, two for the two-qubit gates, three for CSWAP and Toffoli, AnyWires for MultiControlledX and Barrier; no contract of its own, `Operators.WellFormed` requires a fixed arity to match the wire count, `Operators.ControlledKind` adds one wire, and `Optimization.FusedAsWrittenFusesWideGates` and `Optimization.FusedAgree` show that `num_wires > 1` passes two-qubit gates through |
| `Operators.HyperFits` | pennylane/ops/qubit/non_parametric_ops.py:1346-1347 | the hyperparameters each constructor stores: work wires and a control string of one bit per control for MultiControlledX, the Barrier's own, none for the other gates; no contract of its own, `Operators.WellFormed` requires it and `MultiControlled.McxOpWellFormed` establishes it |
| `Operators.MarkedAdjoint` | pennylane/ops/qubit/non_parametric_ops.py:478-479 | the kinds whose `adjoint()` returns the gate with `.inv()` applied: S, T, SX, ISWAP and SISWAP; no contract of its own, `Operators.AdjointAsWritten` and `Operators.Adjoint` state the adjoint it selects |
| `Operators.AppliesInverse` | pennylane/ops/qubit/non_parametric_ops.py:478-479 | what the inverse marker means: the gate applies the inverse of its class's unitary, except on self-inverse kinds, where it changes nothing; no contract of its own, `Operators.Adjoint` and `Operators.AdjointInvolution` state that the adjoint flips it |
| `Operators.HasControlledForm` | pennylane/ops/qubit/non_parametric_ops.py:219-867 | the kinds whose class defines `_controlled`: PauliX, PauliY, PauliZ, CNOT and SWAP; no contract of its own, `Operators.ControlledKind` and `Operators.Controlled` state what it builds |
| `Operators.Decomposition` | pennylane/ops/qubit/non_parametric_ops.py:89-1593 | a fixed decomposition exists exactly for H, X, Y, Z, S, T, SX, CY, SWAP, ISWAP, SISWAP, CSWAP, Toffoli and Barrier |
| `Operators.DecompositionOnOwnWires` | pennylane/ops/qubit/non_parametric_ops.py:89-1593 | every gate of a fixed decomposition is well formed and acts only on wires of the decomposed gate |
| `Operators.OneWireOnOwnWires` | pennylane/ops/qubit/non_parametric_ops.py:89-619 | each one-wire decomposition is made of well-formed gates on the gate's own wire |
| `Operators.CyOnOwnWires` | pennylane/ops/qubit/non_parametric_ops.py:792 | CY's decomposition stays on its two wires |
| `Operators.SwapOnOwnWires` | pennylane/ops/qubit/non_parametric_ops.py:856-861 | SWAP's decomposition stays on its two wires |
| `Operators.IswapOnOwnWires` | pennylane/ops/qubit/non_parametric_ops.py:933-941 | ISWAP's decomposition stays on its two wires |
| `Operators.SiswapOnOwnWires` | pennylane/ops/qubit/non_parametric_ops.py:1023-1037 | SISWAP's decomposition stays on its two wires |
| `Operators.CswapOnOwnWires` | pennylane/ops/qubit/non_parametric_ops.py:1120-1125 | CSWAP's decomposition stays on its three wires |
| `Operators.ToffoliOnOwnWires` | pennylane/ops/qubit/non_parametric_ops.py:1224-1241 | each of Toffoli's 15 gates uses only the Toffoli's own three wires |
| `Operators.SwapDecompositionShape` | pennylane/ops/qubit/non_parametric_ops.py:856-861 | SWAP(a, b) is CNOT(a, b), CNOT(b, a), CNOT(a, b) |
| `Operators.CswapDecompositionShape` | pennylane/ops/qubit/non_parametric_ops.py:1120-1125 | CSWAP(w0, w1, w2) is three Toffolis, all controlled first on w0, the other two wires crossing |
| `Operators.ToffoliDecompositionKinds` | pennylane/ops/qubit/non_parametric_ops.py:1224-1241 | Toffoli is 15 gates of kinds H, CNOT and T, with H on the target at positions 0 and 11 |
| `Operators.ToffoliDecompositionTargets` | pennylane/ops/qubit/non_parametric_ops.py:1224-1241 | in Toffoli's decomposition every H acts on the target alone and no CNOT targets the first control |
| `Operators.CyDecompositionShape` | pennylane/ops/qubit/non_parametric_ops.py:769-792 | CY is CRY(pi) on both wires, then S on its control wire |
| `Operators.BarrierDecompositionEmpty` | pennylane/ops/qubit/non_parametric_ops.py:1568-1593 | a Barrier decomposes into nothing |
| `Operators.PhaseLadder` | pennylane/ops/qubit/non_parametric_ops.py:454-543 | every well-formed Z, S and T gate decomposes into one well-formed, unmarked PhaseShift on its own wire; T's angle doubled is S's, and S's doubled is Z's |
| `Operators.AdjointAsWritten` | pennylane/ops/qubit/non_parametric_ops.py:120-1393 | the adjoint exists for self-inverse kinds and for S, T, SX, ISWAP and SISWAP. It keeps kind, wires and hyperparameters, and is inverse-marked exactly for the latter five |
| `Operators.Adjoint` | pennylane/ops/qubit/non_parametric_ops.py:478-479 | the corrected adjoint exists for the same kinds, is well formed and keeps kind, wires and hyperparameters. For S, T, SX, ISWAP and SISWAP it applies the inverse exactly when the gate does not; for a self-inverse kind it applies no inverse |
| `Operators.SelfInverseAdjoint` | pennylane/ops/qubit/non_parametric_ops.py:120-121 | a self-inverse gate's adjoint is the gate without its marker; the self-inverse kinds are exactly those whose adjoint acts as the gate |
| `Operators.AdjointInvolution` | pennylane/ops/qubit/non_parametric_ops.py:478-479 | taking the corrected adjoint twice gives back the gate's kind, wires, hyperparameters and action |
| `Operators.AdjointAsWrittenNotInvolution` | pennylane/ops/qubit/non_parametric_ops.py:478-479 | as written, the adjoint of S.inv is S.inv again |
| `Operators.ControlledKind` | pennylane/ops/qubit/non_parametric_ops.py:219-867 | the kind of the controlled form (CNOT, CY, CZ, Toffoli, CSWAP for X, Y, Z, CNOT, SWAP) takes one wire more and no parameters |
| `Operators.Controlled` | pennylane/ops/qubit/non_parametric_ops.py:219-867 | the controlled form exists exactly for X, Y, Z, CNOT and SWAP and a control not on the gate's wires: it is the well-formed controlled kind on the new control followed by the gate's wires. Another kind has no controlled form; a control on one of the gate's own wires is absorbed by Wires addition and the construction fails on the wire count |
| `Operators.ControlWires` | pennylane/ops/qubit/non_parametric_ops.py:672-1365 | control wires exist for CNOT, CZ, CY, CSWAP, Toffoli and MultiControlledX and are a proper, non-empty prefix of the wires |
| `Operators.ControlledControlWires` | pennylane/ops/qubit/non_parametric_ops.py:668-673 | the controlled form's control wires are the new wire followed by the old controls, and the targets are unchanged |
| `BasisStates.ApplyGate` | pennylane/ops/qubit/non_parametric_ops.py:145-1359 | the matrix of each permutation gate as its action on a basis state, which keeps the set of wires; `BasisStates.CnotIsCx`, `BasisStates.ToffoliIsCcx` and `BasisStates.ApplyTwice` state what that action is |
| `BasisStates.CnotIsCx` | pennylane/ops/qubit/non_parametric_ops.py:652 | CNOT negates its target exactly when its control is set |
| `BasisStates.ToffoliIsCcx` | pennylane/ops/qubit/non_parametric_ops.py:1163 | Toffoli negates its target exactly when both controls are set |
| `BasisStates.ApplyTwice` | pennylane/ops/qubit/non_parametric_ops.py:1304 | every permutation gate is self-inverse and undoes itself on every basis state |
| `BasisStates.RunAppend` | tests/transforms/test_get_unitary_matrix.py:52-67 | running a + b is running a and then b |
| `BasisStates.CxExchange` | pennylane/ops/qubit/non_parametric_ops.py:856-861 | three CNOTs with alternating control exchange the two bits |
| `BasisStates.SwapDecompositionCorrect` | pennylane/ops/qubit/non_parametric_ops.py:856-861 | SWAP and its decomposition act alike on every basis state |
| `BasisStates.CcxExchange` | pennylane/ops/qubit/non_parametric_ops.py:1120-1125 | three Toffolis with a common control exchange the other two bits when the control is set |
| `BasisStates.CswapGatesCorrect` | pennylane/ops/qubit/non_parametric_ops.py:1120-1125 | the CSWAP decomposition exchanges wires 1 and 2 exactly when wire 0 is set |
| `BasisStates.CswapDecompositionCorrect` | pennylane/ops/qubit/non_parametric_ops.py:1120-1125 | CSWAP and its decomposition act alike on every basis state |
| `BasisStates.ControlledCorrect` | pennylane/ops/qubit/non_parametric_ops.py:219-867 | the controlled form of X, CNOT and SWAP applies the gate exactly when the new control is set |
| `BasisStates.CnotToffoliAreMcx` | pennylane/ops/qubit/non_parametric_ops.py:1443-1446 | CNOT and Toffoli act as MultiControlledX on control strings "1" and "11" |
| `MultiControlled.Falsy` | pennylane/ops/qubit/non_parametric_ops.py:1336 | the control arguments `not control_values` accepts: None and the empty string; no contract of its own, `MultiControlled.EffectiveControls` states what replaces them |
| `MultiControlled.EffectiveControls` | pennylane/ops/qubit/non_parametric_ops.py:1336-1337 | a falsy control argument becomes the all-ones string; any other is kept |
| `MultiControlled.ParseControlValues` | pennylane/ops/qubit/non_parametric_ops.py:1371-1385 | parsing succeeds exactly for a non-empty bit string with one digit per control, giving `int(s, 2)`, which is below 2 to the number of controls. A non-string, a string of the wrong length, a digit other than 0 or 1, and an empty string with no controls each give their own error |
| `MultiControlled.Construct` | pennylane/ops/qubit/non_parametric_ops.py:1309-1349 | construction fails, in this order, for a wire list holding a label twice, for a target list that is not one wire, for work wires shared with the target or controls, and with the parse error of a bad control string. On success it keeps controls, target, work wires and the effective control string |
| `MultiControlled.PaddingArithmetic` | pennylane/ops/qubit/non_parametric_ops.py:1342-1343 | the wires are the controls then the target; padding_left = 2c is even, padding_right >= 0, and padding_left + 2 + padding_right = 2^(n+1) |
| `MultiControlled.DefaultControlValues` | pennylane/ops/qubit/non_parametric_ops.py:1336-1343 | an absent control string is all ones, placing the X block at the last two rows |
| `MultiControlled.OnesValue` | pennylane/ops/qubit/non_parametric_ops.py:1337 | `int("1" * n, 2)` is 2^n - 1 |
| `MultiControlled.NoControlsRejected` | pennylane/ops/qubit/non_parametric_ops.py:1336-1381 | without control wires construction fails |
| `MultiControlled.SwapPair` | pennylane/ops/qubit/non_parametric_ops.py:1357-1359 | the index that the X block on the last two rows sends a basis index to: the index with its lowest bit flipped, inside the block; no contract of its own, `MultiControlled.SwapPairInvolution` states that it undoes itself |
| `MultiControlled.SwapPairInvolution` | pennylane/ops/qubit/non_parametric_ops.py:1357-1359 | the row exchange of the X block undoes itself |
| `MultiControlled.BlockDiagX` | pennylane/ops/qubit/non_parametric_ops.py:1357-1359 | `block_diag(eye(pl), X, eye(pr))` is square of size pl + 2 + pr |
| `MultiControlled.BlockDiagXEntries` | pennylane/ops/qubit/non_parametric_ops.py:1357-1359 | the matrix is the identity but for the X block at rows and columns pl and pl + 1, and is symmetric |
| `MultiControlled.MultiControlledX.Init` | pennylane/ops/qubit/non_parametric_ops.py:1330-1347 | the object holds the validated fields with an empty matrix cache |
| `MultiControlled.MultiControlledX.Valid` | pennylane/ops/qubit/non_parametric_ops.py:1317-1361 | the object invariant: the fields come from a successful construction, and a filled `_CX` cache holds the block matrix; no contract of its own, `MultiControlled.MultiControlledX.New` establishes it and `MultiControlled.MultiControlledX.Matrix` keeps it |
| `MultiControlled.MultiControlledX.New` | pennylane/ops/qubit/non_parametric_ops.py:1309-1349 | constructing raises exactly what `Construct` rejects, repeated labels included, with the same error, and otherwise yields a fresh valid object with those fields |
| `MultiControlled.MultiControlledX.Matrix` | pennylane/ops/qubit/non_parametric_ops.py:1355-1361 | `_matrix` returns the block matrix and leaves it in the cache; a negative right padding is an error |
| `MultiControlled.MultiControlledX.AsOp` | pennylane/ops/qubit/non_parametric_ops.py:1346-1365 | the gate as a tape operation is well formed, its control wires are the controls and its last wire is the target |
| `MultiControlled.MultiControlledX.Adjoint` | pennylane/ops/qubit/non_parametric_ops.py:1387-1393 | when the target is not among the controls, the adjoint is a fresh MultiControlledX with the same fields; when it is, the wires are the controls alone and the adjoint's construction fails on the control-string length |
| `MultiControlled.ReconstructOnControl` | pennylane/ops/qubit/non_parametric_ops.py:1387-1393 | with the target among the controls, rebuilding from all wires but the last passes the wire checks and fails on the control-string length |
| `MultiControlled.Reconstruct` | pennylane/ops/qubit/non_parametric_ops.py:1387-1393 | rebuilding from all wires but the last, the last, the control string and the work wires gives the same fields |
| `MultiControlled.ZeroPositions` | pennylane/ops/qubit/non_parametric_ops.py:1439-1441 | the positions listed are exactly those of the '0' digits, increasing |
| `MultiControlled.Flips` | pennylane/ops/qubit/non_parametric_ops.py:1439-1441 | one PauliX per '0' digit on the matching control wire; an index error when a '0' lies past the last control |
| `MultiControlled.Partition` | pennylane/ops/qubit/non_parametric_ops.py:1513-1514 | the split point is ceil((n + 2) / 2) |
| `MultiControlled.Rung` | pennylane/ops/qubit/non_parametric_ops.py:1479-1483 | the Toffoli on control k + 2, work wire k and work wire k + 1 (the target above the last); no contract of its own, `MultiControlled.RungAmong` states its wires and `McxSemantics.RungAct` its action |
| `MultiControlled.Base` | pennylane/ops/qubit/non_parametric_ops.py:1485 | the Toffoli on the first two controls and the first work wire; no contract of its own, `MultiControlled.BaseAmong` states its wires and `McxSemantics.BaseAct` its action |
| `MultiControlled.Ladder` | pennylane/ops/qubit/non_parametric_ops.py:1477-1491 | rungs h - 1 down to 0, the foot, rungs 0 up to h - 1; no contract of its own, `MultiControlled.LadderAmong` states its shape and `McxSemantics.RunLadder` its action |
| `MultiControlled.ManyWorkers` | pennylane/ops/qubit/non_parametric_ops.py:1466-1507 | Lemma 7.2: the full ladder then the ladder one rung shorter, on the first n - 2 work wires; no contract of its own, `MultiControlled.ManyWorkersShape` states its shape and `McxSemantics.ManyWorkersCorrect` its action |
| `MultiControlled.OuterRung` | pennylane/ops/qubit/non_parametric_ops.py:1479-1483 | the Toffoli of the first and second loops at index i is ladder rung m - 1 - i |
| `MultiControlled.InnerRung` | pennylane/ops/qubit/non_parametric_ops.py:1493-1497 | the Toffoli of the third and fourth loops at index i is ladder rung m - 2 - i |
| `MultiControlled.RungAmong` | pennylane/ops/qubit/non_parametric_ops.py:1479-1483 | a rung is a Toffoli on three wires among controls, work wires and target, distinct when they are |
| `MultiControlled.BaseAmong` | pennylane/ops/qubit/non_parametric_ops.py:1485 | the foot Toffoli is on the first two controls and the first work wire, distinct when the inputs are |
| `MultiControlled.LadderAmong` | pennylane/ops/qubit/non_parametric_ops.py:1477-1491 | a ladder of height h is 2h + 1 such Toffolis |
| `MultiControlled.ManyWorkersShape` | pennylane/ops/qubit/non_parametric_ops.py:1466-1507 | only the first n - 2 work wires are used, the decomposition is 4(n - 2) Toffolis, the first targets the target wire, and each acts on wires drawn from the controls, those work wires and the target, three distinct ones when those lists are duplicate-free and apart |
| `MultiControlled.DecompositionWithManyWorkers` | pennylane/ops/qubit/non_parametric_ops.py:1467-1507 | the four index loops build exactly the two ladders of Lemma 7.2 |
| `MultiControlled.OuterLoopDown` | pennylane/ops/qubit/non_parametric_ops.py:1479-1483 | the first loop appends the descending rungs of the full ladder |
| `MultiControlled.OuterLoopUp` | pennylane/ops/qubit/non_parametric_ops.py:1487-1491 | the second loop appends the ascending rungs of the full ladder |
| `MultiControlled.InnerLoopDown` | pennylane/ops/qubit/non_parametric_ops.py:1493-1497 | the third loop appends the descending rungs of the shorter ladder |
| `MultiControlled.InnerLoopUp` | pennylane/ops/qubit/non_parametric_ops.py:1501-1505 | the fourth loop appends the ascending rungs of the shorter ladder |
| `MultiControlled.ComputeDecomposition` | pennylane/ops/qubit/non_parametric_ops.py:1396-1464 | `compute_decomposition`, running the looping construction, returns the specified decomposition |
| `MultiControlled.DecompositionOf` | pennylane/ops/qubit/non_parametric_ops.py:1431-1464 | `compute_decomposition`: the control-value flips, the core gates, the same flips; no contract of its own, `MultiControlled.ComputeDecomposition` is proved equal to it, `McxCorrectness.DecompositionOutcome` states its errors and `McxCorrectness.DecompositionCorrect` its action |
| `MultiControlled.CoreDecomposition` | pennylane/ops/qubit/non_parametric_ops.py:1443-1458 | a CNOT for one control, a Toffoli for two, the many-worker ladders when there are n - 2 work wires, the one-worker gates otherwise; no contract of its own, `McxCorrectness.CoreCorrect` states its action |
| `MultiControlled.OneWorker` | pennylane/ops/qubit/non_parametric_ops.py:1510-1542 | Lemma 7.3: two MultiControlledX gates, each applied twice, through one work wire; no contract of its own, `McxCorrectness.OneWorkerShape` states its shape and `McxCorrectness.OneWorkerCorrect` its action |
| `MultiControlled.McxOp` | pennylane/ops/qubit/non_parametric_ops.py:1519-1540 | a MultiControlledX built inside the one-worker decomposition succeeds exactly when its constructor does, and is then an unmarked MultiControlledX |
| `MultiControlled.McxOpWellFormed` | pennylane/ops/qubit/non_parametric_ops.py:1317-1349 | a MultiControlledX the constructor accepts, with the target apart from the controls, is a well-formed gate on the controls then the target, and its control wires are the controls |
| `McxSemantics.EffectTwice` | pennylane/ops/qubit/non_parametric_ops.py:1477-1491 | a ladder's action undoes itself |
| `McxSemantics.TwoLadders` | pennylane/ops/qubit/non_parametric_ops.py:1477-1505 | the full ladder's action followed by the shorter ladder's is the toggle at the top of the ladder, which leaves the work wires as they were |
| `McxSemantics.RunLadder` | pennylane/ops/qubit/non_parametric_ops.py:1477-1491 | running a ladder's Toffolis gives the ladder's action |
| `McxSemantics.ToggleTop` | pennylane/ops/qubit/non_parametric_ops.py:1466-1470 | toggling the top of the full ladder negates the target exactly when every control is set |
| `McxSemantics.TwoLaddersRun` | pennylane/ops/qubit/non_parametric_ops.py:1477-1505 | running the gates of both ladders is applicable and gives that toggle |
| `McxSemantics.ManyWorkersCorrect` | pennylane/ops/qubit/non_parametric_ops.py:1466-1507 | Lemma 7.2: the many-worker decomposition negates the target exactly when all controls are set, and changes nothing else, work wires included |
| `McxCorrectness.MatchesOnes` | pennylane/ops/qubit/non_parametric_ops.py:1336-1337 | control on the all-ones string is control on every wire being set |
| `McxCorrectness.McxOpOk` | pennylane/ops/qubit/non_parametric_ops.py:1519-1540 | each MultiControlledX the one-worker split builds constructs without error, with all-ones control values |
| `McxCorrectness.McxOpAct` | pennylane/ops/qubit/non_parametric_ops.py:1519-1540 | that gate negates its target exactly when all its controls are set |
| `McxCorrectness.FourSteps` | pennylane/ops/qubit/non_parametric_ops.py:1519-1540 | four controlled negations alternating work wire and target negate the target by both blocks of controls and restore the work wire |
| `McxCorrectness.OneWorkerShape` | pennylane/ops/qubit/non_parametric_ops.py:1513-1542 | the two parts concatenate to the controls; the four gates are g0, g1, g0, g1 on disjoint, duplicate-free wires |
| `McxCorrectness.SplitGateSteps` | pennylane/ops/qubit/non_parametric_ops.py:1519-1540 | each of the four gates built from a split of the controls applies and acts as its controlled negation, in turn |
| `McxCorrectness.SplitGatesCorrect` | pennylane/ops/qubit/non_parametric_ops.py:1519-1540 | the four gates built from a split of the controls, run in turn, negate the target exactly when every control of both parts is set |
| `McxCorrectness.OneWorkerCorrect` | pennylane/ops/qubit/non_parametric_ops.py:1510-1542 | Lemma 7.3: the four gates with one work wire negate the target exactly when every control is set |
| `McxCorrectness.RunXGates` | pennylane/ops/qubit/non_parametric_ops.py:1439-1441 | a PauliX on each of some distinct wires negates exactly those wires |
| `McxCorrectness.NegatedTwice` | pennylane/ops/qubit/non_parametric_ops.py:1460-1464 | the second list of flips undoes the first |
| `McxCorrectness.FlipsAreXGates` | pennylane/ops/qubit/non_parametric_ops.py:1439-1441 | the flips are one PauliX per zero wire, in order |
| `McxCorrectness.ZeroWiresFacts` | pennylane/ops/qubit/non_parametric_ops.py:1439-1441 | the flipped wires are distinct controls, and a control is flipped exactly when its value is '0' |
| `McxCorrectness.NegatedMatches` | pennylane/ops/qubit/non_parametric_ops.py:1439-1464 | after the flips, all controls are set exactly when they held their control values |
| `McxCorrectness.CoreCorrect` | pennylane/ops/qubit/non_parametric_ops.py:1443-1458 | the gates between the flips negate the target exactly when every control is set, in each of the four cases |
| `McxCorrectness.FlipSandwich` | pennylane/ops/qubit/non_parametric_ops.py:1460-1464 | flips, core and flips end in the core's result with the flips undone |
| `McxCorrectness.DecompositionParts` | pennylane/ops/qubit/non_parametric_ops.py:1431-1464 | an accepted decomposition is the flips, the core and the same flips, with the last wire as target |
| `McxCorrectness.PartsAct` | pennylane/ops/qubit/non_parametric_ops.py:1431-1464 | those parts run on a basis state act as the MultiControlledX |
| `McxCorrectness.DecompositionCorrect` | pennylane/ops/qubit/non_parametric_ops.py:1396-1464 | every decomposition returned for a valid MultiControlledX acts on each basis state exactly as the gate |
| `McxCorrectness.DecompositionOutcome` | pennylane/ops/qubit/non_parametric_ops.py:1431-1446 | no wires or a lone target is an index error; more than two controls and no work wire is the work-wire error; otherwise success exactly when no '0' lies past the last control |
| `Optimization.NextGateFrom` | pennylane/transforms/optimization.py:41-56 | the scan from index k: an index it returns lies in the list at or after k; `Optimization.NextGateFromSpec` states which gate it finds |
| `Optimization.NextGate` | pennylane/transforms/optimization.py:26-58 | `_find_next_gate`: an index it returns lies in the list; `Optimization.NextGateSpec` states which gate it finds |
| `Optimization.NextGateFromSpec` | pennylane/transforms/optimization.py:41-56 | the scan from k, everything before k stepped over, returns the first gate on the same wire set or stops at a partial overlap |
| `Optimization.NextGateSpec` | pennylane/transforms/optimization.py:39-58 | the index returned is that of the first gate on the same wire set, every gate before it sharing no wire. None means every gate shares no wire, or the first that shares one is on a different set |
| `Optimization.FindNextGate` | pennylane/transforms/optimization.py:39-58 | the loop with `break` returns the scanner's result |
| `Optimization.WireTests` | pennylane/transforms/optimization.py:43-50 | the scanner's two tests are set equality and disjointness of the wires |
| `Optimization.OneWireTests` | pennylane/transforms/optimization.py:43-50 | for one wire, the tests compare the single label |
| `Optimization.NextGateFromShift` | pennylane/transforms/optimization.py:41-51 | a gate in front shifts every later scan result by one |
| `Optimization.NextGateSkips` | pennylane/transforms/optimization.py:47-51 | the scan steps over a gate on other wires |
| `Optimization.NextGateHits` | pennylane/transforms/optimization.py:42-45 | the scan stops at a gate on the same wire set |
| `Optimization.Rest` | pennylane/transforms/optimization.py:138-151 | popping the match and then the head leaves two fewer gates |
| `Optimization.RestIsTail` | pennylane/transforms/optimization.py:138-151 | that is the tail with the match removed, a subsequence of the list |
| `Optimization.FilterRest` | pennylane/transforms/optimization.py:138-151 | dropping two gates a property rejects keeps every gate it accepts |
| `Optimization.QueueMeasurements` | pennylane/transforms/optimization.py:153-155 | measurements are queued unchanged and in order |
| `Optimization.Cancels` | pennylane/transforms/optimization.py:132-148 | the matched gate has the head's name and either its ordered wires or a kind symmetric over wires; no contract of its own, `Optimization.CancelledRemoves` and `Optimization.CancelledBlocked` state when a pair is removed and when it is kept |
| `Optimization.Merges` | pennylane/transforms/optimization.py:230 | the merge test: the matched gate has the head's name (kind and inverse marker) and the same ordered wires; no contract of its own, `Optimization.MergedGateAngle`, `Optimization.MergedMerges` and `Optimization.MergedAsWrittenDropsInverse` state what a merge yields |
| `Optimization.CancelStep` | pennylane/transforms/optimization.py:112-151 | an iteration queues the head, or queues nothing and consumes two gates |
| `Optimization.Cancelled` | pennylane/transforms/optimization.py:112-151 | the pass never emits more gates than it reads; what it keeps and drops is stated by `Optimization.CancelledSubseq` (the output is a subsequence of the input) and `Optimization.CancelledKeepsOthers` (every gate that is not self-inverse is kept, in order) |
| `Optimization.CancelInverses` | pennylane/transforms/optimization.py:109-155 | the loop queues the specified gates, then the measurements unchanged |
| `Optimization.CancelledPairs` | pennylane/transforms/optimization.py:131-151 | the gates removed are a whole number of pairs |
| `Optimization.CancelledDropsPairs` | pennylane/transforms/optimization.py:131-151 | an even number of gates is removed |
| `Optimization.CancelStepSubseq` | pennylane/transforms/optimization.py:112-151 | one iteration keeps what it queues and what remains in input order |
| `Optimization.CancelledSubseq` | pennylane/transforms/optimization.py:109-151 | the output is a subsequence of the input |
| `Optimization.CancelStepKeeps` | pennylane/transforms/optimization.py:115-119 | one iteration keeps every gate that is not self-inverse |
| `Optimization.CancelledKeepsOthers` | pennylane/transforms/optimization.py:115-119 | every gate that is not self-inverse survives, in order |
| `Optimization.CancelledKeeps` | pennylane/transforms/optimization.py:115-119 | a head that is not self-inverse is emitted unchanged |
| `Optimization.CancelledUnmatched` | pennylane/transforms/optimization.py:121-129 | a head without a next gate on its wires is emitted unchanged |
| `Optimization.CancelledBlocked` | pennylane/transforms/optimization.py:134-148 | a head whose next gate differs in name, or in ordered wires for an asymmetric gate, is emitted |
| `Optimization.CancelledRemoves` | pennylane/transforms/optimization.py:131-151 | a self-inverse head and a partner that cancels it are both dropped |
| `Optimization.CancelExampleTail` | pennylane/transforms/optimization.py:82-84 | RZ, RX and CNOT of the docstring circuit pass unchanged |
| `Optimization.CancelExamplePauliX` | pennylane/transforms/optimization.py:81-85 | the PauliX pair on wire 1 cancels across gates on wires 0 and 2 |
| `Optimization.CancelExampleRotations` | pennylane/transforms/optimization.py:79-80 | RX and RY are kept |
| `Optimization.CancelExampleKept` | pennylane/transforms/optimization.py:77-80 | the Hadamard on wire 1 meets the RY on its wire and is kept |
| `Optimization.CancelExampleHadamard` | pennylane/transforms/optimization.py:76-78 | the Hadamard pair on wire 0 cancels across the Hadamard on wire 1 |
| `Optimization.CancelInversesExample` | pennylane/transforms/optimization.py:75-107 | the docstring circuit becomes the docstring's optimized circuit |
| `Optimization.CancelInversesNotIdempotent` | pennylane/transforms/optimization.py:112-151 | H X X H becomes H H, which a second pass removes |
| `Optimization.MergedGateAsWritten` | pennylane/transforms/optimization.py:233-242 | as written, the merged gate has the head's kind and wires and no inverse marker |
| `Optimization.MergedGate` | pennylane/transforms/optimization.py:233-242 | the corrected merged gate keeps kind, wires and inverse marker |
| `Optimization.MergeStep` | pennylane/transforms/optimization.py:207-247 | each iteration, building the merged gate as written or as corrected, consumes the head and emits at most what it consumes |
| `Optimization.MergedAsWritten` | pennylane/transforms/optimization.py:207-247 | the pass as written never emits more gates than it reads; `Optimization.MergedAgree` states it equals the corrected pass on gates without the inverse marker, and `Optimization.MergedAsWrittenDropsInverse` gives an input where it does not |
| `Optimization.Merged` | pennylane/transforms/optimization.py:207-247 | the corrected pass (the merged gate keeps the inverse marker) never emits more gates than it reads; `Optimization.MergedKeepsOthers` states that every gate that is not a composable rotation is kept, in order, and `Optimization.MergedAgree` ties it to the pass as written |
| `Optimization.MergeRotations` | pennylane/transforms/optimization.py:204-251 | the loop of the corrected pass queues the gates `Merged` specifies, then the measurements unchanged |
| `Optimization.MergeStepRest` | pennylane/transforms/optimization.py:229-247 | an iteration leaves a working list made of gates it was given |
| `Optimization.MergedAgree` | pennylane/transforms/optimization.py:233-242 | on gates without the inverse marker, the pass as written and the corrected pass emit the same gates |
| `Optimization.MergedAsWrittenDropsInverse` | pennylane/transforms/optimization.py:233-242 | as written, the tape RX(1).inv, RX(1).inv on one wire becomes RX(2); the corrected pass gives RX(2).inv |
| `Optimization.MergeStepKeeps` | pennylane/transforms/optimization.py:210-214 | one iteration keeps every gate that is not a composable rotation |
| `Optimization.MergedKeepsOthers` | pennylane/transforms/optimization.py:210-214 | every gate that is not a composable rotation survives, in order |
| `Optimization.MergedGateAngle` | pennylane/transforms/optimization.py:236-238 | merging single-angle rotations adds their signed angles and gives a well-formed gate |
| `Optimization.MergedGateWellFormed` | pennylane/transforms/optimization.py:233-235 | merging with a three-angle `fuse_rot` gives a well-formed gate |
| `Optimization.MergedGateAsWrittenWrong` | pennylane/transforms/optimization.py:234-242 | as written, two RX(1).inv merge into RX(2), and two inverted Rot gates build a one-angle Rot, which is not a well-formed gate (the source's constructor raises on it) |
| `Optimization.MergedQueues` | pennylane/transforms/optimization.py:210-244 | a head with nothing to merge with is emitted unchanged |
| `Optimization.MergedMerges` | pennylane/transforms/optimization.py:229-242 | in the corrected pass, a rotation and the next gate with the same name and ordered wires become their merged gate, or nothing when its angles are near zero |
| `Optimization.MergeExampleTail` | pennylane/transforms/optimization.py:180-181 | H and CRZ of the docstring circuit pass unchanged |
| `Optimization.MergeExampleWire1` | pennylane/transforms/optimization.py:179-182 | RY(y) and RY(-y) on wire 1 cancel |
| `Optimization.MergeExampleWire0` | pennylane/transforms/optimization.py:176-177 | RX(x) and RX(y) on wire 0 become RX(x + y) |
| `Optimization.MergeRotationsExample` | pennylane/transforms/optimization.py:175-202 | the docstring circuit becomes the docstring's optimized circuit |
| `Optimization.FusedGate` | pennylane/transforms/optimization.py:331-335 | the fused gate is an unmarked Rot on the head's wires (well formed only when that is one wire) |
| `Optimization.FuseStep` | pennylane/transforms/optimization.py:295-340 | each iteration consumes the head and emits at most what it consumes |
| `Optimization.RotAngles` | pennylane/transforms/optimization.py:321-329 | the angles a gate contributes to a fusion: its own parameters when its name is "Rot", `convert_to_rot` of it otherwise (so an inverse-marked Rot is converted too); no contract of its own, `Optimization.FusedGate` and `Optimization.FuseStepOutputs` use it |
| `Optimization.FusedAsWritten` | pennylane/transforms/optimization.py:295-340 | the pass as written never emits more gates than it reads; `Optimization.FusedAgree` states it equals the corrected pass on well-formed gates of fixed arity, and `Optimization.FusedAsWrittenFusesWideGates` gives an input where it does not |
| `Optimization.Fused` | pennylane/transforms/optimization.py:295-340 | the corrected pass never emits more gates than it reads; `Optimization.FusedKeepsWide` states that every gate not on exactly one wire is kept, in order, `Optimization.FusedOutputs` that every emitted gate is an input gate or a one-wire Rot on an input wire, and `Optimization.FusedAgree` ties it to the pass as written |
| `Optimization.SingleQubitFusion` | pennylane/transforms/optimization.py:292-344 | the loop of the corrected pass (it passes through every gate not on one wire) queues the gates `Fused` specifies, then the measurements unchanged |
| `Optimization.FuseStepRest` | pennylane/transforms/optimization.py:317-340 | an iteration leaves a working list made of gates it was given |
| `Optimization.FusedAgree` | pennylane/transforms/optimization.py:298-302 | on well-formed gates of fixed arity, the pass as written and the corrected pass emit the same gates |
| `Optimization.FuseStepKeepsWide` | pennylane/transforms/optimization.py:298-302 | one iteration keeps every gate not on exactly one wire |
| `Optimization.FusedKeepsWide` | pennylane/transforms/optimization.py:298-302 | every gate not on exactly one wire survives, in order |
| `Optimization.FuseStepOutputs` | pennylane/transforms/optimization.py:317-335 | one iteration queues input gates or a Rot on an input wire |
| `Optimization.FusedOutputs` | pennylane/transforms/optimization.py:317-335 | every gate emitted is an input gate or a one-wire Rot on an input wire |
| `Optimization.FusedAsWrittenPasses` | pennylane/transforms/optimization.py:298-302 | as written, a gate whose class declares more than one wire is emitted unchanged |
| `Optimization.FusedAsWrittenFuses` | pennylane/transforms/optimization.py:317-335 | as written, a matched pair on the same ordered wires becomes one Rot on them, or nothing when near zero |
| `Optimization.FusedAsWrittenPair` | pennylane/transforms/optimization.py:317-335 | as written, two equal gates whose class declares at most one wire become their fused Rot, or nothing when near zero |
| `Optimization.FusedAsWrittenFusesWideGates` | pennylane/transforms/optimization.py:299 | as written, two MultiControlledX gates on two wires become a Rot on two wires, which is not well formed, or nothing; they are not passed through |
| `Optimization.FusedKeepsWideGates` | pennylane/transforms/optimization.py:299 | the corrected pass keeps those two gates |
| `Embedding.AllWires` | tests/transforms/test_get_unitary_matrix.py:185-201 | the collected wires are duplicate-free and are the concatenated lists added to no wires; so they hold exactly the labels of the lists, in order of first appearance in the concatenated lists |
| `Embedding.TapeWires` | tests/transforms/test_get_unitary_matrix.py:185-201 | a tape's wires are duplicate-free, hold every operation's wires and only wires of its operations or measurements, and come in order of first appearance in the wire lists of its operations followed by those of its measurements |
| `Embedding.TwoWireTapeList` | tests/transforms/test_get_unitary_matrix.py:187-191 | the wires of the test tape, operation by operation, are 0, 0, 0 and 1, then 1 |
| `Embedding.TwoWireTapeFirsts` | tests/transforms/test_get_unitary_matrix.py:187-191 | in the test tape, wire 0 first appears at the first operation and wire 1 only later, and no other wire appears |
| `Embedding.TwoInOrder` | tests/transforms/test_get_unitary_matrix.py:185-201 | a duplicate-free list holding exactly two labels, in order of first appearance in a list, is those two labels in that order |
| `Embedding.TapeOrderFirstAppearance` | tests/transforms/test_get_unitary_matrix.py:185-201 | the test tape's wires are [0, 1]: wire 0 first appears before wire 1, so RY RX forms the first Kronecker factor of the expected matrix |
| `Embedding.TapePreparedInOrder` | tests/transforms/test_get_unitary_matrix.py:185-201 | given no wire order, the test tape is embedded on the wires [0, 1] |
| `Embedding.Check` | tests/transforms/test_get_unitary_matrix.py:203-222 | a wire order holding a label twice is refused; otherwise one that misses a wire an operation uses is refused; otherwise the operations are embedded unchanged in the given order |
| `Embedding.Prepare` | tests/transforms/test_get_unitary_matrix.py:281-311 | accepts exactly a tape, a QNode, or a non-empty quantum function given an order, whose order is duplicate-free and covers the operations; a given order is used as is |
| `Embedding.TapeDefaultOrder` | tests/transforms/test_get_unitary_matrix.py:185-201 | a tape without an order is laid out on its own wires |
| `Embedding.QNodeDefaultOrder` | tests/transforms/test_get_unitary_matrix.py:225-250 | a QNode without an order is laid out on its device's wires |
| `Embedding.QFuncNeedsOrder` | tests/transforms/test_get_unitary_matrix.py:281-290 | a quantum function without an order is refused for a missing wire order |
| `Embedding.NotCircuitRefused` | tests/transforms/test_get_unitary_matrix.py:293-299 | anything but a circuit is refused |
| `Embedding.EmptyFunctionRefused` | tests/transforms/test_get_unitary_matrix.py:302-311 | a function recording no operation is refused |
| `Embedding.MissingWireRefused` | tests/transforms/test_get_unitary_matrix.py:203-222 | an operation on a wire the given order does not list makes the preparation fail with the missing-wire error |
| `Embedding.StateOf` | tests/transforms/test_get_unitary_matrix.py:29-48 | the basis state of some bits gives bit i to the i-th wire of the order |
| `Embedding.BitsIn` | tests/transforms/test_get_unitary_matrix.py:29-48 | the bits of a state are those of the wires in order |
| `Embedding.BitsRoundTrip` | tests/transforms/test_get_unitary_matrix.py:29-48 | listing the bits of the state they describe gives them back |
| `Embedding.StateRoundTrip` | tests/transforms/test_get_unitary_matrix.py:29-48 | a state on the ordered wires is the one its bits describe |
| `Embedding.ValidApplicable` | tests/transforms/test_get_unitary_matrix.py:29-48 | every operation applies to every basis state of the order |
| `Embedding.Evolve` | tests/transforms/test_get_unitary_matrix.py:70-97 | a basis state goes to a basis state of the same width |
| `Embedding.Column` | tests/transforms/test_get_unitary_matrix.py:29-48 | every column holds its 1 in a row of the matrix |
| `Embedding.EvolveIsRun` | tests/transforms/test_get_unitary_matrix.py:35-39 | the image of a basis state is what running the operations on the wires makes of it |
| `Embedding.OrderIndependent` | tests/transforms/test_get_unitary_matrix.py:204-222 | the wire order changes only the labelling: two orders of the same wires describe the same action |
| `Embedding.EmptyIsIdentity` | tests/transforms/test_get_unitary_matrix.py:52-67 | the empty circuit is the identity |
| `Embedding.EvolveComposes` | tests/transforms/test_get_unitary_matrix.py:52-67 | running a + b is running a and then b |
| `Embedding.ColumnComposes` | tests/transforms/test_get_unitary_matrix.py:185-201 | the unitary of a + b is U_b U_a, later operations multiplied on the left |
| `Embedding.RunInjective` | tests/transforms/test_get_unitary_matrix.py:158-182 | no two basis states have the same image |
| `Embedding.ColumnInjective` | tests/transforms/test_get_unitary_matrix.py:158-182 | the unitary is a permutation matrix: distinct columns hold their 1 in distinct rows |
| `Embedding.IndexSet` | tests/transforms/test_get_unitary_matrix.py:29-48 | setting bit k moves the basis number by 2^(n-1-k) |
| `Embedding.IndexNegate` | tests/transforms/test_get_unitary_matrix.py:29-48 | negating bit k moves the basis number by 2^(n-1-k), down when it was set and up otherwise |
| `Embedding.ColumnIs` | tests/transforms/test_get_unitary_matrix.py:95 | the row of column j is the number of the image of basis state j |
| `Embedding.ColumnOfBits` | tests/transforms/test_get_unitary_matrix.py:95 | the column of a basis state holds its 1 in the row of the image |
| `Embedding.FlipListed` | tests/transforms/test_get_unitary_matrix.py:29-48 | negating a wire's bit in the state negates its slot in the listed bits |
| `Embedding.EvolveSingle` | tests/transforms/test_get_unitary_matrix.py:35-39 | a one-gate circuit applies that gate |
| `Embedding.PauliXListed` | tests/transforms/test_get_unitary_matrix.py:29-48 | PauliX negates the bit of its wire's slot |
| `Embedding.PauliXPlacement` | tests/transforms/test_get_unitary_matrix.py:29-48 | PauliX in slot k embeds as kron(I_(2^k), X, I_(2^(n-1-k))): it moves basis j by 2^(n-1-k) |
| `Embedding.CnotListed` | tests/transforms/test_get_unitary_matrix.py:70-97 | CNOT negates its target's slot exactly when its control's slot is set, wherever they sit |
| `Embedding.ToffoliListed` | tests/transforms/test_get_unitary_matrix.py:131-155 | Toffoli negates its target's slot exactly when both control slots are set |
| `Embedding.Slots` | tests/transforms/test_get_unitary_matrix.py:158-182 | the wires in the given slots of the order |
| `Embedding.McxApplies` | tests/transforms/test_get_unitary_matrix.py:158-182 | MultiControlledX negates its last wire exactly when its controls match |
| `Embedding.McxOnValid` | tests/transforms/test_get_unitary_matrix.py:158-182 | a MultiControlledX on slots of the order is well formed, with controls then target |
| `Embedding.MatchesListed` | tests/transforms/test_get_unitary_matrix.py:158-182 | the controls of the state match exactly when its listed bits do |
| `Embedding.McxListed` | tests/transforms/test_get_unitary_matrix.py:158-182 | MultiControlledX negates its target's slot exactly when every control bit equals its value |
| `Embedding.Range` | tests/transforms/test_get_unitary_matrix.py:73 | the wires 0..n-1, duplicate-free |
| `Embedding.CnotOnAllOnes` | tests/transforms/test_get_unitary_matrix.py:70-97 | CNOT([1, t]) on 11111 clears exactly bit t |
| `Embedding.ToffoliWithLabels` | tests/transforms/test_get_unitary_matrix.py:131-155 | Toffoli([0, 4, 'a']) under [0, 'a', 2, 'c', 4] sends 11111 to 10111 and keeps 00110 |
| `Embedding.McxOnSixWiresFlips` | tests/transforms/test_get_unitary_matrix.py:158-182 | MultiControlledX([0, 2, 4, 5], 3) sends 111111 to 111011 |
| `Embedding.McxOnSixWiresKeeps` | tests/transforms/test_get_unitary_matrix.py:158-182 | the same gate keeps 010010 |
| `Embedding.CnotReversedColumns` | tests/transforms/test_get_unitary_matrix.py:204-222 | CNOT([0, 1]) under order [1, 0] is CNOT10: columns 0, 1, 2, 3 hold their 1 in rows 0, 3, 2, 1 |
| `Embedding.PauliXInThirdSlot` | tests/transforms/test_get_unitary_matrix.py:252-278 | X on wire 4 under [1, 0, 4, 2, 3] sits in the third kron slot and moves every basis state by 4 |

## Left out

- openqml/device.py is not part of this model. It is device-execution plumbing: abstract operator maps, and hooks run inside an execution context.
- Floating-point and complex matrix entries and eigenvalues are not modelled. This covers H, Y, Z, S, T, SX, ISWAP, SISWAP, CZ and CY, and the `single_qubit_rot_angles` constants. Angles stay symbolic `real`s, and `np.pi` appears only as a constant.
- `fuse_rot` and `convert_to_rot` come from a module that is not part of this model, and `np.allclose` is numeric. All three are function parameters of the passes.
- The `qfunc_transform` decorator, `queue()` and `tape.append` are not modelled. Each pass returns the new tape: the queued operations, then the measurements.
- `label` and `compute_diagonalizing_gates` are left out: they concern display and measurement only.
- The recursive expansion of the four MultiControlledX gates of the one-worker decomposition is not unfolded into gates. On basis states, each is given the meaning of the gate, which `McxCorrectness.McxOpAct` connects to its construction.
- The embedding covers permutation gates only. The CRX, RX, RY, CRZ, S, H and Y cases of the test file need complex matrices, and `Embedding.Entry` gives the 0/1 entries of permutation circuits only.
- `Embedding.MissingWireRefused`: the implementation of `get_unitary_matrix` is not part of this model. Refusing an operation on a wire the order does not list is an assumption that no test fixes, and so is refusing an order that lists a wire twice. The order of the checks in `Embedding.Prepare` follows the tests.
- `Embedding.CnotReversedColumns`: states CNOT10 column by column, one basis state each, rather than as a 4x4 matrix of entries.
- `Embedding.PauliXInThirdSlot`: states the move by 4 as one of two directions; `Embedding.PauliXPlacement` states which one for every order.
- A quantum function given without a wire order is refused, as the tests at tests/transforms/test_get_unitary_matrix.py:281-290 require. Inferring an order from the operations' integer wires is not modelled.
- `Operators.Controlled`: the source queues the controlled gate on the active tape and returns None; the model returns the gate. The wire-count check it fails on lives in pennylane/operation.py, which is not part of this model.
- `Optimization.MergeStep`, `Optimization.Merged`, `Optimization.MergedMerges`: `Merged` and the step lemmas describe the corrected pass, whose merged gate keeps the inverse marker. The pass as written is `Optimization.MergedAsWritten`; `Optimization.MergedAgree` shows the two agree on gates without the marker.
- `Optimization.MergedAsWritten`: where the source raises because the `Rot` it builds for two inverted Rot gates has one angle, the model emits that ill-formed Rot (`Optimization.MergedGateAsWrittenWrong` states that it is not well formed). When the one-angle sum is near zero, both the source and the model drop the pair.
- `Optimization.MergeRotations`: the method runs the corrected pass, not the as-written one; on a tape with an inverse-marked rotation its output differs from the source's (`Optimization.MergedAsWrittenDropsInverse`).
- `Optimization.SingleQubitFusion`: the method runs the corrected pass, which tests the gate's own wire count. The pass as written is `Optimization.FusedAsWritten`; `Optimization.FusedAgree` shows the two agree on well-formed gates of fixed arity.
- `Optimization.FusedAsWritten`: where the source raises because the `Rot` it builds has more than one wire, the model emits that ill-formed Rot (`Optimization.FusedAsWrittenFusesWideGates` states that it is not well formed). Failures inside `convert_to_rot` are not modelled, since it is a parameter.
- `Optimization.FirstAngle` reads 0 for a gate without parameters. Every composable rotation is constructed with its angles, so that value is never used.
- The `num_passes=3` pipeline in the `single_qubit_fusion` docstring is not modelled; each pass is modelled once.
- `Optimization.CancelInversesNotIdempotent`: one pass of `cancel_inverses` is not idempotent. Removing a pair can bring a new pair together, and only a second pass removes it.
- `Operators.NumWiresAttr` gives AnyWires the value -1, the value of `WiresEnum.AnyWires` in pennylane/operation.py, which is not part of this model.
- Only CSWAP and MultiControlledX declare `is_self_inverse` in the modelled file. The other self-inverse kinds, the symmetric kinds (CZ, SWAP) and the composable rotations come from the docstrings and the operator base classes, which are not part of this model.

## Findings

| source | as written | input that shows it | evidently intended | confidence | as-written member | corrected member |
|---|---|---|---|---|---|---|
| pennylane/transforms/optimization.py:299 | the fusion tests the class attribute `num_wires > 1`, which is AnyWires (-1) for MultiControlledX and Barrier | two `MultiControlledX(control_wires=[0], wires=1)` in a row: the pass raises when it builds a `Rot` on wires [0, 1], or drops the pair when the fused angles are near zero, instead of passing the two gates through | only gates on one wire are fused; every gate on more wires passes through | not executed; high | `Optimization.FusedAsWrittenFusesWideGates` | `Optimization.FusedKeepsWideGates` |
| pennylane/ops/qubit/non_parametric_ops.py:478-479 | the adjoint of S, T, SX, ISWAP and SISWAP always returns the gate with the inverse marker set, whatever the gate's own marker | `S(wires=0).inv().adjoint()` is S.inv again rather than S | the adjoint toggles the marker, so taking it twice gives the gate back | not executed; medium | `Operators.AdjointAsWrittenNotInvolution` | `Operators.AdjointInvolution` |
| pennylane/transforms/optimization.py:234-242 | the merged gate is rebuilt by its class without the inverse marker, and an inverted Rot is named "Rot.inv", so it gets the one-angle sum | two `RX(1).inv()` on wire 0 merge into RX(2) instead of RX(-2); for two inverted Rot gates the pass raises when it builds a Rot with one angle, or drops the pair when that angle sum is near zero | the merged gate applies both rotations: angles add with their signs, and the Rot angles are fused | not executed; medium | `Optimization.MergedAsWrittenDropsInverse` | `Optimization.MergedGateAngle` |
