/**
 * The whole MultiControlledX decomposition on basis states: the four-gate split of Lemma 7.3
 * restores its work wire and toggles the target under all controls; the PauliX flips around
 * the core turn control on '1' into control on the given bits; and so every decomposition
 * `compute_decomposition` returns acts exactly as the MultiControlledX it decomposes.
 */
module McxCorrectness {
  import opened Results
  import opened Wires
  import opened Binary
  import opened Operators
  import opened MultiControlled
  import opened BasisStates
  import opened McxSemantics

  /** Negate x when every wire of cs is set: a MultiControlledX on its default control string. */
  function McxAct(s: State, cs: seq<Wire>, x: Wire): (r: State)
    requires Covers(s, cs) && x in s
    ensures r.Keys == s.Keys
  {
    if AllSet(s, cs) then Flip(s, x) else s
  }

  /** Control on the all-ones string is control on every wire being set. */
  lemma {:induction false} MatchesOnes(s: State, cs: seq<Wire>)
    requires Covers(s, cs)
    ensures Matches(s, cs, Ones(|cs|)) <==> AllSet(s, cs)
  {
  }

  /** The MultiControlledX the one-worker split builds (default control string) constructs without error. */
  lemma {:induction false} McxOpOk(cs: seq<Wire>, x: Wire, work: seq<Wire>)
    requires NoDup(cs) && NoDup(work) && cs != [] && x !in cs && x !in work && Disjoint(cs, work)
    ensures McxOp(cs, x, work).Ok?
    ensures McxOp(cs, x, work).value == Op(MultiControlledX, cs + [x], [], false, McxHyper(Ones(|cs|), work))
  {
    DefaultControlValues(cs, [x], Unset, work);
    UnionNoDup(cs, [x]);
  }

  /** That gate negates its target exactly when all its controls are set. */
  lemma {:induction false} McxOpAct(cs: seq<Wire>, x: Wire, work: seq<Wire>, s: State)
    requires NoDup(cs) && NoDup(work) && cs != [] && x !in cs && x !in work && Disjoint(cs, work)
    requires Covers(s, cs) && x in s
    ensures McxOp(cs, x, work).Ok?
    ensures Applicable(McxOp(cs, x, work).value, s)
    ensures ApplyGate(McxOp(cs, x, work).value, s) == McxAct(s, cs, x)
  {
    McxOpOk(cs, x, work);
    var op := McxOp(cs, x, work).value;
    var n := |cs|;
    assert NoDup(op.wires) by { NoDupSnoc(cs, x); }
    assert op.wires[..n] == cs;
    MatchesOnes(s, cs);
  }

  lemma {:induction false} Run4(d: seq<Op>, s: State)
    requires |d| == 4 && AllApplicable(d, s)
    ensures Run(d, s) == ApplyGate(d[3], ApplyGate(d[2], ApplyGate(d[1], ApplyGate(d[0], s))))
  {
    var s1 := ApplyGate(d[0], s);
    ApplicableSameKeys(d[1..], s, s1);
    assert d[1..][0] == d[1] && d[1..][1..] == d[2..];
    Run3(d[1..], s1);
    assert d[1..][1] == d[2] && d[1..][2] == d[3];
  }

  lemma {:induction false} Alternating(a: Op, b: Op, s: State)
    requires Applicable(a, s) && Applicable(b, s)
    ensures AllApplicable([a, b, a, b], s)
  {
  }

  /** What one controlled negation does to each wire. */
  lemma {:induction false} McxActAt(s: State, cs: seq<Wire>, x: Wire, v: Wire)
    requires Covers(s, cs) && x in s && v in s
    ensures McxAct(s, cs, x)[v] == if v == x then s[x] != AllSet(s, cs) else s[v]
  {
  }

  /** A controlled negation of x leaves the condition of wires other than x alone. */
  lemma {:induction false} McxActKeeps(s: State, cs: seq<Wire>, x: Wire, ys: seq<Wire>)
    requires Covers(s, cs) && x in s && Covers(s, ys) && x !in ys
    ensures AllSet(McxAct(s, cs, x), ys) == AllSet(s, ys)
  {
    if AllSet(s, cs) { FlipKeepsAllSet(s, x, ys); }
  }

  lemma {:induction false} AllSetSnoc(s: State, xs: seq<Wire>, w: Wire)
    requires Covers(s, xs) && w in s
    ensures Covers(s, xs + [w]) && AllSet(s, xs + [w]) == (AllSet(s, xs) && s[w])
  {
    AllSetConcat(s, xs, [w]);
    assert AllSet(s, [w]) == s[w] by { assert [w][0] == w; }
  }

  /**
   * Lemma 7.3 on bits: with A the first block and B the second, the target gains
   * B & (w ^ A) and then B & w, which is A & B, and the work wire w ends as it started.
   */
  lemma {:induction false} FourSteps(s: State, first: seq<Wire>, second: seq<Wire>, w: Wire, t: Wire)
    requires Covers(s, first) && Covers(s, second) && w in s && t in s && w != t
    requires w !in first && t !in first && w !in second && t !in second
    ensures Covers(s, second + [w]) && Covers(s, first + second)
    ensures var g := second + [w];
      McxAct(McxAct(McxAct(McxAct(s, first, w), g, t), first, w), g, t) == McxAct(s, first + second, t)
  {
    var g := second + [w];
    AllSetConcat(s, first, second);
    AllSetSnoc(s, second, w);
    var a, b := AllSet(s, first), AllSet(s, second);
    var s1 := McxAct(s, first, w);
    var s2 := McxAct(s1, g, t);
    var s3 := McxAct(s2, first, w);
    var s4 := McxAct(s3, g, t);
    assert AllSet(s1, first) == a && AllSet(s1, second) == b by {
      McxActKeeps(s, first, w, first);
      McxActKeeps(s, first, w, second);
    }
    assert AllSet(s1, g) == (b && s1[w]) by { AllSetSnoc(s1, second, w); }
    assert AllSet(s2, first) == a && AllSet(s2, second) == b by {
      McxActKeeps(s1, g, t, first);
      McxActKeeps(s1, g, t, second);
    }
    assert AllSet(s3, second) == b by { McxActKeeps(s2, first, w, second); }
    assert AllSet(s3, g) == (b && s3[w]) by { AllSetSnoc(s3, second, w); }
    forall v | v in s ensures s4[v] == if v == t then s[t] != (a && b) else s[v] {
      McxActAt(s, first, w, v);
      McxActAt(s1, g, t, v);
      McxActAt(s2, first, w, v);
      McxActAt(s3, g, t, v);
      McxActAt(s, first, w, w);
      McxActAt(s1, g, t, w);
      McxActAt(s2, first, w, w);
    }
    var r := McxAct(s, first + second, t);
    forall v | v in s ensures r[v] == if v == t then s[t] != (a && b) else s[v] {
      McxActAt(s, first + second, t, v);
    }
    assert s4.Keys == r.Keys;
  }

  /** The split of the controls that the one-worker decomposition makes, and its four gates. */
  lemma {:induction false} OneWorkerShape(cs: seq<Wire>, t: Wire, w: Wire)
    requires NoDup(cs) && |cs| >= 3 && t !in cs && w !in cs && w != t
    ensures var p := Partition(|cs|);
      var first, second := cs[..p], cs[p..];
      && cs == first + second && first != []
      && NoDup(first) && NoDup(second + [w]) && NoDup(second + [t])
      && Disjoint(first, second + [t]) && Disjoint(second + [w], first)
      && w !in first && t !in first && w !in second && t !in second
      && McxOp(first, w, second + [t]).Ok? && McxOp(second + [w], t, first).Ok?
      && var g0, g1 := McxOp(first, w, second + [t]).value, McxOp(second + [w], t, first).value;
        OneWorker(cs, t, w) == Ok([g0, g1, g0, g1])
  {
    var p := Partition(|cs|);
    var first, second := cs[..p], cs[p..];
    assert cs == first + second;
    assert Disjoint(first, second) && NoDup(first) && NoDup(second) by {
      forall i, j | 0 <= i < |first| && 0 <= j < |second| ensures first[i] != second[j] {
        assert first[i] == cs[i] && second[j] == cs[p + j];
      }
    }
    UnionNoDup(second, [t]);
    UnionNoDup(second, [w]);
    NoDupSnoc(second, w);
    NoDupSnoc(second, t);
    McxOpOk(first, w, second + [t]);
    McxOpOk(second + [w], t, first);
  }

  /** Each of the four gates built from a split of the controls acts as its controlled negation. */
  lemma {:induction false} SplitGateSteps(first: seq<Wire>, second: seq<Wire>, t: Wire, w: Wire, s: State)
    requires first != [] && NoDup(first) && NoDup(second + [w]) && NoDup(second + [t])
    requires Disjoint(first, second + [t]) && Disjoint(second + [w], first)
    requires w !in first && t !in first && w !in second && t !in second && w != t
    requires Covers(s, first + second) && t in s && w in s
    ensures McxOp(first, w, second + [t]).Ok? && McxOp(second + [w], t, first).Ok?
    ensures var g0, g1 := McxOp(first, w, second + [t]).value, McxOp(second + [w], t, first).value;
      && Covers(s, first) && Covers(s, second + [w])
      && var s1 := McxAct(s, first, w);
      && var s2 := McxAct(s1, second + [w], t);
      && var s3 := McxAct(s2, first, w);
      && Applicable(g0, s) && Applicable(g1, s)
      && ApplyGate(g0, s) == s1 && ApplyGate(g1, s1) == s2
      && ApplyGate(g0, s2) == s3 && ApplyGate(g1, s3) == McxAct(s3, second + [w], t)
  {
    var g, h := second + [w], second + [t];
    assert Covers(s, first) && Covers(s, g);
    var s1 := McxAct(s, first, w);
    var s2 := McxAct(s1, g, t);
    var s3 := McxAct(s2, first, w);
    assert forall x: State | x.Keys == s.Keys :: Covers(x, first) && Covers(x, g) && w in x && t in x;
    assert NoDup(g) && NoDup(h) && Disjoint(first, h) && Disjoint(g, first) && t !in g && w !in h;
    McxOpAct(first, w, h, s);
    McxOpAct(g, t, first, s);
    McxOpAct(g, t, first, s1);
    McxOpAct(first, w, h, s2);
    McxOpAct(g, t, first, s3);
  }

  /** The four gates built from a split of the controls, run in turn, negate t exactly when every control is set. */
  lemma {:induction false} SplitGatesCorrect(first: seq<Wire>, second: seq<Wire>, t: Wire, w: Wire, s: State)
    requires first != [] && NoDup(first) && NoDup(second + [w]) && NoDup(second + [t])
    requires Disjoint(first, second + [t]) && Disjoint(second + [w], first)
    requires w !in first && t !in first && w !in second && t !in second && w != t
    requires Covers(s, first + second) && t in s && w in s
    ensures McxOp(first, w, second + [t]).Ok? && McxOp(second + [w], t, first).Ok?
    ensures var g0, g1 := McxOp(first, w, second + [t]).value, McxOp(second + [w], t, first).value;
      AllApplicable([g0, g1, g0, g1], s) && Run([g0, g1, g0, g1], s) == McxAct(s, first + second, t)
  {
    SplitGateSteps(first, second, t, w, s);
    var g0, g1 := McxOp(first, w, second + [t]).value, McxOp(second + [w], t, first).value;
    var d := [g0, g1, g0, g1];
    Alternating(g0, g1, s);
    Run4(d, s);
    FourSteps(s, first, second, w, t);
  }

  /** Lemma 7.3: the four MultiControlledX gates with one work wire act as control on every wire. */
  lemma {:induction false} OneWorkerCorrect(cs: seq<Wire>, t: Wire, w: Wire, s: State)
    requires NoDup(cs) && |cs| >= 3 && t !in cs && w !in cs && w != t
    requires Covers(s, cs) && t in s && w in s
    ensures OneWorker(cs, t, w).Ok?
    ensures AllApplicable(OneWorker(cs, t, w).value, s)
    ensures Run(OneWorker(cs, t, w).value, s) == McxAct(s, cs, t)
  {
    OneWorkerShape(cs, t, w);
    var p := Partition(|cs|);
    SplitGatesCorrect(cs[..p], cs[p..], t, w, s);
  }

  // ---------------------------------------------------------------------------------------
  // The flips for control on '0'
  // ---------------------------------------------------------------------------------------

  /** One PauliX on each wire of xs, in order. */
  function XGates(xs: seq<Wire>): (d: seq<Op>)
    ensures |d| == |xs|
  {
    seq(|xs|, k requires 0 <= k < |xs| => Gate(PauliX, [xs[k]]))
  }

  /** The state with the bit of every wire of xs negated. */
  function Negated(s: State, xs: seq<Wire>): (r: State)
    ensures r.Keys == s.Keys
  {
    map v | v in s :: if v in xs then !s[v] else s[v]
  }

  /** Negating the same wires twice restores the state. */
  lemma {:induction false} NegatedTwice(s: State, xs: seq<Wire>)
    ensures Negated(Negated(s, xs), xs) == s
  {
    var r := Negated(Negated(s, xs), xs);
    forall v | v in s ensures r[v] == s[v] {
      if v in xs {
        assert Negated(s, xs)[v] == !s[v];
      }
    }
  }

  /** Negating wires and negating another wire commute. */
  lemma {:induction false} NegatedFlip(s: State, xs: seq<Wire>, t: Wire)
    requires t in s && t !in xs
    ensures Negated(Flip(s, t), xs) == Flip(Negated(s, xs), t)
  {
    var a, b := Negated(Flip(s, t), xs), Flip(Negated(s, xs), t);
    forall v | v in s ensures a[v] == b[v] {
      if v == t {
        assert a[v] == !s[t];
      }
    }
  }

  lemma {:induction false} NoDupTail(xs: seq<Wire>)
    requires NoDup(xs) && xs != []
    ensures NoDup(xs[1..]) && xs[0] !in xs[1..]
  {
    forall j | 0 <= j < |xs| - 1 ensures xs[1..][j] != xs[0] {
      assert xs[1..][j] == xs[j + 1];
    }
  }

  /** A PauliX on each of some distinct wires negates exactly those wires. */
  lemma {:induction false} RunXGates(xs: seq<Wire>, s: State)
    requires NoDup(xs) && Covers(s, xs)
    ensures AllApplicable(XGates(xs), s)
    ensures Run(XGates(xs), s) == Negated(s, xs)
    decreases |xs|
  {
    var d := XGates(xs);
    forall k | 0 <= k < |d| ensures Applicable(d[k], s) {
      assert d[k].wires == [xs[k]];
    }
    if xs != [] {
      var s1 := Flip(s, xs[0]);
      NoDupTail(xs);
      assert d[1..] == XGates(xs[1..]);
      assert d[0] == Gate(PauliX, [xs[0]]);
      RunXGates(xs[1..], s1);
      assert Run(d, s) == Negated(s1, xs[1..]);
      forall v | v in s ensures Negated(s1, xs[1..])[v] == Negated(s, xs)[v] {
        assert v in xs <==> v == xs[0] || v in xs[1..];
      }
    }
  }

  /** The control wires the flips act on: those whose control value is '0', in order. */
  function ZeroWires(cs: seq<Wire>, cv: string): (zs: seq<Wire>)
    requires forall i :: 0 <= i < |cv| && cv[i] == '0' ==> i < |cs|
    ensures |zs| == |ZeroPositions(cv)|
  {
    var z := ZeroPositions(cv);
    seq(|z|, k requires 0 <= k < |z| => cs[z[k]])
  }

  /** The flips `compute_decomposition` adds are one PauliX per zero wire. */
  lemma {:induction false} FlipsAreXGates(cs: seq<Wire>, cv: string)
    requires forall i :: 0 <= i < |cv| && cv[i] == '0' ==> i < |cs|
    ensures Flips(cs, cv) == Ok(XGates(ZeroWires(cs, cv)))
  {
    var r := Flips(cs, cv);
    var x := XGates(ZeroWires(cs, cv));
    assert r.Ok?;
    forall k | 0 <= k < |x| ensures r.value[k] == x[k] {
    }
    assert r.value == x;
  }

  /** The zero wires are distinct control wires, and a control wire is one exactly when its value is '0'. */
  lemma {:induction false} ZeroWiresFacts(cs: seq<Wire>, cv: string)
    requires NoDup(cs) && |cv| == |cs|
    ensures NoDup(ZeroWires(cs, cv))
    ensures forall w :: w in ZeroWires(cs, cv) ==> w in cs
    ensures forall i :: 0 <= i < |cs| ==> (cs[i] in ZeroWires(cs, cv) <==> cv[i] == '0')
  {
    ZeroWiresDistinct(cs, cv);
    ZeroWiresAreControls(cs, cv);
  }

  lemma {:induction false} ZeroWiresDistinct(cs: seq<Wire>, cv: string)
    requires NoDup(cs) && |cv| == |cs|
    ensures NoDup(ZeroWires(cs, cv))
  {
    var z := ZeroPositions(cv);
    var zs := ZeroWires(cs, cv);
    forall k, l | 0 <= k < l < |zs| ensures zs[k] != zs[l] {
      assert z[k] < z[l];
    }
  }

  lemma {:induction false} ZeroWiresAreControls(cs: seq<Wire>, cv: string)
    requires NoDup(cs) && |cv| == |cs|
    ensures forall w :: w in ZeroWires(cs, cv) ==> w in cs
    ensures forall i :: 0 <= i < |cs| ==> (cs[i] in ZeroWires(cs, cv) <==> cv[i] == '0')
  {
    var zs := ZeroWires(cs, cv);
    forall w | w in zs ensures w in cs {
      var k :| 0 <= k < |zs| && zs[k] == w;
      ZeroWireAt(cs, cv, k);
    }
    forall i | 0 <= i < |cs| ensures cs[i] in zs <==> cv[i] == '0' {
      if cs[i] in zs {
        var k :| 0 <= k < |zs| && zs[k] == cs[i];
        ZeroWireAt(cs, cv, k);
      }
      if cv[i] == '0' {
        ZeroIsZeroWire(cs, cv, i);
      }
    }
  }

  /** The k-th zero wire is the control at a '0' position. */
  lemma {:induction false} ZeroWireAt(cs: seq<Wire>, cv: string, k: nat)
    requires NoDup(cs) && |cv| == |cs| && k < |ZeroWires(cs, cv)|
    ensures exists i :: 0 <= i < |cs| && cv[i] == '0' && ZeroWires(cs, cv)[k] == cs[i]
    ensures forall i :: 0 <= i < |cs| && ZeroWires(cs, cv)[k] == cs[i] ==> cv[i] == '0'
  {
    var z := ZeroPositions(cv);
    var i := z[k];
    assert ZeroWires(cs, cv)[k] == cs[i];
  }

  lemma {:induction false} ZeroIsZeroWire(cs: seq<Wire>, cv: string, i: nat)
    requires |cv| == |cs| && i < |cs| && cv[i] == '0'
    ensures cs[i] in ZeroWires(cs, cv)
  {
    var z := ZeroPositions(cv);
    var k :| 0 <= k < |z| && z[k] == i;
    assert ZeroWires(cs, cv)[k] == cs[i];
  }

  /**
   * After negating the zero wires, all controls are set exactly when the controls held their
   * control values: the flips turn control on '0' into control on '1'.
   */
  lemma {:induction false} NegatedMatches(s: State, cs: seq<Wire>, cv: string)
    requires NoDup(cs) && |cv| == |cs| && IsBitString(cv) && Covers(s, cs)
    ensures Covers(Negated(s, ZeroWires(cs, cv)), cs)
    ensures AllSet(Negated(s, ZeroWires(cs, cv)), cs) <==> Matches(s, cs, cv)
  {
    var u := Negated(s, ZeroWires(cs, cv));
    ZeroWiresFacts(cs, cv);
    forall i | 0 <= i < |cs| ensures u[cs[i]] == (cv[i] == '1') <==> s[cs[i]] {
    }
  }

  // ---------------------------------------------------------------------------------------
  // The core and the whole decomposition
  // ---------------------------------------------------------------------------------------

  /**
   * The gates between the flips negate the target exactly when every control is set: CNOT for
   * one control, Toffoli for two, the ladders of Lemma 7.2 with enough work wires and the
   * split of Lemma 7.3 otherwise.
   */
  lemma {:induction false} CoreCorrect(cs: seq<Wire>, t: Wire, work: seq<Wire>, s: State)
    requires NoDup(cs) && cs != [] && t !in cs && NoDup(work) && Disjoint(cs, work) && t !in work
    requires |cs| > 2 ==> work != []
    requires Covers(s, cs) && t in s && Covers(s, work)
    ensures CoreDecomposition(cs, t, work).Ok?
    ensures AllApplicable(CoreDecomposition(cs, t, work).value, s)
    ensures Run(CoreDecomposition(cs, t, work).value, s) == McxAct(s, cs, t)
  {
    if |cs| == 1 {
      var g := Gate(CNOT, [cs[0], t]);
      RunSingle(g, s);
      assert AllSet(s, cs) == s[cs[0]];
    } else if |cs| == 2 {
      var g := Gate(Toffoli, cs + [t]);
      NoDupSnoc(cs, t);
      RunSingle(g, s);
      assert AllSet(s, cs) == (s[cs[0]] && s[cs[1]]);
    } else if |work| >= |cs| - 2 {
      ManyWorkersCorrect(cs, t, work, s);
    } else {
      OneWorkerCorrect(cs, t, work[0], s);
    }
  }

  /** A MultiControlledX whose wires, control values and work wires `compute_decomposition` accepts. */
  predicate Decomposable(wires: seq<Wire>, work: seq<Wire>, cv: string) {
    && NoDup(wires) && NoDup(work) && Disjoint(wires, work)
    && |wires| >= 2 && |cv| == |wires| - 1 && IsBitString(cv)
    && (|wires| > 3 ==> work != [])
  }

  /** Flips on zs around gates that take the flipped state to v: the whole run ends in v with zs negated back. */
  lemma {:induction false} FlipSandwich(zs: seq<Wire>, core: seq<Op>, s: State, v: State)
    requires NoDup(zs) && Covers(s, zs)
    requires AllApplicable(core, Negated(s, zs)) && Run(core, Negated(s, zs)) == v
    ensures AllApplicable(XGates(zs) + core + XGates(zs), s)
    ensures Run(XGates(zs) + core + XGates(zs), s) == Negated(v, zs)
  {
    var flips, u := XGates(zs), Negated(s, zs);
    assert AllApplicable(flips, s) && Run(flips, s) == u by { RunXGates(zs, s); }
    RunThen(flips, core, s, u, v);
    assert AllApplicable(flips, v) && Run(flips, v) == Negated(v, zs) by { RunXGates(zs, v); }
    RunThen(flips + core, flips, s, v, Negated(v, zs));
  }

  /** Undoing the flips after a controlled negation of t, a wire they do not touch. */
  lemma {:induction false} UnflipMcxAct(s: State, zs: seq<Wire>, cs: seq<Wire>, t: Wire)
    requires Covers(s, cs) && t in s && t !in zs
    ensures var u := Negated(s, zs);
      Negated(McxAct(u, cs, t), zs) == if AllSet(u, cs) then Flip(s, t) else s
  {
    var u := Negated(s, zs);
    if AllSet(u, cs) {
      NegatedFlip(u, zs, t);
    }
    NegatedTwice(s, zs);
  }

  /** The pieces `compute_decomposition` assembles for an accepted MultiControlledX. */
  lemma {:induction false} DecompositionParts(wires: seq<Wire>, work: seq<Wire>, cv: string)
    requires Decomposable(wires, work, cv)
    ensures var n := |wires| - 1;
      var t, cs := wires[n], wires[..n];
      && wires == cs + [t] && NoDup(cs) && t !in cs && t !in work && Disjoint(cs, work)
      && NoDup(ZeroWires(cs, cv)) && t !in ZeroWires(cs, cv)
      && CoreDecomposition(cs, t, work).Ok?
      && DecompositionOf(wires, work, cv)
         == Ok(XGates(ZeroWires(cs, cv)) + CoreDecomposition(cs, t, work).value + XGates(ZeroWires(cs, cv)))
  {
    var n := |wires| - 1;
    var t, cs := wires[n], wires[..n];
    assert wires == cs + [t];
    assert NoDup(cs) && t !in cs;
    ZeroWiresFacts(cs, cv);
    FlipsAreXGates(cs, cv);
    if |cs| > 2 && |work| < |cs| - 2 {
      assert work[0] in work && work[0] !in wires;
      OneWorkerShape(cs, t, work[0]);
    }
  }

  /** The MultiControlledX itself applies to every state covering its wires. */
  lemma {:induction false} McxApplicable(wires: seq<Wire>, work: seq<Wire>, cv: string, s: State)
    requires Decomposable(wires, work, cv) && Covers(s, wires)
    ensures Applicable(Op(MultiControlledX, wires, [], false, McxHyper(cv, work)), s)
  {
  }

  /** Flips, core and flips, run on a basis state, act as the MultiControlledX on it. */
  lemma {:induction false} PartsAct(wires: seq<Wire>, work: seq<Wire>, cv: string, s: State)
    requires Decomposable(wires, work, cv) && Covers(s, wires) && Covers(s, work)
    ensures var n := |wires| - 1;
      var t, cs := wires[n], wires[..n];
      var zs := ZeroWires(cs, cv);
      var op := Op(MultiControlledX, wires, [], false, McxHyper(cv, work));
      && Applicable(op, s)
      && CoreDecomposition(cs, t, work).Ok?
      && AllApplicable(XGates(zs) + CoreDecomposition(cs, t, work).value + XGates(zs), s)
      && Run(XGates(zs) + CoreDecomposition(cs, t, work).value + XGates(zs), s) == ApplyGate(op, s)
  {
    var n := |wires| - 1;
    var t, cs := wires[n], wires[..n];
    var zs := ZeroWires(cs, cv);
    var u := Negated(s, zs);
    var op := Op(MultiControlledX, wires, [], false, McxHyper(cv, work));
    McxApplicable(wires, work, cv, s);
    assert wires == cs + [t] && NoDup(cs) && t !in cs && t !in work && Disjoint(cs, work)
      && NoDup(zs) && t !in zs && Covers(s, cs) && Covers(s, zs) by {
      DecompositionParts(wires, work, cv);
      ZeroWiresFacts(cs, cv);
    }
    assert Covers(u, cs) && (AllSet(u, cs) <==> Matches(s, cs, cv)) by { NegatedMatches(s, cs, cv); }
    var v := McxAct(u, cs, t);
    assert CoreDecomposition(cs, t, work).Ok? && AllApplicable(CoreDecomposition(cs, t, work).value, u)
      && Run(CoreDecomposition(cs, t, work).value, u) == v by { CoreCorrect(cs, t, work, u); }
    FlipSandwich(zs, CoreDecomposition(cs, t, work).value, s, v);
    UnflipMcxAct(s, zs, cs, t);
    assert op.wires[..n] == cs && op.wires[n] == t;
  }

  /**
   * Every decomposition `compute_decomposition` returns for a well-formed MultiControlledX
   * acts on each basis state exactly as the gate itself: flips, core and flips negate the
   * target when the controls hold their control values, and change nothing else.
   */
  lemma {:induction false} DecompositionCorrect(wires: seq<Wire>, work: seq<Wire>, cv: string, s: State)
    requires Decomposable(wires, work, cv) && Covers(s, wires) && Covers(s, work)
    ensures var op := Op(MultiControlledX, wires, [], false, McxHyper(cv, work));
      && Applicable(op, s)
      && DecompositionOf(wires, work, cv).Ok?
      && AllApplicable(DecompositionOf(wires, work, cv).value, s)
      && Run(DecompositionOf(wires, work, cv).value, s) == ApplyGate(op, s)
  {
    DecompositionParts(wires, work, cv);
    PartsAct(wires, work, cv, s);
  }

  /**
   * When `compute_decomposition` succeeds, and why it fails: no wires or a lone target give
   * an index error, as does a '0' control value past the last control; more than two
   * controls and no work wire give the work-wire error.
   */
  lemma {:induction false} DecompositionOutcome(wires: seq<Wire>, work: seq<Wire>, cv: string)
    requires NoDup(wires) && NoDup(work) && Disjoint(wires, work)
    ensures |wires| <= 1 ==> DecompositionOf(wires, work, cv) == Err(IndexOutOfRange)
    ensures |wires| > 3 && work == [] ==> DecompositionOf(wires, work, cv) == Err(WorkWireRequired)
    ensures |wires| >= 2 && (|wires| <= 3 || work != []) ==>
      (DecompositionOf(wires, work, cv).Ok? <==> forall i :: 0 <= i < |cv| && cv[i] == '0' ==> i < |wires| - 1)
  {
    if |wires| >= 2 && (|wires| <= 3 || work != []) {
      var n := |wires| - 1;
      var t, cs := wires[n], wires[..n];
      assert wires == cs + [t];
      assert NoDup(cs) && t !in cs;
      if Flips(cs, cv).Ok? {
        if |cs| > 2 && |work| < |cs| - 2 {
          assert work[0] in work && work[0] !in wires;
          OneWorkerShape(cs, t, work[0]);
        }
      }
    }
  }
}
