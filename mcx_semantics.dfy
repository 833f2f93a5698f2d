/**
 * What the MultiControlledX decompositions of non_parametric_ops.py do to basis states: the
 * Toffoli ladders of Lemma 7.2 and the four-gate split of Lemma 7.3 (Barenco et al.) negate
 * the target exactly when every control is set and leave every other wire, work wires
 * included, as it was; the surrounding PauliX flips turn that into control on the given
 * control values. Together: every decomposition `compute_decomposition` returns acts on
 * basis states exactly as the MultiControlledX it decomposes.
 */
module McxSemantics {
  import opened Results
  import opened Wires
  import opened Binary
  import opened Operators
  import opened MultiControlled
  import opened BasisStates

  // ---------------------------------------------------------------------------------------
  // Control conditions
  // ---------------------------------------------------------------------------------------

  /** Negating a wire that is not a control keeps the controls' condition. */
  lemma {:induction false} FlipKeepsAllSet(s: State, w: Wire, xs: seq<Wire>)
    requires w in s && Covers(s, xs) && w !in xs
    ensures AllSet(Flip(s, w), xs) == AllSet(s, xs)
  {
    assert forall i :: 0 <= i < |xs| ==> Flip(s, w)[xs[i]] == s[xs[i]];
  }

  lemma {:induction false} AllSetConcat(s: State, a: seq<Wire>, b: seq<Wire>)
    requires Covers(s, a) && Covers(s, b)
    ensures Covers(s, a + b)
    ensures AllSet(s, a + b) <==> AllSet(s, a) && AllSet(s, b)
  {
    if AllSet(s, a) && AllSet(s, b) {
      forall i | 0 <= i < |a + b| ensures s[(a + b)[i]] {
        if i < |a| { assert (a + b)[i] == a[i]; } else { assert (a + b)[i] == b[i - |a|]; }
      }
    }
    if AllSet(s, a + b) {
      forall i | 0 <= i < |a| ensures s[a[i]] { assert (a + b)[i] == a[i]; }
      forall i | 0 <= i < |b| ensures s[b[i]] { assert (a + b)[|a| + i] == b[i]; }
    }
  }

  // ---------------------------------------------------------------------------------------
  // The Toffoli ladder (Lemma 7.2)
  // ---------------------------------------------------------------------------------------

  /** The wires of one ladder: controls cs, target t, work wires ws; W(k) is ws[k], and W(m) is t. */
  datatype Frame = Frame(cs: seq<Wire>, t: Wire, ws: seq<Wire>)

  /** One control more than there are rungs, one rung per work wire. */
  predicate Shape(f: Frame) {
    |f.cs| == |f.ws| + 2 && |f.ws| >= 1
  }

  /** The ladder's wires are pairwise distinct. */
  predicate Good(f: Frame) {
    && Shape(f)
    && NoDup(f.cs) && NoDup(f.ws) && Disjoint(f.cs, f.ws)
    && f.t !in f.cs && f.t !in f.ws
  }

  /** The state gives a bit to every wire of the ladder. */
  predicate In(f: Frame, s: State) {
    Covers(s, f.cs) && Covers(s, f.ws) && f.t in s
  }

  lemma {:induction false} InSameKeys(f: Frame, s: State, r: State)
    requires In(f, s) && r.Keys == s.Keys
    ensures In(f, r)
  {
  }

  /** The wire is in the state's domain and set. */
  predicate Set(s: State, w: Wire) {
    w in s && s[w]
  }

  /** Flip, extended to wires outside the domain, which it leaves alone. */
  function Neg(s: State, w: Wire): (r: State)
    ensures r.Keys == s.Keys
  {
    if w in s then Flip(s, w) else s
  }

  lemma {:induction false} NegTwice(s: State, w: Wire)
    ensures Neg(Neg(s, w), w) == s
  {
    if w in s { FlipTwice(s, w); }
  }

  lemma {:induction false} WFacts(f: Frame, k: nat)
    requires Good(f) && k <= |f.ws|
    ensures W(f.t, f.ws, k) !in f.cs
  {
  }

  lemma {:induction false} WDistinct(f: Frame, j: nat, k: nat)
    requires Good(f) && j < k <= |f.ws|
    ensures W(f.t, f.ws, j) != W(f.t, f.ws, k)
  {
  }

  /** The first n wires of cs are all set. */
  predicate Ctl(s: State, cs: seq<Wire>, n: nat)
    requires n <= |cs|
  {
    n == 0 || (Ctl(s, cs, n - 1) && Set(s, cs[n - 1]))
  }

  lemma {:induction false} CtlNeg(s: State, cs: seq<Wire>, n: nat, w: Wire)
    requires n <= |cs| && w !in cs
    ensures Ctl(Neg(s, w), cs, n) == Ctl(s, cs, n)
  {
    if n > 0 { CtlNeg(s, cs, n - 1, w); }
  }

  lemma {:induction false} CtlAllSet(s: State, cs: seq<Wire>, n: nat)
    requires n <= |cs| && Covers(s, cs)
    ensures Ctl(s, cs, n) <==> forall i :: 0 <= i < n ==> s[cs[i]]
  {
    if n > 0 { CtlAllSet(s, cs, n - 1); }
  }

  /** P(k): the first k + 2 controls are all set. */
  predicate P(f: Frame, s: State, k: nat)
    requires Shape(f) && k <= |f.ws|
  {
    Ctl(s, f.cs, k + 2)
  }

  /** Negate W(k) when P(k) holds. */
  function Toggle(f: Frame, k: nat, s: State): (r: State)
    requires Shape(f) && k <= |f.ws|
    ensures r.Keys == s.Keys
  {
    if P(f, s, k) then Neg(s, W(f.t, f.ws, k)) else s
  }

  /** What the ladder of height h does: toggle W(0), ..., W(h), each by its own P. */
  function Effect(f: Frame, h: nat, s: State): (r: State)
    requires Shape(f) && h <= |f.ws|
    ensures r.Keys == s.Keys
  {
    if h == 0 then Toggle(f, 0, s) else Toggle(f, h, Effect(f, h - 1, s))
  }

  lemma {:induction false} FlipWKeepsP(f: Frame, s: State, j: nat, k: nat)
    requires Good(f) && j <= |f.ws| && k <= |f.ws|
    ensures P(f, Neg(s, W(f.t, f.ws, j)), k) == P(f, s, k)
  {
    WFacts(f, j);
    CtlNeg(s, f.cs, k + 2, W(f.t, f.ws, j));
  }

  lemma {:induction false} EffectKeepsP(f: Frame, h: nat, s: State, k: nat)
    requires Good(f) && h <= |f.ws| && k <= |f.ws|
    ensures P(f, Effect(f, h, s), k) == P(f, s, k)
  {
    var x := if h == 0 then s else Effect(f, h - 1, s);
    if h > 0 { EffectKeepsP(f, h - 1, s, k); }
    FlipWKeepsP(f, x, h, k);
  }

  /** The ladder of height h is the one of height h - 1, then W(h) negated under P(h). */
  lemma {:induction false} EffectUnfold(f: Frame, h: nat, s: State)
    requires Good(f) && 1 <= h <= |f.ws|
    ensures Effect(f, h, s)
         == if P(f, s, h) then Neg(Effect(f, h - 1, s), W(f.t, f.ws, h)) else Effect(f, h - 1, s)
  {
    EffectKeepsP(f, h - 1, s, h);
  }

  /** Toggling commutes with negating a higher wire of the ladder. */
  lemma {:induction false} ToggleFlip(f: Frame, j: nat, k: nat, s: State)
    requires Good(f) && j < k <= |f.ws|
    ensures Toggle(f, j, Neg(s, W(f.t, f.ws, k))) == Neg(Toggle(f, j, s), W(f.t, f.ws, k))
  {
    WDistinct(f, j, k);
    FlipWKeepsP(f, s, k, j);
  }

  lemma {:induction false} EffectFlip(f: Frame, h: nat, k: nat, s: State)
    requires Good(f) && h < k <= |f.ws|
    ensures Effect(f, h, Neg(s, W(f.t, f.ws, k))) == Neg(Effect(f, h, s), W(f.t, f.ws, k))
  {
    if h == 0 {
      ToggleFlip(f, 0, k, s);
    } else {
      EffectFlip(f, h - 1, k, s);
      ToggleFlip(f, h, k, Effect(f, h - 1, s));
    }
  }

  /** The ladder effect undoes itself. */
  lemma {:induction false} EffectTwice(f: Frame, h: nat, s: State)
    requires Good(f) && h <= |f.ws|
    ensures Effect(f, h, Effect(f, h, s)) == s
  {
    if h == 0 {
      FlipWKeepsP(f, s, 0, 0);
      NegTwice(s, W(f.t, f.ws, 0));
    } else {
      EffectTwice(f, h - 1, s);
      EffectTwiceStep(f, h, s);
    }
  }

  lemma {:induction false} EffectTwiceStep(f: Frame, h: nat, s: State)
    requires Good(f) && 1 <= h <= |f.ws|
    requires Effect(f, h - 1, Effect(f, h - 1, s)) == s
    ensures Effect(f, h, Effect(f, h, s)) == s
  {
    EffectUnfold(f, h, s);
    if P(f, s, h) {
      EffectTwiceSet(f, h, s);
    } else {
      EffectUnfold(f, h, Effect(f, h - 1, s));
      EffectKeepsP(f, h - 1, s, h);
    }
  }

  lemma {:induction false} EffectTwiceSet(f: Frame, h: nat, s: State)
    requires Good(f) && 1 <= h <= |f.ws| && P(f, s, h)
    requires Effect(f, h - 1, Effect(f, h - 1, s)) == s
    ensures Effect(f, h, Effect(f, h, s)) == s
  {
    var w := W(f.t, f.ws, h);
    var z := Effect(f, h, s);
    EffectBelow(f, h, s);
    EffectUnfold(f, h, z);
    EffectKeepsP(f, h, s, h);
    NegTwice(s, w);
  }

  /** Under P(h), the ladder of height h followed by the one below it negates W(h) alone. */
  lemma {:induction false} EffectBelow(f: Frame, h: nat, s: State)
    requires Good(f) && 1 <= h <= |f.ws| && P(f, s, h)
    requires Effect(f, h - 1, Effect(f, h - 1, s)) == s
    ensures Effect(f, h - 1, Effect(f, h, s)) == Neg(s, W(f.t, f.ws, h))
  {
    var y := Effect(f, h - 1, s);
    EffectUnfold(f, h, s);
    EffectFlip(f, h - 1, h, y);
  }

  /** The full ladder followed by the ladder one rung shorter toggles only the target. */
  lemma {:induction false} TwoLadders(f: Frame, s: State)
    requires Good(f)
    ensures Effect(f, |f.ws| - 1, Effect(f, |f.ws|, s)) == Toggle(f, |f.ws|, s)
  {
    var m := |f.ws|;
    EffectUnfold(f, m, s);
    EffectTwice(f, m - 1, s);
    if P(f, s, m) {
      EffectBelow(f, m, s);
    }
  }

  /** The ladder of height h leaves alone every wire other than W(0), ..., W(h). */
  lemma {:induction false} EffectUntouched(f: Frame, h: nat, s: State, v: Wire)
    requires Shape(f) && h <= |f.ws|
    requires forall k: nat :: k <= h ==> v != W(f.t, f.ws, k)
    ensures Set(Effect(f, h, s), v) == Set(s, v)
  {
    if h > 0 { EffectUntouched(f, h - 1, s, v); }
  }

  /** The ladder of height h adds P(h) to W(h). */
  lemma {:induction false} EffectTop(f: Frame, h: nat, s: State)
    requires Good(f) && In(f, s) && h <= |f.ws|
    ensures Set(Effect(f, h, s), W(f.t, f.ws, h)) == (Set(s, W(f.t, f.ws, h)) != P(f, s, h))
  {
    var w := W(f.t, f.ws, h);
    assert w in s;
    if h > 0 {
      forall k: nat | k <= h - 1 ensures w != W(f.t, f.ws, k) { WDistinct(f, k, h); }
      EffectUntouched(f, h - 1, s, w);
      EffectUnfold(f, h, s);
    }
  }

  // ---------------------------------------------------------------------------------------
  // The ladder's gates
  // ---------------------------------------------------------------------------------------

  function RungOf(f: Frame, k: nat): Op
    requires Shape(f) && k < |f.ws|
  {
    Rung(f.cs, f.t, f.ws, k)
  }

  /** Rung k negates W(k + 1) when control k + 2 and W(k) are both set. */
  lemma {:induction false} RungAct(f: Frame, k: nat, x: State)
    requires Good(f) && In(f, x) && k < |f.ws|
    ensures Applicable(RungOf(f, k), x)
    ensures ApplyGate(RungOf(f, k), x)
         == if Set(x, f.cs[k + 2]) && Set(x, W(f.t, f.ws, k)) then Neg(x, W(f.t, f.ws, k + 1)) else x
  {
    WFacts(f, k);
    WFacts(f, k + 1);
    WDistinct(f, k, k + 1);
    assert f.cs[k + 2] in f.cs;
  }

  /** The foot of the ladder toggles W(0) by P(0). */
  lemma {:induction false} BaseAct(f: Frame, s: State)
    requires Good(f) && In(f, s)
    ensures Applicable(Base(f.cs, f.ws), s)
    ensures ApplyGate(Base(f.cs, f.ws), s) == Toggle(f, 0, s)
  {
    assert f.cs[0] in f.cs && f.cs[1] in f.cs && f.ws[0] in f.ws;
    assert Ctl(s, f.cs, 1) == Set(s, f.cs[0]);
  }

  /** A ladder is its top rung, the ladder below it, and the top rung again. */
  lemma {:induction false} LadderUnfold(f: Frame, h: nat)
    requires Shape(f) && 1 <= h <= |f.ws|
    ensures Ladder(f.cs, f.t, f.ws, h)
         == [RungOf(f, h - 1)] + Ladder(f.cs, f.t, f.ws, h - 1) + [RungOf(f, h - 1)]
  {
    var d, d1 := Down(f.cs, f.t, f.ws, h), Down(f.cs, f.t, f.ws, h - 1);
    var u, u1 := Up(f.cs, f.t, f.ws, h), Up(f.cs, f.t, f.ws, h - 1);
    assert d == [RungOf(f, h - 1)] + d1;
    assert u == u1 + [RungOf(f, h - 1)];
  }

  lemma {:induction false} LadderApplicable(f: Frame, h: nat, s: State)
    requires Good(f) && In(f, s) && h <= |f.ws|
    ensures AllApplicable(Ladder(f.cs, f.t, f.ws, h), s)
  {
    var l := Ladder(f.cs, f.t, f.ws, h);
    forall i | 0 <= i < |l| ensures Applicable(l[i], s) {
      if i < h {
        assert l[i] == RungOf(f, h - 1 - i);
        RungAct(f, h - 1 - i, s);
      } else if i == h {
        assert l[i] == Base(f.cs, f.ws);
        BaseAct(f, s);
      } else {
        assert l[i] == RungOf(f, i - h - 1);
        RungAct(f, i - h - 1, s);
      }
    }
  }

  lemma {:induction false} RunSandwich(r: Op, inner: seq<Op>, s: State)
    requires Applicable(r, s) && AllApplicable(inner, s)
    ensures AllApplicable([r] + inner + [r], s)
    ensures Run([r] + inner + [r], s) == ApplyGate(r, Run(inner, ApplyGate(r, s)))
  {
    RunSingle(r, s);
    RunAppend([r], inner, s);
    RunSingle(r, Run(inner, ApplyGate(r, s)));
    RunAppend([r] + inner, [r], s);
  }

  /** P(h) is P(h - 1) and control h + 1. */
  lemma {:induction false} PStep(f: Frame, h: nat, s: State)
    requires Shape(f) && 1 <= h <= |f.ws|
    ensures P(f, s, h) <==> P(f, s, h - 1) && Set(s, f.cs[h + 1])
  {
  }

  /** The ladder below rung h - 1 leaves its control h + 1 alone. */
  lemma {:induction false} LadderKeepsControl(f: Frame, h: nat, s: State)
    requires Good(f) && 1 <= h <= |f.ws|
    ensures Set(Effect(f, h - 1, s), f.cs[h + 1]) == Set(s, f.cs[h + 1])
  {
    var c := f.cs[h + 1];
    forall k: nat | k <= h - 1 ensures c != W(f.t, f.ws, k) { WFacts(f, k); }
    EffectUntouched(f, h - 1, s, c);
  }

  /** The ladder of height h unrolled by one level. */
  lemma {:induction false} EffectStep(f: Frame, h: nat, s: State)
    requires Good(f) && 1 <= h <= |f.ws|
    ensures Effect(f, h, s)
         == if P(f, s, h - 1) && Set(s, f.cs[h + 1])
            then Neg(Effect(f, h - 1, s), W(f.t, f.ws, h)) else Effect(f, h - 1, s)
  {
    EffectUnfold(f, h, s);
    PStep(f, h, s);
  }

  /** The top rung before the ladder below it: W(h) picks up control h + 1 and W(h - 1) first. */
  lemma {:induction false} RungBefore(f: Frame, h: nat, s: State)
    requires Good(f) && In(f, s) && 1 <= h <= |f.ws|
    ensures Applicable(RungOf(f, h - 1), s)
    ensures Effect(f, h - 1, ApplyGate(RungOf(f, h - 1), s))
         == if Set(s, f.cs[h + 1]) && Set(s, W(f.t, f.ws, h - 1))
            then Neg(Effect(f, h - 1, s), W(f.t, f.ws, h)) else Effect(f, h - 1, s)
  {
    RungAct(f, h - 1, s);
    if Set(s, f.cs[h + 1]) && Set(s, W(f.t, f.ws, h - 1)) {
      EffectFlip(f, h - 1, h, s);
    }
  }

  /**
   * Rung h - 1 around the ladder of height h - 1: the rung adds c && W(h - 1) to W(h) before,
   * the ladder adds P(h - 1) to W(h - 1), the rung adds c && W(h - 1) again after: W(h) gains
   * c && P(h - 1), which is P(h).
   */
  lemma {:induction false} RungStep(f: Frame, h: nat, s: State)
    requires Good(f) && In(f, s) && 1 <= h <= |f.ws|
    ensures Applicable(RungOf(f, h - 1), s)
    ensures ApplyGate(RungOf(f, h - 1), Effect(f, h - 1, ApplyGate(RungOf(f, h - 1), s))) == Effect(f, h, s)
  {
    RungBefore(f, h, s);
    RungAfter(f, h, s);
  }

  /** The top rung after the ladder below it completes the ladder of height h. */
  lemma {:induction false} RungAfter(f: Frame, h: nat, s: State)
    requires Good(f) && In(f, s) && 1 <= h <= |f.ws|
    ensures var e := Effect(f, h - 1, s);
      var e1 := if Set(s, f.cs[h + 1]) && Set(s, W(f.t, f.ws, h - 1)) then Neg(e, W(f.t, f.ws, h)) else e;
      Applicable(RungOf(f, h - 1), e1) && ApplyGate(RungOf(f, h - 1), e1) == Effect(f, h, s)
  {
    if Set(s, f.cs[h + 1]) && Set(s, W(f.t, f.ws, h - 1)) {
      RungAfterSet(f, h, s);
    } else {
      RungAfterClear(f, h, s);
    }
  }

  /** After the ladder below it, the control of rung h - 1 is as it was and its W(h - 1) has picked up P(h - 1). */
  lemma {:induction false} RungInputs(f: Frame, h: nat, s: State)
    requires Good(f) && In(f, s) && 1 <= h <= |f.ws|
    ensures var e, c, lo, hi := Effect(f, h - 1, s), f.cs[h + 1], W(f.t, f.ws, h - 1), W(f.t, f.ws, h);
      && Set(e, c) == Set(s, c) && Set(Neg(e, hi), c) == Set(s, c)
      && Set(e, lo) == (Set(s, lo) != P(f, s, h - 1))
      && Set(Neg(e, hi), lo) == (Set(s, lo) != P(f, s, h - 1))
  {
    WDistinct(f, h - 1, h);
    WFacts(f, h);
    LadderKeepsControl(f, h, s);
    EffectTop(f, h - 1, s);
  }

  lemma {:induction false} RungAfterSet(f: Frame, h: nat, s: State)
    requires Good(f) && In(f, s) && 1 <= h <= |f.ws|
    requires Set(s, f.cs[h + 1]) && Set(s, W(f.t, f.ws, h - 1))
    ensures var e1 := Neg(Effect(f, h - 1, s), W(f.t, f.ws, h));
      Applicable(RungOf(f, h - 1), e1) && ApplyGate(RungOf(f, h - 1), e1) == Effect(f, h, s)
  {
    var hi := W(f.t, f.ws, h);
    var e := Effect(f, h - 1, s);
    var e1 := Neg(e, hi);
    var p := P(f, s, h - 1);
    assert Set(e1, f.cs[h + 1]) && Set(e1, W(f.t, f.ws, h - 1)) == !p by { RungInputs(f, h, s); }
    assert Effect(f, h, s) == if p then e1 else e by { EffectStep(f, h, s); }
    assert Applicable(RungOf(f, h - 1), e1)
        && ApplyGate(RungOf(f, h - 1), e1) == if !p then Neg(e1, hi) else e1 by {
      InSameKeys(f, s, e1);
      RungAct(f, h - 1, e1);
    }
    if !p {
      NegTwice(e, hi);
    }
  }

  lemma {:induction false} RungAfterClear(f: Frame, h: nat, s: State)
    requires Good(f) && In(f, s) && 1 <= h <= |f.ws|
    requires !(Set(s, f.cs[h + 1]) && Set(s, W(f.t, f.ws, h - 1)))
    ensures var e := Effect(f, h - 1, s);
      Applicable(RungOf(f, h - 1), e) && ApplyGate(RungOf(f, h - 1), e) == Effect(f, h, s)
  {
    var hi := W(f.t, f.ws, h);
    var e := Effect(f, h - 1, s);
    var cs, p := Set(s, f.cs[h + 1]), P(f, s, h - 1);
    assert (Set(e, f.cs[h + 1]) && Set(e, W(f.t, f.ws, h - 1))) == (cs && p) by { RungInputs(f, h, s); }
    assert Effect(f, h, s) == if p && cs then Neg(e, hi) else e by { EffectStep(f, h, s); }
    InSameKeys(f, s, e);
    RungAct(f, h - 1, e);
  }

  /** Running the ladder of height h is its effect. */
  lemma {:induction false} RunLadder(f: Frame, h: nat, s: State)
    requires Good(f) && In(f, s) && h <= |f.ws|
    ensures AllApplicable(Ladder(f.cs, f.t, f.ws, h), s)
    ensures Run(Ladder(f.cs, f.t, f.ws, h), s) == Effect(f, h, s)
  {
    LadderApplicable(f, h, s);
    if h == 0 {
      var b := Base(f.cs, f.ws);
      assert Ladder(f.cs, f.t, f.ws, 0) == [b];
      BaseAct(f, s);
      RunSingle(b, s);
    } else {
      var r := RungOf(f, h - 1);
      var inner := Ladder(f.cs, f.t, f.ws, h - 1);
      LadderUnfold(f, h);
      RungAct(f, h - 1, s);
      LadderApplicable(f, h - 1, s);
      RunSandwich(r, inner, s);
      InSameKeys(f, s, ApplyGate(r, s));
      RunLadder(f, h - 1, ApplyGate(r, s));
      RungStep(f, h, s);
    }
  }

  /** Toggling the top of the full ladder is negating the target under all the controls. */
  lemma {:induction false} ToggleTop(f: Frame, s: State)
    requires Good(f) && In(f, s)
    ensures Toggle(f, |f.ws|, s) == if AllSet(s, f.cs) then Flip(s, f.t) else s
  {
    CtlAllSet(s, f.cs, |f.cs|);
  }

  /** Lemma 7.2: the two ladders negate the target exactly when every control is set, and nothing else. */
  lemma {:induction false} ManyWorkersCorrect(cs: seq<Wire>, t: Wire, work: seq<Wire>, s: State)
    requires |cs| >= 3 && |work| >= |cs| - 2
    requires NoDup(cs) && NoDup(work) && Disjoint(cs, work) && t !in cs && t !in work
    requires Covers(s, cs) && Covers(s, work) && t in s
    ensures AllApplicable(ManyWorkers(cs, t, work), s)
    ensures Run(ManyWorkers(cs, t, work), s) == if AllSet(s, cs) then Flip(s, t) else s
  {
    var ws := work[..|cs| - 2];
    var f := Frame(cs, t, ws);
    assert forall w :: w in ws ==> w in work;
    assert Good(f) && In(f, s);
    assert ManyWorkers(cs, t, work) == Ladder(cs, t, ws, |ws|) + Ladder(cs, t, ws, |ws| - 1);
    TwoLaddersRun(f, s);
    ToggleTop(f, s);
  }

  /** Running the full ladder and then the shorter one toggles the target by all the controls. */
  lemma {:induction false} TwoLaddersRun(f: Frame, s: State)
    requires Good(f) && In(f, s)
    ensures var m := |f.ws|;
      var l := Ladder(f.cs, f.t, f.ws, m) + Ladder(f.cs, f.t, f.ws, m - 1);
      AllApplicable(l, s) && Run(l, s) == Toggle(f, m, s)
  {
    var m := |f.ws|;
    var l1, l2 := Ladder(f.cs, f.t, f.ws, m), Ladder(f.cs, f.t, f.ws, m - 1);
    var x, y := Effect(f, m, s), Toggle(f, m, s);
    assert AllApplicable(l1, s) && Run(l1, s) == x by { RunLadder(f, m, s); }
    assert AllApplicable(l2, x) && Run(l2, x) == y by {
      InSameKeys(f, s, x);
      RunLadder(f, m - 1, x);
      TwoLadders(f, s);
    }
    RunThen(l1, l2, s, x, y);
  }
}
