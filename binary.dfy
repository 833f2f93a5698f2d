/** Powers of two, binary control strings and the big-endian numbering of basis states. */
module Binary {

  function Pow2(n: nat): (p: nat)
    ensures p >= 1
  {
    if n == 0 then 1 else 2 * Pow2(n - 1)
  }

  predicate IsBitString(s: string) {
    forall i :: 0 <= i < |s| ==> s[i] == '0' || s[i] == '1'
  }

  /** The string "1" * n. */
  function Ones(n: nat): (s: string)
    ensures |s| == n && IsBitString(s)
    ensures forall i :: 0 <= i < n ==> s[i] == '1'
  {
    seq(n, _ => '1')
  }

  /** int(s, 2) for a string of '0' and '1' digits, most significant digit first. */
  function BinaryValue(s: string): (v: nat)
    requires IsBitString(s)
    ensures v < Pow2(|s|)
  {
    if s == [] then 0
    else 2 * BinaryValue(s[..|s| - 1]) + (if s[|s| - 1] == '1' then 1 else 0)
  }

  /** The number of a basis state: the first entry is the most significant bit. */
  function Index(b: seq<bool>): (v: nat)
    ensures v < Pow2(|b|)
  {
    if b == [] then 0
    else 2 * Index(b[..|b| - 1]) + (if b[|b| - 1] then 1 else 0)
  }

  /** The basis state on n wires whose number is v. */
  function BitsOf(v: nat, n: nat): (b: seq<bool>)
    requires v < Pow2(n)
    ensures |b| == n && Index(b) == v
  {
    if n == 0 then []
    else
      var b := BitsOf(v / 2, n - 1) + [v % 2 == 1];
      assert b[..n - 1] == BitsOf(v / 2, n - 1);
      b
  }

  /** Numbering is injective: a basis state is recovered from its number. */
  lemma {:induction false} BitsOfIndex(b: seq<bool>)
    ensures BitsOf(Index(b), |b|) == b
    decreases |b|
  {
    if b != [] {
      var n := |b|;
      BitsOfIndex(b[..n - 1]);
      assert Index(b) / 2 == Index(b[..n - 1]);
      assert b == b[..n - 1] + [b[n - 1]];
    }
  }

  lemma {:induction false} IndexInjective(a: seq<bool>, b: seq<bool>)
    requires |a| == |b| && Index(a) == Index(b)
    ensures a == b
  {
    BitsOfIndex(a);
    BitsOfIndex(b);
  }

  /** The basis state a control string selects. */
  function BitsOfString(s: string): (b: seq<bool>)
    ensures |b| == |s| && forall i :: 0 <= i < |s| ==> (b[i] <==> s[i] == '1')
  {
    seq(|s|, i requires 0 <= i < |s| => s[i] == '1')
  }

  /** int(s, 2) is the number of the basis state that s spells. */
  lemma {:induction false} BinaryValueIsIndex(s: string)
    requires IsBitString(s)
    ensures BinaryValue(s) == Index(BitsOfString(s))
    decreases |s|
  {
    if s != [] {
      var n := |s|;
      BinaryValueIsIndex(s[..n - 1]);
      assert BitsOfString(s)[..n - 1] == BitsOfString(s[..n - 1]);
    }
  }
}
