/** Generic facts about the list operations the rewrite passes perform. */
module Sequences {

  /** list.pop(i): the list without its element at index i. */
  function RemoveAt<T>(s: seq<T>, i: nat): (r: seq<T>)
    requires i < |s|
    ensures |r| == |s| - 1
    ensures forall k :: 0 <= k < i ==> r[k] == s[k]
    ensures forall k :: i <= k < |r| ==> r[k] == s[k + 1]
  {
    s[..i] + s[i + 1..]
  }

  lemma {:induction false} RemoveAtMultiset<T>(s: seq<T>, i: nat)
    requires i < |s|
    ensures multiset(RemoveAt(s, i)) + multiset{s[i]} == multiset(s)
  {
    assert s == s[..i] + [s[i]] + s[i + 1..];
  }

  /** Popping index i + 1 and then the head is popping the head and then index i. */
  lemma {:induction false} RemoveAtThenTail<T>(s: seq<T>, i: nat)
    requires i + 1 < |s|
    ensures RemoveAt(s, i + 1)[1..] == RemoveAt(s[1..], i)
  {
  }

  /** a can be obtained from b by deleting elements (greedy matching from the front). */
  predicate IsSubseq<T(==)>(a: seq<T>, b: seq<T>)
    decreases |b|
  {
    if a == [] then true
    else if b == [] then false
    else if a[0] == b[0] then IsSubseq(a[1..], b[1..])
    else IsSubseq(a, b[1..])
  }

  lemma {:induction false} SubseqRefl<T>(a: seq<T>)
    ensures IsSubseq(a, a)
    decreases |a|
  {
    if a != [] { SubseqRefl(a[1..]); }
  }

  lemma {:induction false} SubseqDropHead<T>(a: seq<T>, b: seq<T>)
    requires a != [] && IsSubseq(a, b)
    ensures IsSubseq(a[1..], b)
    decreases |b|, 0
  {
    if a[0] == b[0] {
      SubseqSkip(a[1..], b[1..], b[0]);
    } else {
      SubseqDropHead(a, b[1..]);
      SubseqSkip(a[1..], b[1..], b[0]);
    }
  }

  /** Adding an element in front of b keeps a a subsequence of it. */
  lemma {:induction false} SubseqSkip<T>(a: seq<T>, b: seq<T>, x: T)
    requires IsSubseq(a, b)
    ensures IsSubseq(a, [x] + b)
    decreases |b|, 1
  {
    var xb := [x] + b;
    assert xb[1..] == b;
    if a != [] && a[0] == x {
      SubseqDropHead(a, b);
    }
  }

  lemma {:induction false} SubseqTrans<T>(a: seq<T>, b: seq<T>, c: seq<T>)
    requires IsSubseq(a, b) && IsSubseq(b, c)
    ensures IsSubseq(a, c)
    decreases |c|
  {
    if a == [] {
    } else if b[0] == c[0] {
      if a[0] == b[0] {
        SubseqTrans(a[1..], b[1..], c[1..]);
      } else {
        SubseqTrans(a, b[1..], c[1..]);
        assert c == [c[0]] + c[1..];
        SubseqSkip(a, c[1..], c[0]);
      }
    } else {
      SubseqTrans(a, b, c[1..]);
      assert c == [c[0]] + c[1..];
      SubseqSkip(a, c[1..], c[0]);
    }
  }

  lemma {:induction false} SubseqRemoveAt<T>(s: seq<T>, i: nat)
    requires i < |s|
    ensures IsSubseq(RemoveAt(s, i), s)
    decreases |s|
  {
    if i == 0 {
      SubseqRefl(s[1..]);
      assert RemoveAt(s, 0) == s[1..];
      assert s == [s[0]] + s[1..];
      SubseqSkip(s[1..], s[1..], s[0]);
    } else {
      SubseqRemoveAt(s[1..], i - 1);
      assert RemoveAt(s, i) == [s[0]] + RemoveAt(s[1..], i - 1);
    }
  }

  /** A common prefix keeps the subsequence relation. */
  lemma {:induction false} SubseqPrefix<T>(q: seq<T>, a: seq<T>, b: seq<T>)
    requires IsSubseq(a, b)
    ensures IsSubseq(q + a, q + b)
    decreases |q|
  {
    if q == [] {
      assert q + a == a && q + b == b;
    } else {
      SubseqPrefix(q[1..], a, b);
      assert (q + a)[0] == (q + b)[0];
      assert (q + a)[1..] == q[1..] + a;
      assert (q + b)[1..] == q[1..] + b;
    }
  }

  /** Every element of a subsequence occurs in the sequence. */
  lemma {:induction false} SubseqMember<T>(a: seq<T>, b: seq<T>, x: T)
    requires IsSubseq(a, b) && x in a
    ensures x in b
    decreases |b|
  {
    if a[0] == b[0] {
      if x != a[0] { SubseqMember(a[1..], b[1..], x); }
    } else {
      SubseqMember(a, b[1..], x);
    }
  }

  lemma {:induction false} SubseqLength<T>(a: seq<T>, b: seq<T>)
    requires IsSubseq(a, b)
    ensures |a| <= |b|
    decreases |b|
  {
    if a != [] && b != [] {
      if a[0] == b[0] { SubseqLength(a[1..], b[1..]); } else { SubseqLength(a, b[1..]); }
    }
  }

  /** The elements of s satisfying p, in their original order. */
  function Filter<T>(p: T -> bool, s: seq<T>): (r: seq<T>)
    ensures |r| <= |s|
  {
    if s == [] then [] else (if p(s[0]) then [s[0]] else []) + Filter(p, s[1..])
  }

  lemma {:induction false} FilterConcat<T>(p: T -> bool, a: seq<T>, b: seq<T>)
    ensures Filter(p, a + b) == Filter(p, a) + Filter(p, b)
  {
    if a != [] {
      assert (a + b)[0] == a[0];
      assert (a + b)[1..] == a[1..] + b;
      FilterConcat(p, a[1..], b);
    } else {
      assert a + b == b;
    }
  }

  /** Removing an element p rejects does not change what Filter keeps. */
  lemma {:induction false} FilterRemoveAt<T>(p: T -> bool, s: seq<T>, i: nat)
    requires i < |s| && !p(s[i])
    ensures Filter(p, RemoveAt(s, i)) == Filter(p, s)
    decreases |s|
  {
    if i == 0 {
      assert RemoveAt(s, 0) == s[1..];
    } else {
      FilterRemoveAt(p, s[1..], i - 1);
      var r := RemoveAt(s, i);
      assert r == [s[0]] + RemoveAt(s[1..], i - 1);
      assert r[0] == s[0] && r[1..] == RemoveAt(s[1..], i - 1);
    }
  }

  /** list(reversed(s)). */
  function Reversed<T>(s: seq<T>): (r: seq<T>)
    ensures |r| == |s| && forall i :: 0 <= i < |s| ==> r[i] == s[|s| - 1 - i]
  {
    seq(|s|, i requires 0 <= i < |s| => s[|s| - 1 - i])
  }

  /** Extending a prefix by the next element. */
  lemma {:induction false} TakeSnoc<T>(s: seq<T>, i: nat)
    requires i < |s|
    ensures s[..i + 1] == s[..i] + [s[i]]
  {
  }
}
