/**
 * Generic sequence machinery used by the team picker: order-preserving
 * subsequences, the k-subsets generator (Python's `itertools.combinations`),
 * a stable descending insertion sort by a key (Python's
 * `sorted(..., key=..., reverse=True)`) and the top-k cut `[:k]`.
 */
module Seqs {

  function Min(a: int, b: int): int
  {
    if a <= b then a else b
  }

  /** `t` is obtained from `s` by deleting elements, keeping the order of the rest. */
  predicate IsSubseq<T(==)>(t: seq<T>, s: seq<T>)
    decreases |s|
  {
    if t == [] then true
    else if s == [] then false
    else (t[0] == s[0] && IsSubseq(t[1..], s[1..])) || IsSubseq(t, s[1..])
  }

  lemma {:induction false} SubseqLength<T>(t: seq<T>, s: seq<T>)
    requires IsSubseq(t, s)
    ensures |t| <= |s|
    decreases |s|
  {
    if t != [] {
      if t[0] == s[0] && IsSubseq(t[1..], s[1..]) {
        SubseqLength(t[1..], s[1..]);
      } else {
        SubseqLength(t, s[1..]);
      }
    }
  }

  /** Every element of a subsequence is an element of the sequence it was drawn from. */
  lemma {:induction false} SubseqMembers<T>(t: seq<T>, s: seq<T>)
    requires IsSubseq(t, s)
    ensures forall x <- t :: x in s
    decreases |s|
  {
    if t != [] {
      if t[0] == s[0] && IsSubseq(t[1..], s[1..]) {
        SubseqMembers(t[1..], s[1..]);
        assert forall x <- t :: x == t[0] || x in t[1..];
      } else {
        SubseqMembers(t, s[1..]);
      }
    }
  }

  /** `[x] + c` for every `c` in `cs`, in order. */
  function PrependAll<T>(x: T, cs: seq<seq<T>>): (r: seq<seq<T>>)
    ensures |r| == |cs|
    ensures forall i :: 0 <= i < |cs| ==> r[i] == [x] + cs[i]
  {
    if cs == [] then [] else [[x] + cs[0]] + PrependAll(x, cs[1..])
  }

  /** A subsequence of the tail is a subsequence of the whole, with or without the head. */
  lemma SubseqOfTail<T>(s: seq<T>, c: seq<T>)
    requires |s| > 0 && IsSubseq(c, s[1..])
    ensures IsSubseq([s[0]] + c, s)
    ensures IsSubseq(c, s)
  {
    assert ([s[0]] + c)[1..] == c;
  }

  /**
   * All `k`-element subsequences of `s` (subsets of positions), those that
   * keep `s[0]` first: the order in which `itertools.combinations` yields them.
   */
  function Combos<T(==)>(s: seq<T>, k: nat): (r: seq<seq<T>>)
    ensures forall c <- r :: |c| == k
    ensures |s| < k ==> r == []
    decreases |s|
  {
    if k == 0 then [[]]
    else if |s| < k then []
    else PrependAll(s[0], Combos(s[1..], k - 1)) + Combos(s[1..], k)
  }

  /** Soundness, one combination at a time. */
  lemma {:induction false} CombosMemberSound<T>(s: seq<T>, k: nat, c: seq<T>)
    requires c in Combos(s, k)
    ensures IsSubseq(c, s)
    decreases |s|
  {
    if k == 0 {
      assert c == [];
    } else if |s| >= k {
      var tail := Combos(s[1..], k - 1);
      var withHead := PrependAll(s[0], tail);
      if c in withHead {
        var i :| 0 <= i < |withHead| && withHead[i] == c;
        CombosMemberSound(s[1..], k - 1, tail[i]);
        SubseqOfTail(s, tail[i]);
      } else {
        CombosMemberSound(s[1..], k, c);
        SubseqOfTail(s, c);
      }
    }
  }

  /** Soundness: everything generated is a subsequence of `s`. */
  lemma CombosSound<T>(s: seq<T>, k: nat)
    ensures forall c <- Combos(s, k) :: IsSubseq(c, s)
  {
  }

  /** A combination of the tail, with the head put in front, is a combination of the whole. */
  lemma CombosWithHead<T>(s: seq<T>, k: nat, c: seq<T>)
    requires 0 < k <= |s| && |c| > 0 && c[0] == s[0] && c[1..] in Combos(s[1..], k - 1)
    ensures c in Combos(s, k)
  {
    var tail := Combos(s[1..], k - 1);
    var i :| 0 <= i < |tail| && tail[i] == c[1..];
    var withHead := PrependAll(s[0], tail);
    assert withHead[i] == [s[0]] + c[1..];
    HeadAndTail(c);
    assert c in withHead;
    InLeftPart(withHead, Combos(s[1..], k), c);
  }

  lemma HeadAndTail<T>(c: seq<T>)
    requires |c| > 0
    ensures [c[0]] + c[1..] == c
  {
  }

  lemma InLeftPart<T>(a: seq<T>, b: seq<T>, x: T)
    requires x in a
    ensures x in a + b
  {
    var i :| 0 <= i < |a| && a[i] == x;
    assert (a + b)[i] == x;
  }

  /** A combination of the tail is a combination of the whole. */
  lemma CombosWithoutHead<T>(s: seq<T>, k: nat, c: seq<T>)
    requires 0 < k <= |s| && c in Combos(s[1..], k)
    ensures c in Combos(s, k)
  {
  }

  /** One unfolding of `IsSubseq` for a non-empty subsequence. */
  lemma SubseqStep<T>(t: seq<T>, s: seq<T>)
    requires |t| > 0 && IsSubseq(t, s)
    ensures |t| <= |s|
    ensures (t[0] == s[0] && IsSubseq(t[1..], s[1..])) || (|t| <= |s| - 1 && IsSubseq(t, s[1..]))
  {
    SubseqLength(t, s);
    if !(t[0] == s[0] && IsSubseq(t[1..], s[1..])) {
      SubseqLength(t, s[1..]);
    }
  }

  /** Completeness: every `k`-element subsequence of `s` is generated. */
  lemma {:induction false} CombosComplete<T>(s: seq<T>, k: nat, c: seq<T>)
    requires |c| == k && IsSubseq(c, s)
    ensures c in Combos(s, k)
    decreases |s|, 1
  {
    if k > 0 {
      SubseqStep(c, s);
      if c[0] == s[0] && IsSubseq(c[1..], s[1..]) {
        CompleteWithHead(s, k, c);
      } else {
        CompleteWithoutHead(s, k, c);
      }
    }
  }

  lemma {:induction false} CompleteWithHead<T>(s: seq<T>, k: nat, c: seq<T>)
    requires 0 < k <= |s| && |c| == k && c[0] == s[0] && IsSubseq(c[1..], s[1..])
    ensures c in Combos(s, k)
    decreases |s|, 0
  {
    CombosComplete(s[1..], k - 1, c[1..]);
    CombosWithHead(s, k, c);
  }

  lemma {:induction false} CompleteWithoutHead<T>(s: seq<T>, k: nat, c: seq<T>)
    requires 0 < k <= |s| - 1 && |c| == k && IsSubseq(c, s[1..])
    ensures c in Combos(s, k)
    decreases |s|, 0
  {
    CombosComplete(s[1..], k, c);
    CombosWithoutHead(s, k, c);
  }

  /** No element occurs twice. */
  predicate Distinct<T(==)>(s: seq<T>)
  {
    forall i, j :: 0 <= i < j < |s| ==> s[i] != s[j]
  }

  function Fact(n: nat): nat
  {
    if n == 0 then 1 else n * Fact(n - 1)
  }

  /** Binomial coefficients by Pascal's rule. */
  function Binomial(n: nat, k: nat): nat
  {
    if k == 0 then 1
    else if n == 0 then 0
    else Binomial(n - 1, k - 1) + Binomial(n - 1, k)
  }

  /**
   * Multiplicity: there are exactly n! / (k! (n - k)!) combinations, one
   * per choice of `k` positions, whatever the elements are.
   */
  lemma CombosCount<T>(s: seq<T>, k: nat)
    requires k <= |s|
    ensures |Combos(s, k)| * Fact(k) * Fact(|s| - k) == Fact(|s|)
  {
    CombosBinomial(s, k);
    BinomialFactorial(|s|, k);
  }

  lemma {:induction false} CombosBinomial<T>(s: seq<T>, k: nat)
    ensures |Combos(s, k)| == Binomial(|s|, k)
  {
    if k > |s| {
      BinomialZero(|s|, k);
    } else if k > 0 {
      var t, j: nat := s[1..], k - 1;
      CombosSplit(s, t, j);
      CombosBinomial(t, j);
      CombosBinomial(t, j + 1);
      BinomialStep(|t|, j);
    }
  }

  /** Pascal's coefficients are the factorial ones. */
  lemma {:induction false} BinomialFactorial(n: nat, k: nat)
    requires k <= n
    ensures Binomial(n, k) * Fact(k) * Fact(n - k) == Fact(n)
  {
    if k > 0 {
      var m := n - 1;
      BinomialFactorial(m, k - 1);
      if k <= m {
        BinomialFactorial(m, k);
      } else {
        BinomialZero(m, k);
      }
      CountStep(m, k, Binomial(m, k - 1), Binomial(m, k));
    }
  }

  lemma {:induction false} BinomialZero(n: nat, k: nat)
    requires n < k
    ensures Binomial(n, k) == 0
  {
    if n > 0 {
      BinomialZero(n - 1, k - 1);
      BinomialZero(n - 1, k);
    }
  }

  /** `Combos` splits into the combinations with the head and those without it. */
  lemma CombosSplit<T>(s: seq<T>, t: seq<T>, j: nat)
    requires j < |s| && t == s[1..]
    ensures |Combos(s, j + 1)| == |Combos(t, j)| + |Combos(t, j + 1)|
  {
  }

  lemma BinomialStep(n: nat, j: nat)
    ensures Binomial(n + 1, j + 1) == Binomial(n, j) + Binomial(n, j + 1)
  {
  }

  /** The counts of the two halves of `Combos` add up to the count of the whole. */
  lemma CountStep(m: nat, k: nat, a: nat, b: nat)
    requires 0 < k <= m + 1
    requires a * Fact(k - 1) * Fact(m - (k - 1)) == Fact(m)
    requires k <= m ==> b * Fact(k) * Fact(m - k) == Fact(m)
    requires k == m + 1 ==> b == 0
    ensures (a + b) * Fact(k) * Fact(m + 1 - k) == Fact(m + 1)
  {
    var n := m + 1;
    assert Fact(k) == k * Fact(k - 1);
    assert Fact(n) == n * Fact(m);
    if k < n {
      assert Fact(n - k) == (n - k) * Fact(m - k);
      PascalStep(a, b, k, n, Fact(m), Fact(k - 1), Fact(m - k));
    } else {
      assert Fact(n - k) == 1;
      LastChoice(a, n, Fact(m));
    }
  }

  /** The arithmetic of choosing all `n` of `n` elements. */
  lemma LastChoice(a: int, n: int, f: int)
    requires a * f * 1 == f
    ensures a * (n * f) * 1 == n * f
  {
    assert a * (n * f) == n * (a * f);
  }

  /** Pascal's rule in factorial form: the head is either chosen or skipped. */
  lemma PascalStep(a: int, b: int, k: int, n: int, f: int, p: int, q: int)
    requires a * p * ((n - k) * q) == f
    requires b * (k * p) * q == f
    ensures (a + b) * (k * p) * ((n - k) * q) == n * f
  {
    calc {
      (a + b) * (k * p) * ((n - k) * q);
      k * (a * p * ((n - k) * q)) + (n - k) * (b * (k * p) * q);
      k * f + (n - k) * f;
    }
  }

  /** In a pool without repeated elements, no combination is generated twice. */
  lemma {:induction false} CombosDistinct<T>(s: seq<T>, k: nat)
    requires Distinct(s)
    ensures Distinct(Combos(s, k))
  {
    if k > 0 && |s| >= k {
      var t, j: nat := s[1..], k - 1;
      assert Distinct(t);
      CombosUnfold(s, t, j);
      CombosDistinct(t, j);
      CombosDistinct(t, j + 1);
      PrependDistinct(s[0], Combos(t, j));
      HeadSeparates(s, t, j);
      DistinctByHead(PrependAll(s[0], Combos(t, j)), Combos(t, j + 1), s[0]);
    }
  }

  lemma CombosUnfold<T>(s: seq<T>, t: seq<T>, j: nat)
    requires j < |s| && t == s[1..]
    ensures Combos(s, j + 1) == PrependAll(s[0], Combos(t, j)) + Combos(t, j + 1)
  {
  }

  lemma PrependDistinct<T>(x: T, cs: seq<seq<T>>)
    requires Distinct(cs)
    ensures Distinct(PrependAll(x, cs))
  {
    var r := PrependAll(x, cs);
    forall i, j | 0 <= i < j < |r|
      ensures r[i] != r[j]
    {
      assert r[i][1..] == cs[i];
      assert r[j][1..] == cs[j];
    }
  }

  /** In a pool without repeated elements, no combination of the tail starts with the head. */
  lemma HeadSeparates<T>(s: seq<T>, t: seq<T>, j: nat)
    requires j < |s| && t == s[1..] && Distinct(s)
    ensures forall y <- Combos(t, j + 1) :: |y| > 0 && y[0] != s[0]
  {
    forall y <- Combos(t, j + 1)
      ensures |y| > 0 && y[0] != s[0]
    {
      CombosMemberSound(t, j + 1, y);
      SubseqMembers(y, t);
      assert y[0] in t;
    }
  }

  /** Two distinct lists of sequences, told apart by their first elements, stay distinct when joined. */
  lemma DistinctByHead<T>(a: seq<seq<T>>, b: seq<seq<T>>, h: T)
    requires Distinct(a) && Distinct(b)
    requires forall x <- a :: |x| > 0 && x[0] == h
    requires forall y <- b :: |y| > 0 && y[0] != h
    ensures Distinct(a + b)
  {
    forall i, j | 0 <= i < j < |a + b|
      ensures (a + b)[i] != (a + b)[j]
    {
      if j < |a| {
      } else if i >= |a| {
        assert (a + b)[i] == b[i - |a|] && (a + b)[j] == b[j - |a|];
      } else {
        assert (a + b)[i] in a && (a + b)[j] in b;
      }
    }
  }

  /** `s` is in non-increasing order of `key`. */
  predicate SortedDesc<T>(s: seq<T>, key: T --> real)
    requires forall x <- s :: key.requires(x)
  {
    forall i, j :: 0 <= i <= j < |s| ==> key(s[j]) <= key(s[i])
  }

  /** Putting a head no smaller than every element in front of a sorted sequence keeps it sorted. */
  lemma SortedCons<T>(h: T, t: seq<T>, key: T --> real)
    requires key.requires(h) && forall y <- t :: key.requires(y)
    requires SortedDesc(t, key)
    requires forall y <- t :: key(y) <= key(h)
    ensures forall y <- [h] + t :: key.requires(y)
    ensures SortedDesc([h] + t, key)
  {
    var r := [h] + t;
    forall i, j | 0 <= i <= j < |r|
      ensures key(r[j]) <= key(r[i])
    {
      if i == 0 {
        assert r[j] == h || r[j] == t[j - 1];
      } else {
        assert r[i] == t[i - 1] && r[j] == t[j - 1];
      }
    }
  }

  /** Inserts `x` before the first element whose key does not exceed its own. */
  function Insert<T(==)>(x: T, s: seq<T>, key: T --> real): (r: seq<T>)
    requires key.requires(x) && forall y <- s :: key.requires(y)
    requires SortedDesc(s, key)
    ensures multiset(r) == multiset(s) + multiset{x}
    ensures forall y <- r :: key.requires(y)
    ensures SortedDesc(r, key)
  {
    if s == [] || key(s[0]) <= key(x) then
      SortedCons(x, s, key);
      [x] + s
    else
      var rest := Insert(x, s[1..], key);
      assert s == [s[0]] + s[1..];
      InsertBelowHead(x, s, key, rest);
      SortedCons(s[0], rest, key);
      [s[0]] + rest
  }

  lemma InsertBelowHead<T>(x: T, s: seq<T>, key: T --> real, rest: seq<T>)
    requires |s| > 0 && key.requires(x) && forall y <- s :: key.requires(y)
    requires SortedDesc(s, key) && key(x) < key(s[0])
    requires multiset(rest) == multiset(s[1..]) + multiset{x}
    ensures forall y <- rest :: key.requires(y) && key(y) <= key(s[0])
  {
    forall y <- rest
      ensures key.requires(y) && key(y) <= key(s[0])
    {
      assert y in multiset(rest);
      if y != x {
        assert y in multiset(s[1..]);
        assert y in s[1..];
      }
    }
  }

  /**
   * Stable descending sort by `key`: a permutation of `s` in non-increasing
   * key order, equal keys keeping their original relative order.
   */
  function SortDesc<T(==)>(s: seq<T>, key: T --> real): (r: seq<T>)
    requires forall x <- s :: key.requires(x)
    ensures multiset(r) == multiset(s)
    ensures |r| == |s|
    ensures forall y <- r :: key.requires(y)
    ensures SortedDesc(r, key)
  {
    if s == [] then []
    else
      assert s == [s[0]] + s[1..];
      Insert(s[0], SortDesc(s[1..], key), key)
  }

  /**
   * The first `k` elements of a descending sequence dominate the rest: any
   * element left out has a key no greater than the last one kept.
   */
  lemma TopDominates<T>(s: seq<T>, key: T --> real, k: nat, x: T)
    requires forall y <- s :: key.requires(y)
    requires SortedDesc(s, key)
    requires 0 < k && x in s
    ensures x in s[..Min(k, |s|)] || key(x) <= key(s[Min(k, |s|) - 1])
  {
    var i :| 0 <= i < |s| && s[i] == x;
    if i < Min(k, |s|) {
      assert s[..Min(k, |s|)][i] == x;
    }
  }

  /**
   * The `k` best elements by `key`, best first (`sorted(..., reverse=True)[:k]`):
   * every element left out scores no more than the last one kept, and fewer
   * than `k` come back only when nothing was left out.
   */
  function TopK<T(==)>(s: seq<T>, key: T --> real, k: nat): (r: seq<T>)
    requires forall x <- s :: key.requires(x)
    requires k > 0
    ensures |r| == Min(k, |s|)
    ensures multiset(r) <= multiset(s)
    ensures forall x <- r :: x in s
    ensures SortedDesc(r, key)
    ensures forall x <- s :: x in r || (|r| > 0 && key(x) <= key(r[|r| - 1]))
    ensures |r| < k ==> multiset(r) == multiset(s)
    ensures |r| < k ==> forall x <- s :: x in r
  {
    var ranked := SortDesc(s, key);
    TopOfRanking(s, ranked, key, k);
    ranked[..Min(k, |ranked|)]
  }

  /** What the cut of a ranking of `s` keeps and what it leaves out. */
  lemma TopOfRanking<T>(s: seq<T>, ranked: seq<T>, key: T --> real, k: nat)
    requires forall x <- s :: key.requires(x)
    requires forall x <- ranked :: key.requires(x)
    requires multiset(ranked) == multiset(s) && |ranked| == |s| && SortedDesc(ranked, key) && k > 0
    ensures var r := ranked[..Min(k, |ranked|)];
      && |r| == Min(k, |s|)
      && multiset(r) <= multiset(s)
      && (forall x <- r :: x in s)
      && SortedDesc(r, key)
      && (forall x <- s :: x in r || (|r| > 0 && key(x) <= key(r[|r| - 1])))
      && (|r| < k ==> multiset(r) == multiset(s))
      && (|r| < k ==> forall x <- s :: x in r)
  {
    var r := ranked[..Min(k, |ranked|)];
    PrefixOfSorted(ranked, key, |r|);
    PrefixDominates(s, ranked, key, k);
    PermutationMembers(s, ranked, |r|);
  }

  /**
   * Domination copy by copy: when the cut keeps fewer copies of an element
   * than the input holds, that element scores no more than the last one kept.
   * So of two equal best elements both are kept before anything worse.
   */
  lemma TopKCopies<T>(s: seq<T>, key: T --> real, k: nat)
    requires forall x <- s :: key.requires(x)
    requires k > 0
    ensures var r := TopK(s, key, k);
      forall x <- s :: multiset(r)[x] < multiset(s)[x] ==> |r| > 0 && key(x) <= key(r[|r| - 1])
  {
    PrefixDominatesCopies(s, SortDesc(s, key), key, k);
  }

  lemma PrefixOfSorted<T>(s: seq<T>, key: T --> real, n: nat)
    requires forall x <- s :: key.requires(x)
    requires SortedDesc(s, key) && n <= |s|
    ensures multiset(s[..n]) <= multiset(s)
    ensures n == |s| ==> multiset(s[..n]) == multiset(s)
    ensures SortedDesc(s[..n], key)
    ensures forall x <- s[..n] :: x in s
  {
    PrefixMultiset(s, n);
    var p := s[..n];
    forall i, j | 0 <= i <= j < |p|
      ensures key(p[j]) <= key(p[i])
    {
      assert p[i] == s[i] && p[j] == s[j];
    }
  }

  /** Members of a prefix of a permutation of `s` are members of `s`; a full prefix has them all. */
  lemma PermutationMembers<T>(s: seq<T>, ranked: seq<T>, n: nat)
    requires multiset(ranked) == multiset(s) && n <= |ranked|
    ensures forall x <- ranked[..n] :: x in s
    ensures n == |ranked| ==> forall x <- s :: x in ranked[..n]
  {
    assert ranked[..|ranked|] == ranked;
    forall x <- ranked[..n]
      ensures x in s
    {
      assert x in multiset(ranked);
    }
    if n == |ranked| {
      forall x <- s
        ensures x in ranked[..n]
      {
        assert x in multiset(ranked);
      }
    }
  }

  lemma PrefixMultiset<T>(s: seq<T>, n: nat)
    requires n <= |s|
    ensures multiset(s[..n]) <= multiset(s)
    ensures n == |s| ==> multiset(s[..n]) == multiset(s)
    ensures forall x <- s[..n] :: x in s
  {
    assert s == s[..n] + s[n..];
  }

  lemma PrefixDominates<T>(s: seq<T>, ranked: seq<T>, key: T --> real, k: nat)
    requires forall x <- s :: key.requires(x)
    requires forall x <- ranked :: key.requires(x)
    requires multiset(ranked) == multiset(s) && SortedDesc(ranked, key) && k > 0
    ensures var r := ranked[..Min(k, |ranked|)];
      forall x <- s :: x in r || (|r| > 0 && key(x) <= key(r[|r| - 1]))
  {
    var r := ranked[..Min(k, |ranked|)];
    forall x <- s
      ensures x in r || (|r| > 0 && key(x) <= key(r[|r| - 1]))
    {
      assert x in multiset(ranked);
      TopDominates(ranked, key, k, x);
    }
  }

  /** Every copy left out of the prefix scores no more than the last one kept. */
  lemma PrefixDominatesCopies<T>(s: seq<T>, ranked: seq<T>, key: T --> real, k: nat)
    requires forall x <- s :: key.requires(x)
    requires forall x <- ranked :: key.requires(x)
    requires multiset(ranked) == multiset(s) && SortedDesc(ranked, key) && k > 0
    ensures var r := ranked[..Min(k, |ranked|)];
      forall x <- s :: multiset(r)[x] < multiset(s)[x] ==> |r| > 0 && key(x) <= key(r[|r| - 1])
  {
    var n := Min(k, |ranked|);
    var r := ranked[..n];
    assert ranked == r + ranked[n..];
    assert multiset(ranked) == multiset(r) + multiset(ranked[n..]);
    forall x | x in s && multiset(r)[x] < multiset(s)[x]
      ensures |r| > 0 && key(x) <= key(r[|r| - 1])
    {
      assert x in multiset(ranked[n..]);
      var i :| n <= i < |ranked| && ranked[i] == x;
      assert r[n - 1] == ranked[n - 1];
    }
  }
}
