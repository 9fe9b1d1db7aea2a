/** Sequence helpers shared by both simplifiers: filtering, keys of
    key/value lists, and the subsequence order. */
module Seqs {

  /** The elements of `s` that satisfy `p`, in their original order. */
  function Filter<T>(s: seq<T>, p: T -> bool): (r: seq<T>)
    ensures |r| <= |s|
    ensures forall x | x in r :: x in s && p(x)
    ensures forall x | x in s && p(x) :: x in r
  {
    if s == [] then [] else (if p(s[0]) then [s[0]] else []) + Filter(s[1..], p)
  }

  /** Filtering distributes over concatenation, which is what "kept in the
      original order" means. */
  lemma {:induction false} FilterAppend<T>(s: seq<T>, t: seq<T>, p: T -> bool)
    ensures Filter(s + t, p) == Filter(s, p) + Filter(t, p)
  {
    if s == [] {
      assert s + t == t;
    } else {
      assert (s + t)[1..] == s[1..] + t;
      FilterAppend(s[1..], t, p);
    }
  }

  /** Filtering keeps everything when every element passes. */
  lemma {:induction false} FilterKeepsAll<T>(s: seq<T>, p: T -> bool)
    requires forall x | x in s :: p(x)
    ensures Filter(s, p) == s
  {
    if s != [] {
      FilterKeepsAll(s[1..], p);
    }
  }

  /** How many elements of `s` satisfy `p`. */
  function Count<T>(s: seq<T>, p: T -> bool): (n: nat)
    ensures n <= |s|
  {
    if s == [] then 0 else (if p(s[0]) then 1 else 0) + Count(s[1..], p)
  }

  /** The keys of a key/value list, in order. */
  function Keys<V>(fs: seq<(string, V)>): seq<string>
  {
    seq(|fs|, i requires 0 <= i < |fs| => fs[i].0)
  }

  predicate DistinctKeys<V>(fs: seq<(string, V)>)
  {
    forall i, j | 0 <= i < j < |fs| :: fs[i].0 != fs[j].0
  }

  /** `a` can be obtained from `b` by deleting elements. */
  predicate IsSubseq<T(==)>(a: seq<T>, b: seq<T>)
    decreases |b|
  {
    a == [] || (b != [] && ((a[0] == b[0] && IsSubseq(a[1..], b[1..])) || IsSubseq(a, b[1..])))
  }

  /** Filtering a key/value list keeps a subsequence of its keys. */
  lemma {:induction false} FilterKeysSubseq<V>(fs: seq<(string, V)>, p: ((string, V)) -> bool)
    ensures IsSubseq(Keys(Filter(fs, p)), Keys(fs))
  {
    if fs != [] {
      FilterKeysSubseq(fs[1..], p);
      var rest := Filter(fs[1..], p);
      assert Keys(fs)[1..] == Keys(fs[1..]);
      if p(fs[0]) {
        assert Filter(fs, p) == [fs[0]] + rest;
        assert Keys([fs[0]] + rest)[1..] == Keys(rest);
      } else {
        assert Filter(fs, p) == rest;
      }
    }
  }

  /** `Filter` keeps a subsequence of `s`, one element for each element
      that passes. */
  lemma {:induction false} FilterIsSubseq<T>(s: seq<T>, p: T -> bool)
    ensures IsSubseq(Filter(s, p), s)
    ensures |Filter(s, p)| == Count(s, p)
  {
    if s != [] {
      FilterIsSubseq(s[1..], p);
      var rest := Filter(s[1..], p);
      if p(s[0]) {
        assert Filter(s, p) == [s[0]] + rest;
        assert ([s[0]] + rest)[1..] == rest;
      } else {
        assert Filter(s, p) == rest;
      }
    }
  }

  /** Every passing element of `s` is kept, and nothing is kept exactly
      when nothing passes. */
  lemma FilterEmpty<T>(s: seq<T>, p: T -> bool)
    ensures forall i | 0 <= i < |s| && p(s[i]) :: s[i] in Filter(s, p)
    ensures Filter(s, p) == [] <==> forall i | 0 <= i < |s| :: !p(s[i])
  {
    var r := Filter(s, p);
    forall i | 0 <= i < |s| && p(s[i])
      ensures s[i] in r
    {
      assert s[i] in s;
    }
    if r != [] {
      assert r[0] in s;
      var w :| 0 <= w < |s| && s[w] == r[0];
      assert p(s[w]);
    }
  }

  /** A subsequence made of passing elements has no more elements than
      pass. */
  lemma {:induction false} SubseqCount<T>(a: seq<T>, s: seq<T>, p: T -> bool)
    requires IsSubseq(a, s) && forall x | x in a :: p(x)
    ensures |a| <= Count(s, p)
    decreases |s|
  {
    if a != [] {
      if a[0] == s[0] && IsSubseq(a[1..], s[1..]) {
        assert a[0] in a;
        assert forall x | x in a[1..] :: x in a;
        SubseqCount(a[1..], s[1..], p);
      } else {
        SubseqCount(a, s[1..], p);
      }
    }
  }

  /** The characterization of `Filter`: the only subsequence of `s` made of
      passing elements that has as many elements as pass. */
  lemma {:induction false} FilterUnique<T>(a: seq<T>, s: seq<T>, p: T -> bool)
    requires IsSubseq(a, s) && (forall x | x in a :: p(x)) && |a| == Count(s, p)
    ensures a == Filter(s, p)
    decreases |s|
  {
    FilterIsSubseq(s, p);
    if s != [] && a != [] {
      if a[0] == s[0] && IsSubseq(a[1..], s[1..]) {
        assert a[0] in a;
        assert forall x | x in a[1..] :: x in a;
        FilterUnique(a[1..], s[1..], p);
        assert a == [a[0]] + a[1..];
      } else {
        SubseqCount(a, s[1..], p);
        FilterUnique(a, s[1..], p);
      }
    }
  }
}
