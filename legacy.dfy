/** The legacy simplifier of index.js: a depth bound and nothing else, no
    cycle detection, no options. Pure structural recursion; each
    `_.transform` accumulator is a filter over the simplified children. */
module Legacy {
  import opened Wrappers
  import opened Seqs
  import opened Values

  /** The default of `simplifyConfig(cfg, depth = 4)` (index.js:33). */
  const DefaultDepth: nat := 4

  /** `_simplifyLevel(subCfg, currentDepth, depth)` (index.js:37-74): at
      the cut everything is `undefined`; a RegExp becomes `{}`; an array
      comes back non-empty or not at all; kept children are truthy. */
  function SimplifyLevel(h: Heap, v: Value, cur: nat, depth: nat): (r: Out)
    requires Wf(h) && InHeap(h, v) && cur <= depth
    ensures cur == depth ==> r == OUndef
    ensures cur < depth && v.Regex? ==> r == OObj([])
    ensures r.OArr? ==> |r.items| > 0 && forall x | x in r.items :: OutTruthy(x)
    ensures r.OObj? ==> forall f | f in r.fields :: OutTruthy(f.1)
    decreases depth - cur, 0
  {
    if cur == depth then OUndef
    else
      match v
      case Func(_) => OUndef
      case Ref(id) =>
        var outs := Children(h, h[id], cur + 1, depth);
        (match h[id]
         case Arr(_) =>
           var kept := Filter(outs, OutTruthy);
           if kept != [] then OArr(kept) else OUndef
         case Obj(fields) =>
           OObj(Filter(Pair(fields, outs), (f: (string, Out)) => OutTruthy(f.1))))
      case Regex(_) =>
        // `_.isObject` holds of a RegExp and `_.transform` finds no
        // enumerable key on it, so the accumulator `{}` comes back
        OObj([])
      case _ => Scalar(v)
  }

  /** Every child of `c` simplified one level down, unfiltered. */
  function Children(h: Heap, c: Container, cur: nat, depth: nat): (outs: seq<Out>)
    requires Wf(h) && ContainerIn(h, c) && cur <= depth
    ensures |outs| == c.Size()
    decreases depth - cur, 1
  {
    seq(c.Size(), i requires 0 <= i < c.Size() => SimplifyLevel(h, c.Child(i), cur, depth))
  }

  /** `simplifyConfig(cfg, depth = 4)` (index.js:33-35); `None` is an
      omitted depth. The snapshot is no deeper than the depth. */
  function SimplifyConfig(h: Heap, cfg: Value, depth: Option<nat>): (r: Out)
    requires Wf(h) && InHeap(h, cfg)
    ensures depth == Some(0) ==> r == OUndef
    ensures HeightAtMost(r, if depth.Some? then depth.value else DefaultDepth)
  {
    var d := if depth.Some? then depth.value else DefaultDepth;
    Height(h, cfg, 0, d);
    SimplifyLevel(h, cfg, 0, d)
  }

  /** No output branch is deeper than the levels left: at `currentDepth ===
      depth` the result is `undefined`, so the recursion ends even on a
      cyclic configuration. */
  lemma {:induction false} Height(h: Heap, v: Value, cur: nat, depth: nat)
    requires Wf(h) && InHeap(h, v) && cur <= depth
    ensures HeightAtMost(SimplifyLevel(h, v, cur, depth), depth - cur)
    decreases depth - cur
  {
    if cur < depth && v.Ref? {
      var c := h[v.id];
      var outs := Children(h, c, cur + 1, depth);
      forall i | 0 <= i < |outs|
        ensures HeightAtMost(outs[i], depth - cur - 1)
      {
        Height(h, c.Child(i), cur + 1, depth);
      }
      if c.Obj? {
        var r := SimplifyLevel(h, v, cur, depth);
        forall f | f in r.fields
          ensures HeightAtMost(f.1, depth - cur - 1)
        {
          PairMember(c.fields, outs, f);
        }
      }
    }
  }

  /** Functions are always dropped, whatever their name and level. */
  lemma FunctionDropped(h: Heap, name: string, cur: nat, depth: nat)
    requires Wf(h) && cur <= depth
    ensures SimplifyLevel(h, Func(name), cur, depth) == OUndef
  {
  }

  /** Above the bound a scalar comes back unchanged, falsy ones included. */
  lemma ScalarUnchanged(h: Heap, v: Value, cur: nat, depth: nat)
    requires Wf(h) && IsScalar(v) && cur < depth
    ensures SimplifyLevel(h, v, cur, depth) == Scalar(v)
  {
  }

  /** An array keeps exactly the children whose simplified value is
      truthy, in their original order, and is `undefined` when none is left:
      its items are a subsequence of the simplified children, all truthy,
      and as many as the truthy children (which `Seqs.FilterUnique` shows
      pins them down). */
  lemma ArrayRule(h: Heap, id: nat, cur: nat, depth: nat)
    requires Wf(h) && id in h && h[id].Arr? && cur < depth
    ensures var r := SimplifyLevel(h, Ref(id), cur, depth);
      var outs := Children(h, h[id], cur + 1, depth);
      && (r == OUndef || (r.OArr? && 0 < |r.items| <= |h[id].items|))
      && (r == OUndef <==> forall i | 0 <= i < |outs| :: !OutTruthy(outs[i]))
      && (r.OArr? ==> IsSubseq(r.items, outs) && |r.items| == Count(outs, OutTruthy))
      && (r.OArr? ==> forall x | x in r.items :: OutTruthy(x))
      && (r.OArr? ==> forall i | 0 <= i < |outs| && OutTruthy(outs[i]) :: outs[i] in r.items)
  {
    KeptTruthy(Children(h, h[id], cur + 1, depth));
    assert SimplifyLevel(h, Ref(id), cur, depth)
      == if Filter(Children(h, h[id], cur + 1, depth), OutTruthy) != []
         then OArr(Filter(Children(h, h[id], cur + 1, depth), OutTruthy))
         else OUndef;
  }

  /** What `_.transform` with `if (value) result.push(value)` keeps of a
      list of simplified children. */
  lemma KeptTruthy(outs: seq<Out>)
    ensures var kept := Filter(outs, OutTruthy);
      && IsSubseq(kept, outs) && |kept| == Count(outs, OutTruthy)
      && (forall x | x in kept :: OutTruthy(x))
      && (kept == [] <==> forall i | 0 <= i < |outs| :: !OutTruthy(outs[i]))
      && (forall i | 0 <= i < |outs| && OutTruthy(outs[i]) :: outs[i] in kept)
  {
    var kept := Filter(outs, OutTruthy);
    FilterIsSubseq(outs, OutTruthy);
    forall i | 0 <= i < |outs| && OutTruthy(outs[i])
      ensures outs[i] in kept
    {
      assert outs[i] in outs;
    }
    if kept != [] {
      assert kept[0] in outs;
      var w :| 0 <= w < |outs| && outs[w] == kept[0];
      assert OutTruthy(outs[w]);
    }
  }

  /** An object keeps, under the same keys and in the same order, exactly
      the children whose simplified value is truthy, and is returned even
      when nothing is left. */
  lemma ObjectRule(h: Heap, id: nat, cur: nat, depth: nat)
    requires Wf(h) && id in h && h[id].Obj? && cur < depth
    ensures var r := SimplifyLevel(h, Ref(id), cur, depth);
      var fields := h[id].fields;
      var outs := Children(h, h[id], cur + 1, depth);
      && r.OObj?
      && IsSubseq(r.fields, Pair(fields, outs))
      && |r.fields| == Count(Pair(fields, outs), (f: (string, Out)) => OutTruthy(f.1))
      && IsSubseq(Keys(r.fields), Keys(fields))
      && (forall f | f in r.fields :: OutTruthy(f.1))
      && (forall i | 0 <= i < |fields| :: (fields[i].0, outs[i]) in r.fields <==> OutTruthy(outs[i]))
  {
    var fields := h[id].fields;
    var outs := Children(h, h[id], cur + 1, depth);
    var pairs := Pair(fields, outs);
    PairKeys(fields, outs);
    FilterKeysSubseq(pairs, (f: (string, Out)) => OutTruthy(f.1));
    FilterIsSubseq(pairs, (f: (string, Out)) => OutTruthy(f.1));
    forall i | 0 <= i < |fields|
      ensures (fields[i].0, outs[i]) in pairs
    {
      assert pairs[i] == (fields[i].0, outs[i]);
    }
  }

  /** An object one level above the cut keeps none of its children, all of
      them being `undefined`, and so comes back as `{}`. */
  lemma CutObjectEmpty(h: Heap, id: nat, cur: nat, depth: nat)
    requires Wf(h) && id in h && h[id].Obj? && cur + 1 == depth
    ensures SimplifyLevel(h, Ref(id), cur, depth) == OObj([])
  {
    var fields := h[id].fields;
    var outs := Children(h, h[id], depth, depth);
    var kept := Filter(Pair(fields, outs), (f: (string, Out)) => OutTruthy(f.1));
    forall i | 0 <= i < |outs|
      ensures !OutTruthy(outs[i])
    {
      assert outs[i] == SimplifyLevel(h, h[id].Child(i), depth, depth);
    }
    if kept != [] {
      assert kept[0] in kept;
      PairMember(fields, outs, kept[0]);
      assert false;
    }
  }

  /** The shape of every snapshot `SimplifyLevel` builds at level `cur`:
      `undefined` at the cut; above it no RegExp, no empty array, and every
      array item and object value truthy and of this shape one level down. */
  predicate Settled(o: Out, cur: nat, depth: nat)
    requires cur <= depth
    decreases depth - cur
  {
    if cur == depth then o == OUndef
    else
      match o
      case ORegex(_) => false
      case OArr(items) =>
        && items != []
        && forall i | 0 <= i < |items| :: OutTruthy(items[i]) && Settled(items[i], cur + 1, depth)
      case OObj(fields) =>
        forall i | 0 <= i < |fields| :: OutTruthy(fields[i].1) && Settled(fields[i].1, cur + 1, depth)
      case _ => true
  }

  /** Every snapshot is settled. */
  lemma {:induction false} SimplifiedSettled(h: Heap, v: Value, cur: nat, depth: nat)
    requires Wf(h) && InHeap(h, v) && cur <= depth
    ensures Settled(SimplifyLevel(h, v, cur, depth), cur, depth)
    decreases depth - cur
  {
    if cur < depth && v.Ref? {
      var c := h[v.id];
      var outs := Children(h, c, cur + 1, depth);
      forall i | 0 <= i < |outs|
        ensures Settled(outs[i], cur + 1, depth)
      {
        SimplifiedSettled(h, c.Child(i), cur + 1, depth);
      }
      match c
      case Arr(_) =>
        var kept := Filter(outs, OutTruthy);
        forall i | 0 <= i < |kept|
          ensures Settled(kept[i], cur + 1, depth)
        {
          assert kept[i] in outs;
        }
      case Obj(fields) =>
        var kept := Filter(Pair(fields, outs), (f: (string, Out)) => OutTruthy(f.1));
        forall i | 0 <= i < |kept|
          ensures Settled(kept[i].1, cur + 1, depth)
        {
          assert kept[i] in Pair(fields, outs);
        }
    }
  }

  /** A configuration written like a settled snapshot simplifies to that
      snapshot. */
  lemma {:induction false} SettledUnchanged(h: Heap, v: Value, o: Out, cur: nat, depth: nat)
    requires Wf(h) && InHeap(h, v) && cur <= depth && Denotes(h, v, o) && Settled(o, cur, depth)
    ensures SimplifyLevel(h, v, cur, depth) == o
    decreases o, 1
  {
    if cur < depth {
      match o
      case OArr(items) => SettledArrayUnchanged(h, v.id, items, cur, depth);
      case OObj(fields) => SettledObjectUnchanged(h, v.id, fields, cur, depth);
      case _ =>
    }
  }

  lemma {:induction false} SettledArrayUnchanged(h: Heap, id: nat, items: seq<Out>, cur: nat, depth: nat)
    requires Wf(h) && id in h && cur < depth
    requires Denotes(h, Ref(id), OArr(items)) && Settled(OArr(items), cur, depth)
    ensures SimplifyLevel(h, Ref(id), cur, depth) == OArr(items)
    decreases OArr(items), 0
  {
    var c := h[id];
    var outs := Children(h, c, cur + 1, depth);
    forall i | 0 <= i < |items|
      ensures outs[i] == items[i]
    {
      assert c.Child(i) == c.items[i];
      SettledUnchanged(h, c.items[i], items[i], cur + 1, depth);
    }
    assert outs == items;
    FilterKeepsAll(items, OutTruthy);
  }

  lemma {:induction false} SettledObjectUnchanged(h: Heap, id: nat, fields: seq<(string, Out)>, cur: nat, depth: nat)
    requires Wf(h) && id in h && cur < depth
    requires Denotes(h, Ref(id), OObj(fields)) && Settled(OObj(fields), cur, depth)
    ensures SimplifyLevel(h, Ref(id), cur, depth) == OObj(fields)
    decreases OObj(fields), 0
  {
    var c := h[id];
    var outs := Children(h, c, cur + 1, depth);
    forall i | 0 <= i < |fields|
      ensures outs[i] == fields[i].1
    {
      assert c.Child(i) == c.fields[i].1;
      SettledUnchanged(h, c.fields[i].1, fields[i].1, cur + 1, depth);
    }
    assert Pair(c.fields, outs) == fields;
    FilterKeepsAll(fields, (f: (string, Out)) => OutTruthy(f.1));
  }

  /** Idempotence: simplifying again, with the same depth, any
      configuration written like a snapshot gives that snapshot back. */
  lemma Idempotent(h: Heap, cfg: Value, depth: Option<nat>, h2: Heap, cfg2: Value)
    requires Wf(h) && InHeap(h, cfg) && Wf(h2) && InHeap(h2, cfg2)
    requires Denotes(h2, cfg2, SimplifyConfig(h, cfg, depth))
    ensures SimplifyConfig(h2, cfg2, depth) == SimplifyConfig(h, cfg, depth)
  {
    var d := if depth.Some? then depth.value else DefaultDepth;
    SimplifiedSettled(h, cfg, 0, d);
    SettledUnchanged(h2, cfg2, SimplifyConfig(h, cfg, depth), 0, d);
  }
}
