/** What the main simplifier promises, proved about `Simplify.Level`. */
module SimplifyProps {
  import opened Wrappers
  import opened Seqs
  import opened Values
  import opened Labels
  import opened Simplify

  // ---------------------------------------------------------------------
  // Dispatch rules (src/index.ts:120-129, 166-168, 205)

  /** At the depth bound every value, whatever its kind, becomes `null`. */
  lemma DepthCut(o: Options, h: Heap, v: Value, cur: nat, path: Path, t: Table)
    requires Wf(h) && InHeap(h, v) && o.depth == Some(cur)
    ensures Level(o, h, v, cur, path, t) == (ONull, t)
  {
  }

  /** A function becomes `<<Function 'name'>>` when names are shown, and
      `null` otherwise; it is never looked into. */
  lemma FunctionRule(o: Options, h: Heap, name: string, cur: nat, path: Path, t: Table)
    requires Wf(h) && Fits(o, cur) && o.depth != Some(cur)
    ensures Level(o, h, Func(name), cur, path, t)
      == (if o.showFunctionNames then OStr("<<Function '" + name + "'>>") else ONull, t)
  {
  }

  /** A RegExp is passed through unchanged, even when falsy values are dropped. */
  lemma RegexRule(o: Options, h: Heap, source: string, cur: nat, path: Path, t: Table)
    requires Wf(h) && Fits(o, cur) && o.depth != Some(cur)
    ensures Level(o, h, Regex(source), cur, path, t) == (ORegex(source), t)
  {
  }

  /** A scalar is kept as it is when truthy or when falsy values are
      included, and becomes `null` otherwise. */
  lemma ScalarRule(o: Options, h: Heap, v: Value, cur: nat, path: Path, t: Table)
    requires Wf(h) && IsScalar(v) && Fits(o, cur) && o.depth != Some(cur)
    ensures Level(o, h, v, cur, path, t).1 == t
    ensures Truthy(v) || o.includeFalseValues ==> Level(o, h, v, cur, path, t).0 == Scalar(v)
    ensures !Truthy(v) && !o.includeFalseValues ==> Level(o, h, v, cur, path, t).0 == ONull
  {
  }

  // ---------------------------------------------------------------------
  // Bounded mode: a plain tree recursion, independent of the table

  /** The simplified value in bounded mode, defined without `references`
      and without paths. */
  function Tree(o: Options, h: Heap, v: Value, cur: nat): Out
    requires Wf(h) && InHeap(h, v) && o.depth.Some? && cur <= o.depth.value
    decreases o.depth.value - cur
  {
    if cur == o.depth.value then ONull
    else
      match v
      case Func(name) => if o.showFunctionNames then OStr(FunctionLabel(name)) else ONull
      case Ref(id) =>
        var outs := seq(h[id].Size(), i requires 0 <= i < h[id].Size() => Tree(o, h, h[id].Child(i), cur + 1));
        (match h[id]
         case Arr(_) =>
           var items := KeepItems(o, outs);
           if |items| > 0 || o.includeFalseValues then OArr(items) else ONull
         case Obj(fields) =>
           var kept := KeepFields(o, Pair(fields, outs));
           if |kept| > 0 || o.includeFalseValues then OObj(kept) else ONull)
      case Regex(source) => ORegex(source)
      case _ => if Truthy(v) || o.includeFalseValues then Scalar(v) else ONull
  }

  function Trees(o: Options, h: Heap, c: Container, cur: nat): (outs: seq<Out>)
    requires Wf(h) && ContainerIn(h, c) && o.depth.Some? && cur <= o.depth.value
    ensures |outs| == c.Size()
  {
    seq(c.Size(), i requires 0 <= i < c.Size() => Tree(o, h, c.Child(i), cur))
  }

  /** With a depth bound no lookup happens: the result does not depend on
      the table or on the path, only on the value and the level. */
  lemma {:induction false} BoundedLevelIsTree(o: Options, h: Heap, v: Value, cur: nat, path: Path, t: Table)
    requires Wf(h) && InHeap(h, v) && o.depth.Some? && cur <= o.depth.value
    ensures Level(o, h, v, cur, path, t).0 == Tree(o, h, v, cur)
    decreases o.depth.value - cur, 0, 0
  {
    if cur < o.depth.value && v.Ref? {
      var id := v.id;
      var t1 := t + [Entry(path, id, false)];
      BoundedRunIsTrees(o, h, h[id], 0, cur + 1, path, t1);
      assert Trees(o, h, h[id], cur + 1)
        == seq(h[id].Size(), i requires 0 <= i < h[id].Size() => Tree(o, h, h[id].Child(i), cur + 1));
    }
  }

  lemma {:induction false} BoundedRunIsTrees(o: Options, h: Heap, c: Container, from: nat, cur: nat, path: Path, t: Table)
    requires Wf(h) && ContainerIn(h, c) && from <= c.Size() && o.depth.Some? && cur <= o.depth.value
    ensures Run(o, h, c, from, cur, path, t).0 == Trees(o, h, c, cur)[from..]
    decreases o.depth.value - cur, 1, c.Size() - from
  {
    if from < c.Size() {
      var step := Level(o, h, c.Child(from), cur, path + [SegAt(c, from)], t);
      BoundedLevelIsTree(o, h, c.Child(from), cur, path + [SegAt(c, from)], t);
      BoundedRunIsTrees(o, h, c, from + 1, cur, path, step.1);
      assert Trees(o, h, c, cur)[from..] == [Trees(o, h, c, cur)[from]] + Trees(o, h, c, cur)[from + 1..];
    }
  }

  /** A container built from children of height at most `n` has height at
      most `n + 1`, whatever is filtered out. */
  lemma ContainerHeight(o: Options, c: Container, outs: seq<Out>, n: nat, r: Out)
    requires |outs| == c.Size() && forall i | 0 <= i < |outs| :: HeightAtMost(outs[i], n)
    requires c.Arr? ==> r == ONull || r == OArr(KeepItems(o, outs))
    requires c.Obj? ==> r == ONull || r == OObj(KeepFields(o, Pair(c.fields, outs)))
    ensures HeightAtMost(r, n + 1)
  {
    if c.Obj? && r.OObj? {
      forall f | f in r.fields
        ensures HeightAtMost(f.1, n)
      {
        PairMember(c.fields, outs, f);
      }
    }
  }

  /** A container above the cut, unfolded: its reference tree is made of
      its children's trees, filtered, or is `null`. */
  lemma TreeRef(o: Options, h: Heap, id: nat, cur: nat)
    requires Wf(h) && id in h && o.depth.Some? && cur < o.depth.value
    ensures var outs := Trees(o, h, h[id], cur + 1);
      var r := Tree(o, h, Ref(id), cur);
      && (h[id].Arr? ==> r == ONull || r == OArr(KeepItems(o, outs)))
      && (h[id].Obj? ==> r == ONull || r == OObj(KeepFields(o, Pair(h[id].fields, outs))))
  {
    var c := h[id];
    assert Trees(o, h, c, cur + 1) == seq(c.Size(), i requires 0 <= i < c.Size() => Tree(o, h, c.Child(i), cur + 1));
  }

  /** No branch of a bounded tree holds more containers than the levels left. */
  lemma {:induction false} TreeHeight(o: Options, h: Heap, v: Value, cur: nat)
    requires Wf(h) && InHeap(h, v) && o.depth.Some? && cur <= o.depth.value
    ensures HeightAtMost(Tree(o, h, v, cur), o.depth.value - cur)
    decreases o.depth.value - cur, 1
  {
    if cur < o.depth.value && v.Ref? {
      var n := o.depth.value - cur - 1;
      TreesHeight(o, h, v.id, cur);
      assert HeightAtMost(Tree(o, h, v, cur), n + 1) by {
        TreeRef(o, h, v.id, cur);
        ContainerHeight(o, h[v.id], Trees(o, h, h[v.id], cur + 1), n, Tree(o, h, v, cur));
      }
    }
  }

  /** The children of a container above the cut are one level shallower. */
  lemma {:induction false} TreesHeight(o: Options, h: Heap, id: nat, cur: nat)
    requires Wf(h) && id in h && o.depth.Some? && cur < o.depth.value
    ensures var outs := Trees(o, h, h[id], cur + 1);
      forall i | 0 <= i < |outs| :: HeightAtMost(outs[i], o.depth.value - cur - 1)
    decreases o.depth.value - cur, 0
  {
    var outs := Trees(o, h, h[id], cur + 1);
    forall i | 0 <= i < |outs|
      ensures HeightAtMost(outs[i], o.depth.value - cur - 1)
    {
      TreeHeight(o, h, h[id].Child(i), cur + 1);
    }
  }

  /** The depth cut: with a bound, no output branch is deeper than the
      levels left below the current one. */
  lemma BoundedHeight(o: Options, h: Heap, v: Value, cur: nat, path: Path, t: Table)
    requires Wf(h) && InHeap(h, v) && o.depth.Some? && cur <= o.depth.value
    ensures HeightAtMost(Level(o, h, v, cur, path, t).0, o.depth.value - cur)
  {
    BoundedLevelIsTree(o, h, v, cur, path, t);
    TreeHeight(o, h, v, cur);
  }

  // ---------------------------------------------------------------------
  // The references table

  predicate DistinctLinks(t: Table)
  {
    forall i, j | 0 <= i < j < |t| :: t[i].link != t[j].link
  }

  /** In unbounded mode a container is registered at most once: a second
      encounter finds the first entry and adds none. */
  lemma {:induction false} RegisteredOnce(o: Options, h: Heap, v: Value, cur: nat, path: Path, t: Table)
    requires Wf(h) && InHeap(h, v) && o.depth.None? && DistinctLinks(t)
    ensures DistinctLinks(Level(o, h, v, cur, path, t).1)
    decreases Unregistered(o, h, t), 0, 0, 0
  {
    if v.Ref? && GetRef(t, v.id).None? {
      var id := v.id;
      var t1 := t + [Entry(path, id, false)];
      assert DistinctLinks(t1) by {
        assert forall k | 0 <= k < |t| :: t[k] in t;
      }
      var run := Run(o, h, h[id], 0, cur + 1, path, t1);
      assert DistinctLinks(run.1) by {
        UnregisteredShrinks(o, h, t, Entry(path, id, false));
        RunRegisteredOnce(o, h, id, 0, cur + 1, path, t1);
      }
      RegisterTable(o, h, id, cur, path, t);
    }
  }

  lemma {:induction false} RunRegisteredOnce(o: Options, h: Heap, id: nat, from: nat, cur: nat, path: Path, t: Table)
    requires Wf(h) && id in h && from <= h[id].Size() && o.depth.None? && DistinctLinks(t)
    ensures DistinctLinks(Run(o, h, h[id], from, cur, path, t).1)
    decreases Unregistered(o, h, t), 0, 1, h[id].Size() - from, 1
  {
    var c := h[id];
    if from < c.Size() {
      var step := Level(o, h, c.Child(from), cur, path + [SegAt(c, from)], t);
      assert DistinctLinks(step.1) && Unregistered(o, h, step.1) <= Unregistered(o, h, t) by {
        ChildRegisteredOnce(o, h, id, from, cur, path, t);
      }
      assert DistinctLinks(Run(o, h, c, from + 1, cur, path, step.1).1) by {
        RunRegisteredOnce(o, h, id, from + 1, cur, path, step.1);
      }
      assert Run(o, h, c, from, cur, path, t).1 == Run(o, h, c, from + 1, cur, path, step.1).1 by {
        RunStep(o, h, c, from, cur, path, t);
      }
    }
  }

  /** The child at `from` keeps the links distinct and does not grow the
      set of containers still to register. */
  lemma {:induction false} ChildRegisteredOnce(o: Options, h: Heap, id: nat, from: nat, cur: nat, path: Path, t: Table)
    requires Wf(h) && id in h && from < h[id].Size() && o.depth.None? && DistinctLinks(t)
    ensures var t' := Level(o, h, h[id].Child(from), cur, path + [SegAt(h[id], from)], t).1;
      DistinctLinks(t') && Unregistered(o, h, t') <= Unregistered(o, h, t)
    decreases Unregistered(o, h, t), 0, 1, h[id].Size() - from, 0
  {
    var c := h[id];
    var t' := Level(o, h, c.Child(from), cur, path + [SegAt(c, from)], t).1;
    RegisteredOnce(o, h, c.Child(from), cur, path + [SegAt(c, from)], t);
    UnregisteredMono(o, h, t, t');
  }

  predicate DistinctPaths(t: Table)
  {
    forall i, j | 0 <= i < j < |t| :: t[i].path != t[j].path
  }

  /** No entry is registered at `path` or below it. */
  predicate FreshPath(t: Table, path: Path)
  {
    forall k | 0 <= k < |t| :: !(path <= t[k].path)
  }

  /** The steps to the children of a container are pairwise different. */
  lemma SegsDistinct(h: Heap, id: nat, i: nat, j: nat)
    requires Wf(h) && id in h && i < j < h[id].Size()
    ensures SegAt(h[id], i) != SegAt(h[id], j)
  {
  }

  /** Every path is registered at most once, and all the entries one call
      adds lie at or below its own path; so `references[path] = newRef`
      never overwrites an entry, and the table behaves as the insertion-
      ordered record of the source. */
  lemma {:induction false} PathsUnique(o: Options, h: Heap, v: Value, cur: nat, path: Path, t: Table)
    requires Wf(h) && InHeap(h, v) && Fits(o, cur) && DistinctPaths(t) && FreshPath(t, path)
    ensures var t' := Level(o, h, v, cur, path, t).1;
      DistinctPaths(t') && forall k | |t| <= k < |t'| :: path <= t'[k].path
    decreases Unregistered(o, h, t), DepthLeft(o, cur), 0, 1
  {
    if o.depth.Some? && cur == o.depth.value {
    } else if v.Ref? && (o.depth.Some? || GetRef(t, v.id).None?) {
      RegisterPathsUnique(o, h, v.id, cur, path, t);
    }
  }

  /** The registering case of `PathsUnique`: the new entry sits at `path`,
      the children's entries strictly below it. */
  lemma {:induction false} RegisterPathsUnique(o: Options, h: Heap, id: nat, cur: nat, path: Path, t: Table)
    requires Wf(h) && id in h && Fits(o, cur) && DistinctPaths(t) && FreshPath(t, path)
    requires o.depth != Some(cur) && (o.depth.Some? || GetRef(t, id).None?)
    ensures var t' := Level(o, h, Ref(id), cur, path, t).1;
      DistinctPaths(t') && forall k | |t| <= k < |t'| :: path <= t'[k].path
    decreases Unregistered(o, h, t), DepthLeft(o, cur), 0, 0
  {
    var t1 := t + [Entry(path, id, false)];
    UnregisteredShrinks(o, h, t, Entry(path, id, false));
    FreshChildren(h, id, path, t);
    RunPathsUnique(o, h, id, 0, cur + 1, path, t1);
    RegisteredPaths(o, h, id, cur, path, t);
  }

  /** Once the children's run keeps the paths distinct and below `path`,
      so does the registering call that wraps it. */
  lemma RegisteredPaths(o: Options, h: Heap, id: nat, cur: nat, path: Path, t: Table)
    requires Wf(h) && id in h && Fits(o, cur) && o.depth != Some(cur)
    requires o.depth.None? ==> id !in Linked(t)
    requires var run := Run(o, h, h[id], 0, cur + 1, path, t + [Entry(path, id, false)]).1;
      DistinctPaths(run) && forall k | |t| + 1 <= k < |run| :: path < run[k].path
    ensures var t' := Level(o, h, Ref(id), cur, path, t).1;
      DistinctPaths(t') && forall k | |t| <= k < |t'| :: path <= t'[k].path
  {
    RegisterTable(o, h, id, cur, path, t);
    var t' := Level(o, h, Ref(id), cur, path, t).1;
    MarkedPaths(t, Run(o, h, h[id], 0, cur + 1, path, t + [Entry(path, id, false)]).1, path, id, t'[|t|].empty);
  }

  /** Setting the `empty` flag of the entry at `path` changes no path. */
  lemma MarkedPaths(t: Table, run: Table, path: Path, id: nat, empty: bool)
    requires |t| < |run| && run[|t|] == Entry(path, id, false) && DistinctPaths(run)
    requires forall k | |t| + 1 <= k < |run| :: path < run[k].path
    ensures var t' := run[|t| := Entry(path, id, empty)];
      DistinctPaths(t') && forall k | |t| <= k < |t'| :: path <= t'[k].path
  {
    var t' := run[|t| := Entry(path, id, empty)];
    forall i, j | 0 <= i < j < |t'|
      ensures t'[i].path != t'[j].path
    {
      assert run[i].path != run[j].path;
    }
  }

  lemma FreshChildren(h: Heap, id: nat, path: Path, t: Table)
    requires id in h && DistinctPaths(t) && FreshPath(t, path)
    ensures DistinctPaths(t + [Entry(path, id, false)])
    ensures forall k, j | 0 <= k < |t| + 1 && 0 <= j < h[id].Size()
      :: !(path + [SegAt(h[id], j)] <= (t + [Entry(path, id, false)])[k].path)
  {
    var t1 := t + [Entry(path, id, false)];
    forall k, j | 0 <= k < |t1| && 0 <= j < h[id].Size()
      ensures !(path + [SegAt(h[id], j)] <= t1[k].path)
    {
      if k < |t| {
        assert !(path <= t[k].path);
      }
    }
  }

  lemma {:induction false} RunPathsUnique(o: Options, h: Heap, id: nat, from: nat, cur: nat, path: Path, t: Table)
    requires Wf(h) && id in h && from <= h[id].Size() && Fits(o, cur) && DistinctPaths(t)
    requires forall k, j | 0 <= k < |t| && from <= j < h[id].Size() :: !(path + [SegAt(h[id], j)] <= t[k].path)
    ensures var t' := Run(o, h, h[id], from, cur, path, t).1;
      && DistinctPaths(t')
      && (forall k | |t| <= k < |t'| :: path < t'[k].path)
      && (forall k, j | |t| <= k < |t'| && 0 <= j < from :: t'[k].path[|path|] != SegAt(h[id], j))
    decreases Unregistered(o, h, t), DepthLeft(o, cur), 1, h[id].Size() - from, 1
  {
    var c := h[id];
    if from < c.Size() {
      var step := Level(o, h, c.Child(from), cur, path + [SegAt(c, from)], t);
      ChildPathsUnique(o, h, id, from, cur, path, t);
      RunPathsUnique(o, h, id, from + 1, cur, path, step.1);
      assert Run(o, h, c, from, cur, path, t).1 == Run(o, h, c, from + 1, cur, path, step.1).1 by {
        RunStep(o, h, c, from, cur, path, t);
      }
      SiblingsDiffer(h, id, from, path, t, step.1, Run(o, h, c, from, cur, path, t).1);
    }
  }

  /** The child at `from` keeps the paths distinct, registers only below its
      own step, and leaves the later siblings fresh. */
  lemma {:induction false} ChildPathsUnique(o: Options, h: Heap, id: nat, from: nat, cur: nat, path: Path, t: Table)
    requires Wf(h) && id in h && from < h[id].Size() && Fits(o, cur) && DistinctPaths(t)
    requires forall k, j | 0 <= k < |t| && from <= j < h[id].Size() :: !(path + [SegAt(h[id], j)] <= t[k].path)
    ensures var t1 := Level(o, h, h[id].Child(from), cur, path + [SegAt(h[id], from)], t).1;
      && DistinctPaths(t1) && Unregistered(o, h, t1) <= Unregistered(o, h, t)
      && (forall k | |t| <= k < |t1| :: path + [SegAt(h[id], from)] <= t1[k].path)
      && (forall k, j | 0 <= k < |t1| && from + 1 <= j < h[id].Size() :: !(path + [SegAt(h[id], j)] <= t1[k].path))
    decreases Unregistered(o, h, t), DepthLeft(o, cur), 1, h[id].Size() - from, 0
  {
    var c := h[id];
    var cp := path + [SegAt(c, from)];
    var t1 := Level(o, h, c.Child(from), cur, cp, t).1;
    PathsUnique(o, h, c.Child(from), cur, cp, t);
    UnregisteredMono(o, h, t, t1);
    SiblingsFresh(h, id, from, path, t, t1);
  }

  /** After the child at `from` is done, no entry lies below a later sibling. */
  lemma SiblingsFresh(h: Heap, id: nat, from: nat, path: Path, t: Table, t1: Table)
    requires Wf(h) && id in h && from < h[id].Size() && t <= t1
    requires forall k, j | 0 <= k < |t| && from <= j < h[id].Size() :: !(path + [SegAt(h[id], j)] <= t[k].path)
    requires forall k | |t| <= k < |t1| :: path + [SegAt(h[id], from)] <= t1[k].path
    ensures forall k, j | 0 <= k < |t1| && from + 1 <= j < h[id].Size() :: !(path + [SegAt(h[id], j)] <= t1[k].path)
  {
    forall k, j | 0 <= k < |t1| && from + 1 <= j < h[id].Size()
      ensures !(path + [SegAt(h[id], j)] <= t1[k].path)
    {
      if k < |t| {
        assert t1[k] == t[k];
      } else {
        SegsDistinct(h, id, from, j);
        assert t1[k].path[|path|] == SegAt(h[id], from);
      }
    }
  }

  /** Entries added below the child at `from` and below later siblings do
      not lie below an earlier sibling. */
  lemma SiblingsDiffer(h: Heap, id: nat, from: nat, path: Path, t: Table, t1: Table, t2: Table)
    requires Wf(h) && id in h && from < h[id].Size() && t <= t1 <= t2
    requires forall k | |t| <= k < |t1| :: path + [SegAt(h[id], from)] <= t1[k].path
    requires forall k | |t1| <= k < |t2| :: path < t2[k].path
    requires forall k, j | |t1| <= k < |t2| && 0 <= j < from + 1 :: t2[k].path[|path|] != SegAt(h[id], j)
    ensures forall k | |t| <= k < |t2| :: path < t2[k].path
    ensures forall k, j | |t| <= k < |t2| && 0 <= j < from :: t2[k].path[|path|] != SegAt(h[id], j)
  {
    forall k, j | |t| <= k < |t2| && 0 <= j < from
      ensures t2[k].path[|path|] != SegAt(h[id], j)
    {
      if k < |t1| {
        assert t2[k] == t1[k];
        SegsDistinct(h, id, j, from);
      }
    }
  }

  // ---------------------------------------------------------------------
  // Containers, the `empty` flag and back-references

  /** A container met for the first time (or any container, with a depth
      bound) is registered at `path`; after its children are simplified the
      entry's `empty` flag says whether none was kept. The container then
      becomes `null` exactly when it is empty and falsy values are dropped,
      that is, exactly when no child satisfies `value || includeFalseValues`
      and falsy values are dropped. Otherwise the result is the children's
      simplified values, in order, keeping exactly those that satisfy
      `value || includeFalseValues` (an object keeping each of them under
      its own key), and with `includeFalseValues` nothing is dropped. */
  lemma ContainerRule(o: Options, h: Heap, id: nat, cur: nat, path: Path, t: Table)
    requires Wf(h) && id in h && Fits(o, cur) && o.depth != Some(cur)
    requires o.depth.None? ==> id !in Linked(t)
    ensures |Level(o, h, Ref(id), cur, path, t).1| > |t|
    ensures var res := Level(o, h, Ref(id), cur, path, t);
      var e := res.1[|t|];
      && e.path == path && e.link == id
      && (e.empty <==> res.0 == ONull || res.0 == OArr([]) || res.0 == OObj([]))
      && (res.0 == ONull <==> e.empty && !o.includeFalseValues)
    ensures var outs := Run(o, h, h[id], 0, cur + 1, path, t + [Entry(path, id, false)]).0;
      var r := Level(o, h, Ref(id), cur, path, t).0;
      r == ONull <==> !o.includeFalseValues && forall i | 0 <= i < |outs| :: !Keep(o, outs[i])
    ensures var outs := Run(o, h, h[id], 0, cur + 1, path, t + [Entry(path, id, false)]).0;
      var r := Level(o, h, Ref(id), cur, path, t).0;
      h[id].Arr? ==>
        (r == ONull ||
         (&& r.OArr? && |r.items| <= |h[id].items| && IsSubseq(r.items, outs)
          && |r.items| == Count(outs, x => Keep(o, x))
          && (forall x | x in r.items :: Keep(o, x))
          && (forall i | 0 <= i < |outs| && Keep(o, outs[i]) :: outs[i] in r.items)))
    ensures var outs := Run(o, h, h[id], 0, cur + 1, path, t + [Entry(path, id, false)]).0;
      var r := Level(o, h, Ref(id), cur, path, t).0;
      h[id].Obj? ==>
        (r == ONull ||
         (&& r.OObj? && IsSubseq(r.fields, Pair(h[id].fields, outs))
          && |r.fields| == Count(Pair(h[id].fields, outs), (f: (string, Out)) => Keep(o, f.1))
          && IsSubseq(Keys(r.fields), Keys(h[id].fields))
          && (forall i | 0 <= i < |h[id].fields| :: (h[id].fields[i].0, outs[i]) in r.fields <==> Keep(o, outs[i]))))
    ensures var r := Level(o, h, Ref(id), cur, path, t).0;
      o.includeFalseValues ==>
        && (h[id].Arr? ==> r.OArr? && |r.items| == |h[id].items|)
        && (h[id].Obj? ==> r.OObj? && Keys(r.fields) == Keys(h[id].fields))
  {
    RegisterLevel(o, h, id, cur, path, t);
    if h[id].Arr? {
      KeptItems(o, Run(o, h, h[id], 0, cur + 1, path, t + [Entry(path, id, false)]).0);
    } else {
      KeptFields(o, h[id].fields, Run(o, h, h[id], 0, cur + 1, path, t + [Entry(path, id, false)]).0);
    }
  }

  /** In unbounded mode a container already in the table is not expanded
      again: the result names the FIRST entry linked to it, or is `null`
      when that entry is empty and falsy values are dropped, and the table
      is left as it was. */
  lemma BackReference(o: Options, h: Heap, id: nat, cur: nat, path: Path, t: Table)
    requires Wf(h) && id in h && o.depth.None? && id in Linked(t)
    ensures GetRef(t, id).Some?
    ensures var res := Level(o, h, Ref(id), cur, path, t);
      var k := GetRef(t, id).value;
      && res.1 == t
      && t[k].link == id && (forall j | 0 <= j < k :: t[j].link != id)
      && (res.0 == ONull <==> t[k].empty && !o.includeFalseValues)
      && (res.0 != ONull ==> res.0 == OStr(ReferenceLabel(PathString(t[k].path))))
  {
  }

  /** A cycle: while the children of a container registered at `path` are
      being simplified, meeting that container again (in unbounded mode)
      yields `<<Circular reference to 'path'>>`, because its entry is the
      first linked to it and is not yet marked empty. */
  lemma {:induction false} CycleBackToAncestor(o: Options, h: Heap, id: nat, path: Path, t: Table, t': Table, cur': nat, path': Path)
    requires Wf(h) && id in h && o.depth.None? && id !in Linked(t)
    requires t + [Entry(path, id, false)] <= t'
    ensures Level(o, h, Ref(id), cur', path', t')
      == (OStr(ReferenceLabel(PathString(path))), t')
  {
    var k := |t|;
    assert t'[k] == Entry(path, id, false);
    assert id in Linked(t') by { assert t'[k] in t'; }
    assert GetRef(t', id) == Some(k);
    BackReference(o, h, id, cur', path', t');
  }

  // ---------------------------------------------------------------------
  // A whole call of `simplifyConfig`

  /** `simplifyConfig` (src/index.ts:70-82) from an empty table: with a
      bound the snapshot is no deeper than the bound, every container is
      registered under its own path, and in unbounded mode no container is
      registered twice. */
  lemma WholeRun(o: Options, h: Heap, config: Value)
    requires Wf(h) && InHeap(h, config)
    ensures o.depth.Some? ==> HeightAtMost(Simplified(o, h, config), o.depth.value)
    ensures DistinctPaths(Level(o, h, config, 0, [], []).1)
    ensures o.depth.None? ==> DistinctLinks(Level(o, h, config, 0, [], []).1)
  {
    PathsUnique(o, h, config, 0, [], []);
    if o.depth.Some? {
      BoundedHeight(o, h, config, 0, [], []);
    } else {
      RegisteredOnce(o, h, config, 0, [], []);
    }
  }

  // ---------------------------------------------------------------------
  // Paths as the keys of the `references` record

  /** `w` leads from `v` through the heap: each step names a child of the
      container reached so far. */
  predicate Walk(h: Heap, v: Value, w: Path)
    decreases |w|
  {
    w == [] ||
    (v.Ref? && v.id in h &&
     exists i | 0 <= i < h[v.id].Size() :: SegAt(h[v.id], i) == w[0] && Walk(h, h[v.id].Child(i), w[1..]))
  }

  /** No key of any object in the heap holds a dot. */
  predicate Dotless(h: Heap)
  {
    forall id, k | id in h && h[id].Obj? && 0 <= k < |h[id].fields| :: '.' !in h[id].fields[k].0
  }

  /** Every entry from `lo` on lies at or below `path`, and the rest of its
      path walks the heap from `v`. */
  predicate WalksFrom(h: Heap, v: Value, path: Path, t: Table, lo: nat)
  {
    forall k | lo <= k < |t| :: path <= t[k].path && Walk(h, v, t[k].path[|path|..])
  }

  /** Two walks from one value with the same text are the same walk: at
      each step both name a child of one container, so both steps are of
      one kind, and the text then decides the step. */
  lemma {:induction false} WalksInjective(h: Heap, v: Value, p: Path, q: Path)
    requires Wf(h) && Dotless(h) && Walk(h, v, p) && Walk(h, v, q) && Rendered(p) == Rendered(q)
    ensures p == q
    decreases |p|
  {
    if p != [] && q != [] {
      var i := WalkHead(h, v, p, q);
      WalksInjective(h, h[v.id].Child(i), p[1..], q[1..]);
      assert p == [p[0]] + p[1..] && q == [q[0]] + q[1..];
    }
  }

  /** The first steps of two such walks agree, name one child, and leave
      rests that render the same. */
  lemma WalkHead(h: Heap, v: Value, p: Path, q: Path) returns (i: nat)
    requires Wf(h) && Dotless(h) && p != [] && q != []
    requires Walk(h, v, p) && Walk(h, v, q) && Rendered(p) == Rendered(q)
    ensures v.Ref? && v.id in h && i < h[v.id].Size() && p[0] == q[0]
    ensures Walk(h, h[v.id].Child(i), p[1..]) && Walk(h, h[v.id].Child(i), q[1..])
    ensures Rendered(p[1..]) == Rendered(q[1..])
  {
    var c := h[v.id];
    var i' :| 0 <= i' < c.Size() && SegAt(c, i') == p[0] && Walk(h, c.Child(i'), p[1..]);
    var j :| 0 <= j < c.Size() && SegAt(c, j) == q[0] && Walk(h, c.Child(j), q[1..]);
    assert p[0] == q[0] && Rendered(p[1..]) == Rendered(q[1..]) by {
      StepsAlike(h, v.id, i', j);
      SegTextDecode(p[0], q[0], Rendered(p[1..]), Rendered(q[1..]));
    }
    SameStep(h, v.id, i', j);
    i := i';
  }

  /** Two steps out of one container are of one kind, and keys hold no dot. */
  lemma StepsAlike(h: Heap, id: nat, i: nat, j: nat)
    requires Wf(h) && Dotless(h) && id in h && i < h[id].Size() && j < h[id].Size()
    ensures var a, b := SegAt(h[id], i), SegAt(h[id], j);
      a.Key? == b.Key? && (a.Key? ==> '.' !in a.key && '.' !in b.key)
  {
  }

  /** A step names one child only. */
  lemma SameStep(h: Heap, id: nat, i: nat, j: nat)
    requires Wf(h) && id in h && i < h[id].Size() && j < h[id].Size() && SegAt(h[id], i) == SegAt(h[id], j)
    ensures i == j
  {
    if i < j {
      SegsDistinct(h, id, i, j);
    } else if j < i {
      SegsDistinct(h, id, j, i);
    }
  }

  /** Entries below the child at `from` walk from the container itself. */
  lemma StepWalks(h: Heap, id: nat, from: nat, path: Path, t: Table, lo: nat)
    requires Wf(h) && id in h && from < h[id].Size()
    requires WalksFrom(h, h[id].Child(from), path + [SegAt(h[id], from)], t, lo)
    ensures WalksFrom(h, Ref(id), path, t, lo)
  {
    var cp := path + [SegAt(h[id], from)];
    forall k | lo <= k < |t|
      ensures path <= t[k].path && Walk(h, Ref(id), t[k].path[|path|..])
    {
      var p := t[k].path;
      assert p[|path|..][0] == SegAt(h[id], from);
      assert p[|path|..][1..] == p[|cp|..];
    }
  }

  lemma WalksJoin(h: Heap, v: Value, path: Path, t1: Table, t2: Table, lo: nat)
    requires t1 <= t2 && lo <= |t1| && WalksFrom(h, v, path, t1, lo) && WalksFrom(h, v, path, t2, |t1|)
    ensures WalksFrom(h, v, path, t2, lo)
  {
    forall k | lo <= k < |t1|
      ensures path <= t2[k].path && Walk(h, v, t2[k].path[|path|..])
    {
      assert t2[k] == t1[k];
    }
  }

  /** Every entry one call adds lies at or below its path, and the rest of
      that entry's path leads from the value through the heap. */
  lemma {:induction false} LevelWalks(o: Options, h: Heap, v: Value, cur: nat, path: Path, t: Table)
    requires Wf(h) && InHeap(h, v) && Fits(o, cur)
    ensures WalksFrom(h, v, path, Level(o, h, v, cur, path, t).1, |t|)
    decreases Unregistered(o, h, t), DepthLeft(o, cur), 0, 1
  {
    if o.depth.Some? && cur == o.depth.value {
    } else if v.Ref? && (o.depth.Some? || GetRef(t, v.id).None?) {
      RegisterWalks(o, h, v.id, cur, path, t);
    }
  }

  lemma {:induction false} RegisterWalks(o: Options, h: Heap, id: nat, cur: nat, path: Path, t: Table)
    requires Wf(h) && id in h && Fits(o, cur)
    requires o.depth != Some(cur) && (o.depth.Some? || GetRef(t, id).None?)
    ensures WalksFrom(h, Ref(id), path, Level(o, h, Ref(id), cur, path, t).1, |t|)
    decreases Unregistered(o, h, t), DepthLeft(o, cur), 0, 0
  {
    UnregisteredShrinks(o, h, t, Entry(path, id, false));
    RunWalks(o, h, id, 0, cur + 1, path, t + [Entry(path, id, false)]);
    RegisteredWalks(o, h, id, cur, path, t);
  }

  /** The registering call: its own entry sits at `path` (the empty walk),
      the children's entries below it. */
  lemma RegisteredWalks(o: Options, h: Heap, id: nat, cur: nat, path: Path, t: Table)
    requires Wf(h) && id in h && Fits(o, cur) && o.depth != Some(cur)
    requires o.depth.None? ==> id !in Linked(t)
    requires WalksFrom(h, Ref(id), path, Run(o, h, h[id], 0, cur + 1, path, t + [Entry(path, id, false)]).1, |t| + 1)
    ensures WalksFrom(h, Ref(id), path, Level(o, h, Ref(id), cur, path, t).1, |t|)
  {
    RegisterTable(o, h, id, cur, path, t);
    var run := Run(o, h, h[id], 0, cur + 1, path, t + [Entry(path, id, false)]).1;
    var t' := Level(o, h, Ref(id), cur, path, t).1;
    forall k | |t| <= k < |t'|
      ensures path <= t'[k].path && Walk(h, Ref(id), t'[k].path[|path|..])
    {
      if k == |t| {
        assert t'[k].path[|path|..] == [];
      } else {
        assert t'[k] == run[k];
      }
    }
  }

  lemma {:induction false} RunWalks(o: Options, h: Heap, id: nat, from: nat, cur: nat, path: Path, t: Table)
    requires Wf(h) && id in h && from <= h[id].Size() && Fits(o, cur)
    ensures WalksFrom(h, Ref(id), path, Run(o, h, h[id], from, cur, path, t).1, |t|)
    decreases Unregistered(o, h, t), DepthLeft(o, cur), 1, h[id].Size() - from, 1
  {
    var c := h[id];
    if from < c.Size() {
      var step := Level(o, h, c.Child(from), cur, path + [SegAt(c, from)], t);
      assert WalksFrom(h, Ref(id), path, step.1, |t|) && Unregistered(o, h, step.1) <= Unregistered(o, h, t) by {
        ChildWalks(o, h, id, from, cur, path, t);
      }
      var rest := Run(o, h, c, from + 1, cur, path, step.1).1;
      assert WalksFrom(h, Ref(id), path, rest, |step.1|) by {
        RunWalks(o, h, id, from + 1, cur, path, step.1);
      }
      assert Run(o, h, c, from, cur, path, t).1 == rest by {
        RunStep(o, h, c, from, cur, path, t);
      }
      WalksJoin(h, Ref(id), path, step.1, rest, |t|);
    }
  }

  lemma {:induction false} ChildWalks(o: Options, h: Heap, id: nat, from: nat, cur: nat, path: Path, t: Table)
    requires Wf(h) && id in h && from < h[id].Size() && Fits(o, cur)
    ensures var t1 := Level(o, h, h[id].Child(from), cur, path + [SegAt(h[id], from)], t).1;
      WalksFrom(h, Ref(id), path, t1, |t|) && Unregistered(o, h, t1) <= Unregistered(o, h, t)
    decreases Unregistered(o, h, t), DepthLeft(o, cur), 1, h[id].Size() - from, 0
  {
    var c := h[id];
    var t1 := Level(o, h, c.Child(from), cur, path + [SegAt(c, from)], t).1;
    LevelWalks(o, h, c.Child(from), cur, path + [SegAt(c, from)], t);
    UnregisteredMono(o, h, t, t1);
    StepWalks(h, id, from, path, t1, |t|);
  }

  /** The record the source keys by path strings: when no key holds a dot,
      the entries of one whole call have pairwise different path strings,
      so `references[path] = newRef` never overwrites an entry and the
      sequence of entries is that record in insertion order. */
  lemma RecordKeysDistinct(o: Options, h: Heap, config: Value)
    requires Wf(h) && InHeap(h, config) && Dotless(h)
    ensures var t := Level(o, h, config, 0, [], []).1;
      forall i, j | 0 <= i < j < |t| :: PathString(t[i].path) != PathString(t[j].path)
  {
    var t := Level(o, h, config, 0, [], []).1;
    WholeRun(o, h, config);
    LevelWalks(o, h, config, 0, [], []);
    forall i, j | 0 <= i < j < |t|
      ensures PathString(t[i].path) != PathString(t[j].path)
    {
      var p, q := t[i].path, t[j].path;
      assert p[0..] == p && q[0..] == q;
      if PathString(p) == PathString(q) {
        DropPrefix("config", Rendered(p), Rendered(q));
        WalksInjective(h, config, p, q);
      }
    }
  }

  /** The shape of every bounded snapshot at level `cur`: `null` at the cut;
      above it a falsy scalar only when falsy values are kept (or `null`),
      an empty container only when falsy values are kept, and every child
      kept and of this shape one level down. */
  predicate Settled(o: Options, x: Out, cur: nat)
    requires o.depth.Some? && cur <= o.depth.value
    decreases o.depth.value - cur
  {
    if cur == o.depth.value then x == ONull
    else
      match x
      case OArr(items) =>
        && (items != [] || o.includeFalseValues)
        && forall i | 0 <= i < |items| :: Keep(o, items[i]) && Settled(o, items[i], cur + 1)
      case OObj(fields) =>
        && (fields != [] || o.includeFalseValues)
        && forall i | 0 <= i < |fields| :: Keep(o, fields[i].1) && Settled(o, fields[i].1, cur + 1)
      case _ => Keep(o, x) || x == ONull
  }

  /** Every bounded snapshot is settled. */
  lemma {:induction false} TreeSettled(o: Options, h: Heap, v: Value, cur: nat)
    requires Wf(h) && InHeap(h, v) && o.depth.Some? && cur <= o.depth.value
    ensures Settled(o, Tree(o, h, v, cur), cur)
    decreases o.depth.value - cur
  {
    if cur < o.depth.value && v.Ref? {
      var c := h[v.id];
      var outs := Trees(o, h, c, cur + 1);
      forall i | 0 <= i < |outs|
        ensures Settled(o, outs[i], cur + 1)
      {
        TreeSettled(o, h, c.Child(i), cur + 1);
      }
      assert outs == seq(c.Size(), i requires 0 <= i < c.Size() => Tree(o, h, c.Child(i), cur + 1));
      match c
      case Arr(_) =>
        var kept := KeepItems(o, outs);
        forall i | 0 <= i < |kept|
          ensures Keep(o, kept[i]) && Settled(o, kept[i], cur + 1)
        {
          assert kept[i] in outs;
        }
      case Obj(fields) =>
        var kept := KeepFields(o, Pair(fields, outs));
        forall i | 0 <= i < |kept|
          ensures Keep(o, kept[i].1) && Settled(o, kept[i].1, cur + 1)
        {
          assert kept[i] in Pair(fields, outs);
        }
    }
  }

  /** A configuration written like a settled snapshot simplifies to that
      snapshot. */
  lemma {:induction false} SettledUnchanged(o: Options, h: Heap, v: Value, x: Out, cur: nat)
    requires Wf(h) && InHeap(h, v) && o.depth.Some? && cur <= o.depth.value
    requires Denotes(h, v, x) && Settled(o, x, cur)
    ensures Tree(o, h, v, cur) == x
    decreases x, 1
  {
    if cur < o.depth.value {
      match x
      case OArr(items) => SettledArrayUnchanged(o, h, v.id, items, cur);
      case OObj(fields) => SettledObjectUnchanged(o, h, v.id, fields, cur);
      case _ =>
    }
  }

  lemma {:induction false} SettledArrayUnchanged(o: Options, h: Heap, id: nat, items: seq<Out>, cur: nat)
    requires Wf(h) && id in h && o.depth.Some? && cur < o.depth.value
    requires Denotes(h, Ref(id), OArr(items)) && Settled(o, OArr(items), cur)
    ensures Tree(o, h, Ref(id), cur) == OArr(items)
    decreases OArr(items), 0
  {
    var c := h[id];
    var outs := seq(c.Size(), i requires 0 <= i < c.Size() => Tree(o, h, c.Child(i), cur + 1));
    forall i | 0 <= i < |items|
      ensures outs[i] == items[i]
    {
      assert c.Child(i) == c.items[i];
      SettledUnchanged(o, h, c.items[i], items[i], cur + 1);
    }
    assert outs == items;
    FilterKeepsAll(items, x => Keep(o, x));
  }

  lemma {:induction false} SettledObjectUnchanged(o: Options, h: Heap, id: nat, fields: seq<(string, Out)>, cur: nat)
    requires Wf(h) && id in h && o.depth.Some? && cur < o.depth.value
    requires Denotes(h, Ref(id), OObj(fields)) && Settled(o, OObj(fields), cur)
    ensures Tree(o, h, Ref(id), cur) == OObj(fields)
    decreases OObj(fields), 0
  {
    var c := h[id];
    var outs := seq(c.Size(), i requires 0 <= i < c.Size() => Tree(o, h, c.Child(i), cur + 1));
    forall i | 0 <= i < |fields|
      ensures outs[i] == fields[i].1
    {
      assert c.Child(i) == c.fields[i].1;
      SettledUnchanged(o, h, c.fields[i].1, fields[i].1, cur + 1);
    }
    assert Pair(c.fields, outs) == fields;
    FilterKeepsAll(fields, (f: (string, Out)) => Keep(o, f.1));
  }

  /** Idempotence with a depth bound: simplifying again, with the same
      options, any configuration written like a snapshot gives that
      snapshot back. */
  lemma BoundedIdempotent(o: Options, h: Heap, config: Value, h2: Heap, config2: Value)
    requires Wf(h) && InHeap(h, config) && Wf(h2) && InHeap(h2, config2) && o.depth.Some?
    requires Denotes(h2, config2, Simplified(o, h, config))
    ensures Simplified(o, h2, config2) == Simplified(o, h, config)
  {
    BoundedLevelIsTree(o, h, config, 0, [], []);
    BoundedLevelIsTree(o, h2, config2, 0, [], []);
    TreeSettled(o, h, config, 0);
    SettledUnchanged(o, h2, config2, Simplified(o, h, config), 0);
  }
}
