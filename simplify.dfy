/** The main simplifier, `simplifyLevel` in src/index.ts:111-206, as a
    function that threads the `references` table through the traversal. */
module Simplify {
  import opened Wrappers
  import opened Seqs
  import opened Values
  import opened Labels

  /** The resolved arguments of one simplification: `depth` is `None` for
      `null` (unbounded, with cycle detection). */
  datatype Options = Options(depth: Option<nat>, includeFalseValues: bool, showFunctionNames: bool)

  /** `value || includeFalseValues`: whether a simplified child is kept. */
  predicate Keep(o: Options, x: Out)
  {
    OutTruthy(x) || o.includeFalseValues
  }

  /** A `references` entry `{ link, empty }` registered at `path`. */
  datatype Entry = Entry(path: Path, link: nat, empty: bool)

  /** The `references` record, in insertion order. */
  type Table = seq<Entry>

  predicate Fits(o: Options, cur: nat)
  {
    o.depth.Some? ==> cur <= o.depth.value
  }

  function DepthLeft(o: Options, cur: nat): nat
    requires Fits(o, cur)
  {
    if o.depth.Some? then o.depth.value - cur else 0
  }

  function Linked(t: Table): set<nat>
  {
    set e | e in t :: e.link
  }

  /** Termination measure of unbounded mode: containers not yet registered. */
  function Unregistered(o: Options, h: Heap, t: Table): nat
  {
    if o.depth.None? then |h.Keys - Linked(t)| else 0
  }

  lemma {:induction false} SubsetCard(a: set<nat>, b: set<nat>)
    requires a <= b
    ensures |a| <= |b|
    ensures a < b ==> |a| < |b|
    decreases |b|
  {
    if b != {} {
      var x :| x in b;
      SubsetCard(a - {x}, b - {x});
      if x in a {
        assert |a - {x}| == |a| - 1;
        if a < b {
          var y :| y in b && y !in a;
          assert y in b - {x} && y !in a - {x};
        }
      } else {
        assert a - {x} == a;
        if a < b {
          assert a <= b - {x};
        }
      }
    }
  }

  lemma UnregisteredMono(o: Options, h: Heap, t: Table, t': Table)
    requires t <= t'
    ensures Unregistered(o, h, t') <= Unregistered(o, h, t)
  {
    assert Linked(t) <= Linked(t') by {
      forall x | x in Linked(t) ensures x in Linked(t') {
        var e :| e in t && e.link == x;
        assert e in t';
      }
    }
    SubsetCard(h.Keys - Linked(t'), h.Keys - Linked(t));
  }

  lemma UnregisteredShrinks(o: Options, h: Heap, t: Table, e: Entry)
    requires e.link in h && (o.depth.None? ==> e.link !in Linked(t))
    ensures Unregistered(o, h, t + [e]) <= Unregistered(o, h, t)
    ensures o.depth.None? ==> Unregistered(o, h, t + [e]) < Unregistered(o, h, t)
  {
    if o.depth.Some? {
      return;
    }
    assert Linked(t + [e]) == Linked(t) + {e.link};
    assert e.link in h.Keys - Linked(t);
    assert e.link !in h.Keys - Linked(t + [e]);
    SubsetCard(h.Keys - Linked(t + [e]), h.Keys - Linked(t));
  }

  /** `getRef` (src/index.ts:26-33): the first entry, in insertion order,
      whose link is the container `id`. */
  function GetRef(t: Table, id: nat): (k: Option<nat>)
    ensures k.Some? ==> k.value < |t| && t[k.value].link == id
    ensures k.Some? ==> forall j | 0 <= j < k.value :: t[j].link != id
    ensures k.None? <==> id !in Linked(t)
  {
    if t == [] then None
    else if t[0].link == id then Some(0)
    else
      var k := GetRef(t[1..], id);
      assert Linked(t) == {t[0].link} + Linked(t[1..]) by {
        assert t == [t[0]] + t[1..];
      }
      if k.Some? then Some(k.value + 1) else None
  }

  /** The path step to the `i`-th child of `c`. */
  function SegAt(c: Container, i: nat): Seg
    requires i < c.Size()
  {
    if c.Arr? then Index(i) else Key(c.fields[i].0)
  }

  function KeepItems(o: Options, outs: seq<Out>): seq<Out>
  {
    Filter(outs, x => Keep(o, x))
  }

  function KeepFields(o: Options, fs: seq<(string, Out)>): seq<(string, Out)>
  {
    Filter(fs, (f: (string, Out)) => Keep(o, f.1))
  }

  lemma KeepItemsAppend(o: Options, outs: seq<Out>, x: Out)
    ensures KeepItems(o, outs + [x]) == KeepItems(o, outs) + (if Keep(o, x) then [x] else [])
  {
    FilterAppend(outs, [x], x => Keep(o, x));
  }

  lemma KeepFieldsAppend(o: Options, fs: seq<(string, Out)>, f: (string, Out))
    ensures KeepFields(o, fs + [f]) == KeepFields(o, fs) + (if Keep(o, f.1) then [f] else [])
  {
    FilterAppend(fs, [f], (f: (string, Out)) => Keep(o, f.1));
  }

  /** Storing the value of field `i` after those of the fields before it. */
  lemma KeepFieldsStep(o: Options, fields: seq<(string, Value)>, done: seq<Out>, i: nat, x: Out)
    requires i < |fields| && |done| == i
    ensures KeepFields(o, Pair(fields[..i + 1], done + [x]))
      == KeepFields(o, Pair(fields[..i], done)) + (if Keep(o, x) then [(fields[i].0, x)] else [])
  {
    PairAppend(fields, done, i, x);
    KeepFieldsAppend(o, Pair(fields[..i], done), (fields[i].0, x));
  }

  /** What the array `reduce` keeps: the values that pass `value ||
      includeFalseValues`, in their original order, every one of them, and
      everything when falsy values are included; nothing exactly when no
      value passes. */
  lemma KeptItems(o: Options, outs: seq<Out>)
    ensures var kept := KeepItems(o, outs);
      && |kept| <= |outs| && IsSubseq(kept, outs) && |kept| == Count(outs, x => Keep(o, x))
      && (forall x | x in kept :: Keep(o, x))
      && (forall i | 0 <= i < |outs| && Keep(o, outs[i]) :: outs[i] in kept)
      && (kept == [] <==> forall i | 0 <= i < |outs| :: !Keep(o, outs[i]))
      && (o.includeFalseValues ==> kept == outs)
  {
    FilterIsSubseq(outs, x => Keep(o, x));
    FilterEmpty(outs, x => Keep(o, x));
    if o.includeFalseValues {
      FilterKeepsAll(outs, x => Keep(o, x));
    }
  }

  /** What the object `reduce` keeps: `res[key] = value` for exactly the
      keys whose value passes `value || includeFalseValues`, in their
      original order, and every key when falsy values are included. */
  lemma KeptFields(o: Options, fields: seq<(string, Value)>, outs: seq<Out>)
    requires |fields| == |outs|
    ensures var kept := KeepFields(o, Pair(fields, outs));
      && IsSubseq(kept, Pair(fields, outs)) && IsSubseq(Keys(kept), Keys(fields))
      && |kept| == Count(Pair(fields, outs), (f: (string, Out)) => Keep(o, f.1))
      && (forall f | f in kept :: Keep(o, f.1))
      && (forall i | 0 <= i < |fields| :: (fields[i].0, outs[i]) in kept <==> Keep(o, outs[i]))
      && (kept == [] <==> forall i | 0 <= i < |outs| :: !Keep(o, outs[i]))
      && (o.includeFalseValues ==> Keys(kept) == Keys(fields))
  {
    var pairs := Pair(fields, outs);
    var keep := (f: (string, Out)) => Keep(o, f.1);
    PairKeys(fields, outs);
    FilterKeysSubseq(pairs, keep);
    FilterIsSubseq(pairs, keep);
    FilterEmpty(pairs, keep);
    forall i | 0 <= i < |fields|
      ensures (fields[i].0, outs[i]) in KeepFields(o, pairs) <==> Keep(o, outs[i])
    {
      assert pairs[i] == (fields[i].0, outs[i]);
    }
    if o.includeFalseValues {
      FilterKeepsAll(pairs, keep);
    }
  }

  /** One call of `simplifyLevel` on `v` at level `cur` and path `path`,
      with the table `t` as it stands; yields the simplified value and the
      table afterwards. Entries are only ever added after the ones that
      were there, and their links are never changed. */
  function Level(o: Options, h: Heap, v: Value, cur: nat, path: Path, t: Table): (res: (Out, Table))
    requires Wf(h) && InHeap(h, v) && Fits(o, cur)
    ensures t <= res.1
    decreases Unregistered(o, h, t), DepthLeft(o, cur), 0, 0
  {
    if o.depth.Some? && cur == o.depth.value then (ONull, t)
    else
      match v
      case Func(name) =>
        var text := FunctionLabel(name);
        (if o.showFunctionNames && text != "" then OStr(text) else ONull, t)
      case Ref(id) =>
        var found := if o.depth.None? then GetRef(t, id) else None;
        if found.Some? then
          var e := t[found.value];
          (if !e.empty || o.includeFalseValues then OStr(ReferenceLabel(PathString(e.path))) else ONull, t)
        else
          var t1 := t + [Entry(path, id, false)];
          var c := h[id];
          var run := (UnregisteredShrinks(o, h, t, Entry(path, id, false));
                      Run(o, h, c, 0, cur + 1, path, t1));
          var formatted := Formatted(o, c, run.0);
          (formatted.0, Mark(t, Entry(path, id, false), run.1, formatted.1))
      case Regex(source) =>
        // a RegExp object is always truthy, so `config || includeFalseValues` holds
        (ORegex(source), t)
      case _ =>
        (if Truthy(v) || o.includeFalseValues then Scalar(v) else ONull, t)
  }

  /** A container's level from its children's simplified values: the kept
      children, or `null` when none is kept and falsy values are dropped,
      and whether none was kept (the `empty` flag). */
  function Formatted(o: Options, c: Container, outs: seq<Out>): (r: (Out, bool))
    requires |outs| == c.Size()
    ensures r.1 <==> forall i | 0 <= i < |outs| :: !Keep(o, outs[i])
    ensures r.0 == ONull <==> r.1 && !o.includeFalseValues
    ensures r.0 != ONull ==> (c.Arr? <==> r.0.OArr?) && (c.Obj? <==> r.0.OObj?)
  {
    match c
    case Arr(_) =>
      var items := KeepItems(o, outs);
      FilterEmpty(outs, x => Keep(o, x));
      (if |items| > 0 || o.includeFalseValues then OArr(items) else ONull, |items| == 0)
    case Obj(fields) =>
      var kept := KeepFields(o, Pair(fields, outs));
      KeptFields(o, fields, outs);
      (if |kept| > 0 || o.includeFalseValues then OObj(kept) else ONull, |kept| == 0)
  }

  /** `newRef.empty = ...`: the table `t2`, grown from `t + [e]`, with the
      `empty` flag of `e` set. */
  function Mark(t: Table, e: Entry, t2: Table, empty: bool): (r: Table)
    requires t + [e] <= t2
    ensures t <= r && |r| == |t2|
    ensures r[|t|] == e.(empty := empty)
    ensures forall k | 0 <= k < |r| && k != |t| :: r[k] == t2[k]
  {
    t2[|t| := t2[|t|].(empty := empty)]
  }

  /** The `reduce` over the children of `c` from index `from` on, at level
      `cur` below `path`: every child's simplified value, unfiltered, and
      the table afterwards. */
  function Run(o: Options, h: Heap, c: Container, from: nat, cur: nat, path: Path, t: Table): (res: (seq<Out>, Table))
    requires Wf(h) && ContainerIn(h, c) && from <= c.Size() && Fits(o, cur)
    ensures |res.0| == c.Size() - from && t <= res.1
    decreases Unregistered(o, h, t), DepthLeft(o, cur), 1, c.Size() - from
  {
    if from == c.Size() then ([], t)
    else
      var step := Level(o, h, c.Child(from), cur, path + [SegAt(c, from)], t);
      UnregisteredMono(o, h, t, step.1);
      var rest := Run(o, h, c, from + 1, cur, path, step.1);
      ([step.0] + rest.0, rest.1)
  }

  /** One step of `Run`: the child at `from`, then the rest on the table
      that child leaves. */
  lemma RunStep(o: Options, h: Heap, c: Container, from: nat, cur: nat, path: Path, t: Table)
    requires Wf(h) && ContainerIn(h, c) && from < c.Size() && Fits(o, cur)
    ensures var step := Level(o, h, c.Child(from), cur, path + [SegAt(c, from)], t);
      var rest := Run(o, h, c, from + 1, cur, path, step.1);
      Run(o, h, c, from, cur, path, t) == ([step.0] + rest.0, rest.1)
  {
  }

  /** The registering case of `Level`, unfolded: the container's children
      are run on the table extended by its entry, then the kept children
      form the result and decide the entry's `empty` flag. */
  lemma RegisterLevel(o: Options, h: Heap, id: nat, cur: nat, path: Path, t: Table)
    requires Wf(h) && id in h && Fits(o, cur) && o.depth != Some(cur)
    requires o.depth.None? ==> id !in Linked(t)
    ensures var run := Run(o, h, h[id], 0, cur + 1, path, t + [Entry(path, id, false)]);
      var res := Level(o, h, Ref(id), cur, path, t);
      && |t| < |run.1| && run.1[|t|] == Entry(path, id, false)
      && (h[id].Arr? ==>
            var items := KeepItems(o, run.0);
            res == (if |items| > 0 || o.includeFalseValues then OArr(items) else ONull,
                    run.1[|t| := Entry(path, id, |items| == 0)]))
      && (h[id].Obj? ==>
            var kept := KeepFields(o, Pair(h[id].fields, run.0));
            res == (if |kept| > 0 || o.includeFalseValues then OObj(kept) else ONull,
                    run.1[|t| := Entry(path, id, |kept| == 0)]))
  {
    var t1 := t + [Entry(path, id, false)];
    UnregisteredShrinks(o, h, t, Entry(path, id, false));
    var run := Run(o, h, h[id], 0, cur + 1, path, t1);
    assert run.1[|t|] == t1[|t|];
    LevelRegisters(o, h, id, cur, path, t);
  }

  /** `Level` on a container it registers is `Formatted` of the children's
      values, with the entry marked by `Mark`. */
  lemma LevelRegisters(o: Options, h: Heap, id: nat, cur: nat, path: Path, t: Table)
    requires Wf(h) && id in h && Fits(o, cur) && o.depth != Some(cur)
    requires o.depth.None? ==> id !in Linked(t)
    ensures (UnregisteredShrinks(o, h, t, Entry(path, id, false));
      var run := Run(o, h, h[id], 0, cur + 1, path, t + [Entry(path, id, false)]);
      var formatted := Formatted(o, h[id], run.0);
      Level(o, h, Ref(id), cur, path, t) == (formatted.0, Mark(t, Entry(path, id, false), run.1, formatted.1)))
  {
    assert (if o.depth.None? then GetRef(t, id) else None).None?;
  }

  /** A container met for the first time (or any container, with a depth
      bound) is registered at `path` before its children are simplified;
      afterwards only the `empty` flag of that entry differs from the table
      its children left. */
  lemma RegisterTable(o: Options, h: Heap, id: nat, cur: nat, path: Path, t: Table)
    requires Wf(h) && id in h && Fits(o, cur) && o.depth != Some(cur)
    requires o.depth.None? ==> id !in Linked(t)
    ensures var run := Run(o, h, h[id], 0, cur + 1, path, t + [Entry(path, id, false)]);
      var t' := Level(o, h, Ref(id), cur, path, t).1;
      && |t| < |run.1| && run.1[|t|] == Entry(path, id, false)
      && t' == run.1[|t| := Entry(path, id, t'[|t|].empty)]
  {
    RegisterLevel(o, h, id, cur, path, t);
  }

  /** The loop form of `RunStep`: if the children before `i` produced
      `done`, then after the child at `i` they have produced `done` plus that
      child's value, and the rest of the run continues from the child's table. */
  lemma RunAdvance(o: Options, h: Heap, c: Container, i: nat, cur: nat, path: Path, t: Table,
                   done: seq<Out>, whole: (seq<Out>, Table))
    requires Wf(h) && ContainerIn(h, c) && i < c.Size() && Fits(o, cur)
    requires whole == (done + Run(o, h, c, i, cur, path, t).0, Run(o, h, c, i, cur, path, t).1)
    ensures var step := Level(o, h, c.Child(i), cur, path + [SegAt(c, i)], t);
      var rest := Run(o, h, c, i + 1, cur, path, step.1);
      whole == ((done + [step.0]) + rest.0, rest.1)
  {
    var step := Level(o, h, c.Child(i), cur, path + [SegAt(c, i)], t);
    var rest := Run(o, h, c, i + 1, cur, path, step.1);
    RunStep(o, h, c, i, cur, path, t);
    assert done + ([step.0] + rest.0) == (done + [step.0]) + rest.0;
  }

  /** `simplifyConfig` (src/index.ts:70-82): start at level 0, path
      `config`, with an empty table. */
  function Simplified(o: Options, h: Heap, config: Value): (r: Out)
    requires Wf(h) && InHeap(h, config)
    ensures o.depth == Some(0) ==> r == ONull
    ensures o.depth != Some(0) && IsScalar(config) && !o.includeFalseValues ==> (r == ONull <==> !Truthy(config))
    ensures o.depth != Some(0) && config.Regex? ==> r == ORegex(config.source)
  {
    Level(o, h, config, 0, [], []).0
  }
}
