/** Concrete configurations from the repository's tests
    (src/index.spec.ts), plus the self-referencing object used to show the
    reference labels, evaluated on the model. */
module Scenarios {
  import opened Wrappers
  import opened Seqs
  import opened Values
  import opened Labels
  import Legacy
  import Simplify
  import SimplifyProps

  /** `{ foo: 9000, bar: 0 }` as entry 0 of a heap. */
  predicate NumbersShape(h: Heap)
  {
    0 in h && h[0] == Obj([("foo", Int(9000)), ("bar", Int(0))])
  }

  lemma NumbersHeapExists()
    ensures var h := map[0 := Obj([("foo", Int(9000)), ("bar", Int(0))])]; Wf(h) && NumbersShape(h)
  {
  }

  /** `{ foo: 9000, bar: 0 }` becomes `{ foo: 9000 }` (src/index.spec.ts:107-110). */
  lemma LegacyDropsFalsyChildren(h: Heap)
    requires Wf(h) && NumbersShape(h)
    ensures Legacy.SimplifyConfig(h, Ref(0), None) == OObj([("foo", OInt(9000))])
  {
    var outs := Legacy.Children(h, h[0], 1, 4);
    assert outs == [OInt(9000), OInt(0)] by {
      assert outs[0] == Legacy.SimplifyLevel(h, Int(9000), 1, 4);
      assert outs[1] == Legacy.SimplifyLevel(h, Int(0), 1, 4);
    }
    var pairs := Pair(h[0].fields, outs);
    assert pairs == [("foo", OInt(9000)), ("bar", OInt(0))];
    var p := (f: (string, Out)) => OutTruthy(f.1);
    assert Filter(pairs, p) == [pairs[0]] + Filter(pairs[1..], p);
    assert Filter(pairs[1..], p) == [] + Filter(pairs[2..], p);
  }

  /** `{ foo: { oof: 20, loop } }` where `loop = { key: loop }`, at heap
      entries 0, 1 and 2. */
  predicate CycleShape(h: Heap)
  {
    && 0 in h && h[0] == Obj([("foo", Ref(1))])
    && 1 in h && h[1] == Obj([("oof", Int(20)), ("loop", Ref(2))])
    && 2 in h && h[2] == Obj([("key", Ref(2))])
  }

  const CycleHeap: Heap := map[0 := Obj([("foo", Ref(1))]),
                               1 := Obj([("oof", Int(20)), ("loop", Ref(2))]),
                               2 := Obj([("key", Ref(2))])]
  const Unbounded := Simplify.Options(None, false, false)
  /** `<<Circular reference to 'config.foo.loop'>>`. */
  const LoopLabel := OStr(ReferenceLabel("config.foo.loop"))

  lemma CycleHeapWf()
    ensures Wf(CycleHeap) && CycleShape(CycleHeap)
  {
    assert CycleHeap[0].Child(0) == Ref(1);
    assert CycleHeap[1].Child(1) == Ref(2);
    assert CycleHeap[2].Child(0) == Ref(2);
  }

  const LoopPath: Path := [Key("foo"), Key("loop")]
  const LoopTable: Simplify.Table :=
    [Simplify.Entry([], 0, false), Simplify.Entry([Key("foo")], 1, false), Simplify.Entry(LoopPath, 2, false)]

  lemma LoopPathText()
    ensures PathString(LoopPath) == "config.foo.loop"
  {
    assert LoopPath[..1] == [Key("foo")] && [Key("foo")][..0] == [];
    assert PathString([]) == "config";
    assert PathString([Key("foo")]) == "config" + ".foo";
    assert PathString(LoopPath) == "config" + ".foo" + ".loop";
    assert "config" + ".foo" + ".loop" == "config.foo.loop";
  }

  /** An object with a single field, met for the first time: when the
      field's simplified value is kept, the result is the object holding
      just that value. */
  lemma SingleField(o: Simplify.Options, h: Heap, id: nat, cur: nat, path: Path, t: Simplify.Table, k: string, v: Value, x: Out)
    requires Wf(h) && id in h && h[id] == Obj([(k, v)]) && InHeap(h, v)
    requires Simplify.Fits(o, cur) && o.depth != Some(cur)
    requires o.depth.None? ==> id !in Simplify.Linked(t)
    requires Simplify.Level(o, h, v, cur + 1, path + [Key(k)], t + [Simplify.Entry(path, id, false)]).0 == x
    requires Simplify.Keep(o, x)
    ensures Simplify.Level(o, h, Ref(id), cur, path, t).0 == OObj([(k, x)])
  {
    var t1 := t + [Simplify.Entry(path, id, false)];
    var c := h[id];
    Simplify.RegisterLevel(o, h, id, cur, path, t);
    assert c.Size() == 1 && c.Child(0) == v && Simplify.SegAt(c, 0) == Key(k);
    var step := Simplify.Level(o, h, c.Child(0), cur + 1, path + [Simplify.SegAt(c, 0)], t1);
    Simplify.RunStep(o, h, c, 0, cur + 1, path, t1);
    assert Simplify.Run(o, h, c, 1, cur + 1, path, step.1).0 == [];
    assert Pair(c.fields, [step.0]) == [(k, step.0)];
    Simplify.KeepFieldsAppend(o, [], (k, step.0));
    assert [] + [(k, step.0)] == [(k, step.0)];
  }

  /** The single field `key` of `loop` points back at `loop` itself, which
      is still being expanded: it becomes the label of `loop`'s path. */
  lemma CycleLoop(o: Simplify.Options, h: Heap)
    requires o == Unbounded && Wf(h) && CycleShape(h)
    ensures Simplify.Level(o, h, Ref(2), 2, LoopPath, LoopTable[..2]).0
      == OObj([("key", LoopLabel)])
  {
    var t2 := LoopTable[..2];
    assert t2 + [Simplify.Entry(LoopPath, 2, false)] == LoopTable;
    assert 2 !in Simplify.Linked(t2);
    SimplifyProps.CycleBackToAncestor(o, h, 2, LoopPath, t2, LoopTable, 3, LoopPath + [Key("key")]);
    LoopPathText();
    SingleField(o, h, 2, 2, LoopPath, t2, "key", Ref(2), LoopLabel);
  }

  lemma FooFields(o: Simplify.Options, h: Heap)
    requires o == Unbounded && Wf(h) && CycleShape(h)
    ensures Simplify.Run(o, h, h[1], 0, 2, [Key("foo")], LoopTable[..2]).0
      == [OInt(20), OObj([("key", LoopLabel)])]
  {
    CycleLoop(o, h);
    var c := h[1];
    var t2 := LoopTable[..2];
    assert c.Size() == 2 && c.Child(0) == Int(20) && Simplify.SegAt(c, 0) == Key("oof");
    assert c.Child(1) == Ref(2) && Simplify.SegAt(c, 1) == Key("loop");
    var oof := Simplify.Level(o, h, c.Child(0), 2, [Key("foo")] + [Simplify.SegAt(c, 0)], t2);
    assert oof == (OInt(20), t2);
    Simplify.RunStep(o, h, c, 0, 2, [Key("foo")], t2);
    assert [Key("foo")] + [Simplify.SegAt(c, 1)] == LoopPath;
    var loop := Simplify.Level(o, h, c.Child(1), 2, LoopPath, t2);
    Simplify.RunStep(o, h, c, 1, 2, [Key("foo")], t2);
    assert Simplify.Run(o, h, c, 2, 2, [Key("foo")], loop.1).0 == [];
    assert Simplify.Run(o, h, c, 1, 2, [Key("foo")], t2).0 == [loop.0];
  }

  lemma CycleFoo(o: Simplify.Options, h: Heap)
    requires o == Unbounded && Wf(h) && CycleShape(h)
    ensures Simplify.Level(o, h, Ref(1), 1, [Key("foo")], [Simplify.Entry([], 0, false)]).0
      == OObj([("oof", OInt(20)), ("loop", OObj([("key", LoopLabel)]))])
  {
    FooFields(o, h);
    var t1 := LoopTable[..1];
    assert t1 == [Simplify.Entry([], 0, false)];
    assert t1 + [Simplify.Entry([Key("foo")], 1, false)] == LoopTable[..2];
    assert 1 !in Simplify.Linked(t1);
    Simplify.RegisterLevel(o, h, 1, 1, [Key("foo")], t1);
    var c := h[1];
    var outs := [OInt(20), OObj([("key", LoopLabel)])];
    var pairs := [("oof", OInt(20)), ("loop", OObj([("key", LoopLabel)]))];
    assert Pair(c.fields, outs) == pairs;
    Simplify.KeepFieldsAppend(o, [], pairs[0]);
    Simplify.KeepFieldsAppend(o, [pairs[0]], pairs[1]);
    assert [] + [pairs[0]] == [pairs[0]] && [pairs[0]] + [pairs[1]] == pairs;
  }

  /** A configuration `{ k: <entry id> }`: when the field's value, simplified
      one level down under the root's entry, is kept, the configuration
      simplifies to the object holding just that value. */
  lemma TopField(o: Simplify.Options, h: Heap, k: string, id: nat, x: Out)
    requires Wf(h) && 0 in h && h[0] == Obj([(k, Ref(id))]) && id in h
    requires o.depth != Some(0) && Simplify.Keep(o, x)
    requires Simplify.Level(o, h, Ref(id), 1, [Key(k)], [Simplify.Entry([], 0, false)]).0 == x
    ensures Simplify.Simplified(o, h, Ref(0)) == OObj([(k, x)])
  {
    assert [] + [Simplify.Entry([], 0, false)] == [Simplify.Entry([], 0, false)];
    assert [] + [Key(k)] == [Key(k)];
    SingleField(o, h, 0, 0, [], [], k, Ref(id), x);
  }

  /** An array index in a path is written in decimal, most significant
      digit first (src/index.ts:151). */
  lemma IndexPath()
    ensures PathString([Key("rules"), Index(12)]) == "config.rules.[12]"
  {
    var p := [Key("rules"), Index(12)];
    IndexTwelve();
    assert Rendered(p) == ".rules.[12]" by {
      assert p[1..] == [Index(12)] && p[1..][1..] == [];
    }
  }

  /** The index 12 is written `12`. */
  lemma IndexTwelve()
    ensures NatToString(12) == "12"
  {
    assert NatToString(1) == "1";
    assert DigitChar(2) == '2';
  }

  /** The loop `loop = { key: loop }` inside `{ foo: { oof: 20, loop } }`,
      unbounded: the inner `key` becomes the label naming where `loop` was
      first met, `config.foo.loop`. */
  lemma MainCycleLabel(o: Simplify.Options, h: Heap)
    requires o == Unbounded && Wf(h) && CycleShape(h)
    ensures Simplify.Simplified(o, h, Ref(0))
      == OObj([("foo", OObj([("oof", OInt(20)),
                             ("loop", OObj([("key", OStr(ReferenceLabel("config.foo.loop")))]))]))])
  {
    CycleFoo(o, h);
    TopField(o, h, "foo", 1, OObj([("oof", OInt(20)), ("loop", OObj([("key", LoopLabel)]))]));
  }

  /** `{ foo: [{ some: "state" }, { bar: { oof: 20 } }] }` at heap entries
      0 to 4. */
  predicate ArraysShape(h: Heap)
  {
    && 0 in h && h[0] == Obj([("foo", Ref(1))])
    && 1 in h && h[1] == Arr([Ref(2), Ref(3)])
    && 2 in h && h[2] == Obj([("some", Str("state"))])
    && 3 in h && h[3] == Obj([("bar", Ref(4))])
  }

  const ArraysHeap: Heap := map[0 := Obj([("foo", Ref(1))]),
                                1 := Arr([Ref(2), Ref(3)]),
                                2 := Obj([("some", Str("state"))]),
                                3 := Obj([("bar", Ref(4))]),
                                4 := Obj([("oof", Int(20))])]

  lemma ArraysHeapWf()
    ensures Wf(ArraysHeap) && ArraysShape(ArraysHeap)
  {
    assert ArraysHeap[0].Child(0) == Ref(1);
    assert ArraysHeap[1].Child(0) == Ref(2) && ArraysHeap[1].Child(1) == Ref(3);
    assert ArraysHeap[3].Child(0) == Ref(4);
  }

  /** With depth 3 the legacy simplifier keeps both array items but cuts
      everything inside them, leaving `{ foo: [{}, {}] }`
      (src/index.spec.ts:156-165). */
  lemma LegacyCutsInsideArrayItems(h: Heap)
    requires Wf(h) && ArraysShape(h)
    ensures Legacy.SimplifyConfig(h, Ref(0), Some(3)) == OObj([("foo", OArr([OObj([]), OObj([])]))])
  {
    Legacy.CutObjectEmpty(h, 2, 2, 3);
    Legacy.CutObjectEmpty(h, 3, 2, 3);
    TwoItems(h, 1, Ref(2), Ref(3), 1, 2, 3, OObj([]), OObj([]));
    OneField(h, 0, "foo", Ref(1), 0, 1, 3, OArr([OObj([]), OObj([])]));
  }

  /** With the default depth 4 the array items keep their scalar fields
      and `bar` is emptied to `{}`, giving
      `{ foo: [{ some: "state" }, { bar: {} }] }` (src/index.spec.ts:138-143). */
  lemma LegacyDefaultDepthArrays(h: Heap)
    requires Wf(h) && ArraysShape(h) && 4 in h && h[4] == Obj([("oof", Int(20))])
    ensures Legacy.SimplifyConfig(h, Ref(0), None)
      == OObj([("foo", OArr([OObj([("some", OStr("state"))]), OObj([("bar", OObj([]))])]))])
  {
    ArraysFooDefault(h);
    OneField(h, 0, "foo", Ref(1), 0, 1, 4, OArr([OObj([("some", OStr("state"))]), OObj([("bar", OObj([]))])]));
  }

  /** The array under `foo` under the default depth 4: the scalar field is
      kept and the object under `bar` is cut. */
  lemma ArraysFooDefault(h: Heap)
    requires Wf(h) && ArraysShape(h) && 4 in h && h[4] == Obj([("oof", Int(20))])
    ensures Legacy.SimplifyLevel(h, Ref(1), 1, 4) == OArr([OObj([("some", OStr("state"))]), OObj([("bar", OObj([]))])])
  {
    OneField(h, 2, "some", Str("state"), 2, 3, 4, OStr("state"));
    Legacy.CutObjectEmpty(h, 4, 3, 4);
    OneField(h, 3, "bar", Ref(4), 2, 3, 4, OObj([]));
    TwoItems(h, 1, Ref(2), Ref(3), 1, 2, 4, OObj([("some", OStr("state"))]), OObj([("bar", OObj([]))]));
  }

  /** The empty configuration `{}`: the main simplifier has nothing to keep
      and, unless false values are included, answers `null` rather than the
      `{}` the repository's test expects (src/index.spec.ts:79-82). */
  lemma MainEmptyConfig(o: Simplify.Options, h: Heap)
    requires Wf(h) && 0 in h && h[0] == Obj([])
    ensures Simplify.Simplified(o, h, Ref(0))
      == if o.includeFalseValues && o.depth != Some(0) then OObj([]) else ONull
  {
    assert h[0].Size() == 0;
    if o.depth != Some(0) {
      var t1 := [Simplify.Entry([], 0, false)];
      assert [] + [Simplify.Entry([], 0, false)] == t1;
      assert Simplify.Run(o, h, h[0], 0, 1, [], t1).0 == [];
      assert Pair(h[0].fields, []) == [];
    }
  }

  /** `{ foo: { bar: { oof: 20, some: { cut: { test: "nested" } } } } }` at
      heap entries 0 to 4. */
  predicate NestedShape(h: Heap)
  {
    && 0 in h && h[0] == Obj([("foo", Ref(1))])
    && 1 in h && h[1] == Obj([("bar", Ref(2))])
    && 2 in h && h[2] == Obj([("oof", Int(20)), ("some", Ref(3))])
    && 3 in h && h[3] == Obj([("cut", Ref(4))])
  }

  const NestedHeap: Heap := map[0 := Obj([("foo", Ref(1))]),
                                1 := Obj([("bar", Ref(2))]),
                                2 := Obj([("oof", Int(20)), ("some", Ref(3))]),
                                3 := Obj([("cut", Ref(4))]),
                                4 := Obj([("test", Str("nested"))])]

  lemma NestedHeapWf()
    ensures Wf(NestedHeap) && NestedShape(NestedHeap)
  {
    assert NestedHeap[0].Child(0) == Ref(1);
    assert NestedHeap[1].Child(0) == Ref(2);
    assert NestedHeap[2].Child(1) == Ref(3);
    assert NestedHeap[3].Child(0) == Ref(4);
  }

  /** With the default depth 4 the level-4 content is cut and the emptied
      object stays as `{}` (src/index.spec.ts:131-136). */
  lemma LegacyDefaultDepthCut(h: Heap)
    requires Wf(h) && NestedShape(h)
    ensures Legacy.SimplifyConfig(h, Ref(0), None)
      == OObj([("foo", OObj([("bar", OObj([("oof", OInt(20)), ("some", OObj([]))]))]))])
  {
    NestedFooDefault(h);
    OneField(h, 0, "foo", Ref(1), 0, 1, 4, OObj([("bar", OObj([("oof", OInt(20)), ("some", OObj([]))]))]));
  }

  /** The `foo` level of the nested configuration under the default depth 4:
      only the object under `some` is cut. */
  lemma NestedFooDefault(h: Heap)
    requires Wf(h) && NestedShape(h)
    ensures Legacy.SimplifyLevel(h, Ref(1), 1, 4) == OObj([("bar", OObj([("oof", OInt(20)), ("some", OObj([]))]))])
  {
    Legacy.CutObjectEmpty(h, 3, 3, 4);
    TwoFields(h, 2, "oof", Int(20), "some", Ref(3), 2, 3, 4, OInt(20), OObj([]));
    OneField(h, 1, "bar", Ref(2), 1, 2, 4, OObj([("oof", OInt(20)), ("some", OObj([]))]));
  }

  /** With the depth 3 of src/index.spec.ts:145-154 the legacy simplifier
      leaves `{ foo: { bar: {} } }`: `bar` sits one level above the cut. */
  lemma LegacyDepthThreeNested(h: Heap)
    requires Wf(h) && NestedShape(h)
    ensures Legacy.SimplifyConfig(h, Ref(0), Some(3)) == OObj([("foo", OObj([("bar", OObj([]))]))])
  {
    Legacy.CutObjectEmpty(h, 2, 2, 3);
    OneField(h, 1, "bar", Ref(2), 1, 2, 3, OObj([]));
    OneField(h, 0, "foo", Ref(1), 0, 1, 3, OObj([("bar", OObj([]))]));
  }

  /** The legacy simplifier answers `{}` for `{}` (src/index.spec.ts:79-82). */
  lemma LegacyEmptyConfig(h: Heap)
    requires Wf(h) && 0 in h && h[0] == Obj([])
    ensures Legacy.SimplifyConfig(h, Ref(0), None) == OObj([])
  {
    assert Pair(h[0].fields, Legacy.Children(h, h[0], 1, 4)) == [];
  }

  /** `undefined` stays `undefined` in the legacy simplifier
      (src/index.spec.ts:89-92). */
  lemma LegacyUndefinedConfig(h: Heap)
    requires Wf(h)
    ensures Legacy.SimplifyConfig(h, Undef, None) == OUndef
  {
  }

  /** `{ foo: () => {} }` loses its function and becomes `{}` in the legacy
      simplifier (src/index.spec.ts:94-97). */
  lemma LegacyFunctionOnlyConfig(h: Heap, name: string)
    requires Wf(h) && 0 in h && h[0] == Obj([("foo", Func(name))])
    ensures Legacy.SimplifyConfig(h, Ref(0), None) == OObj([])
  {
    var outs := Legacy.Children(h, h[0], 1, 4);
    assert outs == [OUndef] by {
      assert outs[0] == Legacy.SimplifyLevel(h, Func(name), 1, 4);
    }
    var p := (f: (string, Out)) => OutTruthy(f.1);
    assert Pair(h[0].fields, outs) == [("foo", OUndef)];
    assert Filter([("foo", OUndef)], p) == [] + Filter([("foo", OUndef)][1..], p);
  }

  /** `{ foo: {}, bar: { test: 1 } }` at heap entries 0 to 2. */
  predicate EmptyFooShape(h: Heap)
  {
    && 0 in h && h[0] == Obj([("foo", Ref(1)), ("bar", Ref(2))])
    && 1 in h && h[1] == Obj([])
    && 2 in h && h[2] == Obj([("test", Int(1))])
  }

  /** `{ foo: {}, bar: { test: 1 } }` comes back whole from the legacy
      simplifier, the empty object included, as src/index.spec.ts:126-129
      expects. */
  lemma LegacyKeepsEmptyObject(h: Heap)
    requires Wf(h) && EmptyFooShape(h)
    ensures Legacy.SimplifyConfig(h, Ref(0), None)
      == OObj([("foo", OObj([])), ("bar", OObj([("test", OInt(1))]))])
  {
    NoFields(h, 1, 1, 2, 4);
    OneField(h, 2, "test", Int(1), 1, 2, 4, OInt(1));
    TwoFields(h, 0, "foo", Ref(1), "bar", Ref(2), 0, 1, 4, OObj([]), OObj([("test", OInt(1))]));
  }

  // One legacy level at a time: `next` is `cur + 1`, passed as its own
  // argument so that the levels below stay folded.

  /** An object with no keys stays `{}`. */
  lemma NoFields(h: Heap, id: nat, cur: nat, next: nat, depth: nat)
    requires Wf(h) && id in h && h[id] == Obj([]) && cur < depth && next == cur + 1
    ensures Legacy.SimplifyLevel(h, Ref(id), cur, depth) == OObj([])
  {
    assert Pair(h[id].fields, Legacy.Children(h, h[id], next, depth)) == [];
  }

  /** An object `{ k: v }` whose value simplifies to a truthy `x`. */
  lemma OneField(h: Heap, id: nat, k: string, v: Value, cur: nat, next: nat, depth: nat, x: Out)
    requires Wf(h) && id in h && h[id] == Obj([(k, v)]) && InHeap(h, v) && cur < depth && next == cur + 1
    requires Legacy.SimplifyLevel(h, v, next, depth) == x && OutTruthy(x)
    ensures Legacy.SimplifyLevel(h, Ref(id), cur, depth) == OObj([(k, x)])
  {
    assert h[id].Child(0) == v;
    assert Legacy.Children(h, h[id], next, depth) == [x];
    AllTruthyObject(h, id, cur, next, depth);
    assert Pair(h[id].fields, [x]) == [(k, x)];
  }

  /** An object `{ k1: v1, k2: v2 }` whose values simplify to truthy `x1`
      and `x2`. */
  lemma TwoFields(h: Heap, id: nat, k1: string, v1: Value, k2: string, v2: Value,
                  cur: nat, next: nat, depth: nat, x1: Out, x2: Out)
    requires Wf(h) && id in h && h[id] == Obj([(k1, v1), (k2, v2)]) && InHeap(h, v1) && InHeap(h, v2)
    requires cur < depth && next == cur + 1
    requires Legacy.SimplifyLevel(h, v1, next, depth) == x1 && OutTruthy(x1)
    requires Legacy.SimplifyLevel(h, v2, next, depth) == x2 && OutTruthy(x2)
    ensures Legacy.SimplifyLevel(h, Ref(id), cur, depth) == OObj([(k1, x1), (k2, x2)])
  {
    assert h[id].Child(0) == v1 && h[id].Child(1) == v2;
    assert Legacy.Children(h, h[id], next, depth) == [x1, x2];
    AllTruthyObject(h, id, cur, next, depth);
    assert Pair(h[id].fields, [x1, x2]) == [(k1, x1), (k2, x2)];
  }

  /** An array `[a, b]` whose items simplify to truthy `x` and `y`. */
  lemma TwoItems(h: Heap, id: nat, a: Value, b: Value, cur: nat, next: nat, depth: nat, x: Out, y: Out)
    requires Wf(h) && id in h && h[id] == Arr([a, b]) && InHeap(h, a) && InHeap(h, b)
    requires cur < depth && next == cur + 1
    requires Legacy.SimplifyLevel(h, a, next, depth) == x && OutTruthy(x)
    requires Legacy.SimplifyLevel(h, b, next, depth) == y && OutTruthy(y)
    ensures Legacy.SimplifyLevel(h, Ref(id), cur, depth) == OArr([x, y])
  {
    TwoChildren(h, id, a, b, next, depth, x, y);
    AllTruthyArray(h, id, cur, next, depth);
  }

  /** The children of a two-element container, simplified. */
  lemma TwoChildren(h: Heap, id: nat, a: Value, b: Value, next: nat, depth: nat, x: Out, y: Out)
    requires Wf(h) && id in h && h[id].Size() == 2 && h[id].Child(0) == a && h[id].Child(1) == b
    requires next <= depth
    requires Legacy.SimplifyLevel(h, a, next, depth) == x && Legacy.SimplifyLevel(h, b, next, depth) == y
    ensures Legacy.Children(h, h[id], next, depth) == [x, y]
  {
  }

  /** An array level all of whose simplified items are truthy keeps them
      all, in order. */
  lemma AllTruthyArray(h: Heap, id: nat, cur: nat, next: nat, depth: nat)
    requires Wf(h) && id in h && h[id].Arr? && h[id].items != [] && cur < depth && next == cur + 1
    requires forall x | x in Legacy.Children(h, h[id], next, depth) :: OutTruthy(x)
    ensures Legacy.SimplifyLevel(h, Ref(id), cur, depth) == OArr(Legacy.Children(h, h[id], next, depth))
  {
    FilterKeepsAll(Legacy.Children(h, h[id], next, depth), OutTruthy);
  }

  /** An object level all of whose simplified values are truthy keeps every
      key with its simplified value, in order. */
  lemma AllTruthyObject(h: Heap, id: nat, cur: nat, next: nat, depth: nat)
    requires Wf(h) && id in h && h[id].Obj? && cur < depth && next == cur + 1
    requires forall x | x in Legacy.Children(h, h[id], next, depth) :: OutTruthy(x)
    ensures Legacy.SimplifyLevel(h, Ref(id), cur, depth)
      == OObj(Pair(h[id].fields, Legacy.Children(h, h[id], next, depth)))
  {
    var outs := Legacy.Children(h, h[id], next, depth);
    var pairs := Pair(h[id].fields, outs);
    forall f | f in pairs
      ensures OutTruthy(f.1)
    {
      var i :| 0 <= i < |pairs| && pairs[i] == f;
      assert outs[i] in outs;
    }
    FilterKeepsAll(pairs, (f: (string, Out)) => OutTruthy(f.1));
  }

  /** `undefined` as the whole configuration: the main simplifier gives
      `null` unless false values are included, where the repository's test
      expects `undefined` (src/index.spec.ts:89-92). */
  lemma MainUndefinedConfig(o: Simplify.Options, h: Heap)
    requires Wf(h)
    ensures Simplify.Simplified(o, h, Undef)
      == if o.includeFalseValues && o.depth != Some(0) then OUndef else ONull
  {
  }

  /** `{ foo: () => {} }` without function names: the function becomes
      `null`, nothing is kept, and the main simplifier answers `null` where
      the repository's test expects `{}` (src/index.spec.ts:94-97). */
  lemma MainFunctionOnlyConfig(o: Simplify.Options, h: Heap, name: string)
    requires Wf(h) && 0 in h && h[0] == Obj([("foo", Func(name))])
    requires !o.includeFalseValues && !o.showFunctionNames && o.depth != Some(0)
    ensures Simplify.Simplified(o, h, Ref(0)) == ONull
  {
    var t1 := [Simplify.Entry([], 0, false)];
    assert [] + [Simplify.Entry([], 0, false)] == t1;
    SimplifyProps.ContainerRule(o, h, 0, 0, [], []);
    Simplify.RunStep(o, h, h[0], 0, 1, [], t1);
    var step := Simplify.Level(o, h, Func(name), 1, [] + [Simplify.SegAt(h[0], 0)], t1);
    assert step.0 == ONull by {
      if o.depth == Some(1) {
        SimplifyProps.DepthCut(o, h, Func(name), 1, [] + [Simplify.SegAt(h[0], 0)], t1);
      } else {
        SimplifyProps.FunctionRule(o, h, name, 1, [] + [Simplify.SegAt(h[0], 0)], t1);
      }
    }
    assert !Simplify.Keep(o, step.0);
  }
}
