/** The main simplifier as the source runs it: recursive methods that
    update a shared `references` table in place and build each container's
    result in a loop (src/index.ts:111-206). */
module Simplifier {
  import opened Wrappers
  import opened Values
  import opened Labels
  import opened Simplify

  /** One traversal: the resolved options, the configuration graph, and the
      `references` record that every recursive call shares. */
  class Traversal {
    const opts: Options
    const heap: Heap
    var references: Table

    /** The default argument `references = {}` of the top-level call. */
    constructor (opts: Options, heap: Heap)
      ensures this.opts == opts && this.heap == heap && references == []
    {
      this.opts := opts;
      this.heap := heap;
      references := [];
    }

    /** `simplifyLevel(config, depth, includeFalseValues, showFunctionNames,
        currentDepth, path, references)`: returns what `Level` returns and
        leaves the table as `Level` leaves it. */
    method SimplifyLevel(v: Value, cur: nat, path: Path) returns (r: Out)
      requires Wf(heap) && InHeap(heap, v) && Fits(opts, cur)
      modifies this
      ensures (r, references) == Level(opts, heap, v, cur, path, old(references))
      decreases Unregistered(opts, heap, references), DepthLeft(opts, cur), 1
    {
      if opts.depth.Some? && cur == opts.depth.value {
        return ONull;
      }
      match v {
        case Func(name) =>
          var text := FunctionLabel(name);
          r := if opts.showFunctionNames && text != "" then OStr(text) else ONull;
        case Ref(id) =>
          var found := if opts.depth.None? then GetRef(references, id) else None;
          if found.Some? {
            var e := references[found.value];
            r := if !e.empty || opts.includeFalseValues then OStr(ReferenceLabel(PathString(e.path))) else ONull;
            return;
          }
          r := Register(id, cur, path);
        case Regex(source) =>
          r := ORegex(source);
        case _ =>
          r := if Truthy(v) || opts.includeFalseValues then Scalar(v) else ONull;
      }
    }

    /** A container met for the first time (src/index.ts:138-164 and
        177-202): `references[path] = newRef` with `empty: false`, then the
        children are reduced, then `newRef.empty` is set and the formatted
        level returned. */
    method Register(id: nat, cur: nat, path: Path) returns (r: Out)
      requires Wf(heap) && id in heap && Fits(opts, cur) && opts.depth != Some(cur)
      requires opts.depth.None? ==> id !in Linked(references)
      modifies this
      ensures (r, references) == Level(opts, heap, Ref(id), cur, path, old(references))
      decreases Unregistered(opts, heap, references), DepthLeft(opts, cur), 0
    {
      RegisterLevel(opts, heap, id, cur, path, references);
      var idx := |references|;
      UnregisteredShrinks(opts, heap, references, Entry(path, id, false));
      references := references + [Entry(path, id, false)];
      var c := heap[id];
      if c.Arr? {
        var res := ReduceItems(c, cur + 1, path);
        references := references[idx := references[idx].(empty := |res| == 0)];
        r := if |res| > 0 || opts.includeFalseValues then OArr(res) else ONull;
      } else {
        var res := ReduceFields(c, cur + 1, path);
        references := references[idx := references[idx].(empty := |res| == 0)];
        r := if |res| > 0 || opts.includeFalseValues then OObj(res) else ONull;
      }
    }

    /** The `reduce` over an array's items (src/index.ts:144-158): each item
        is simplified one level down and pushed when it is truthy or
        `includeFalseValues` holds. */
    method ReduceItems(c: Container, cur: nat, path: Path) returns (res: seq<Out>)
      requires Wf(heap) && ContainerIn(heap, c) && c.Arr? && Fits(opts, cur)
      modifies this
      ensures var run := Run(opts, heap, c, 0, cur, path, old(references));
        res == KeepItems(opts, run.0) && references == run.1
      decreases Unregistered(opts, heap, references), DepthLeft(opts, cur), 2
    {
      ghost var t0 := references;
      ghost var whole := Run(opts, heap, c, 0, cur, path, t0);
      ghost var done: seq<Out> := [];
      res := [];
      var i := 0;
      assert done + whole.0 == whole.0;
      while i < |c.items|
        invariant 0 <= i <= |c.items| && |done| == i
        invariant t0 <= references
        invariant res == KeepItems(opts, done)
        invariant whole == (done + Run(opts, heap, c, i, cur, path, references).0, Run(opts, heap, c, i, cur, path, references).1)
      {
        UnregisteredMono(opts, heap, t0, references);
        RunAdvance(opts, heap, c, i, cur, path, references, done, whole);
        var value := SimplifyLevel(c.Child(i), cur, path + [SegAt(c, i)]);
        KeepItemsAppend(opts, done, value);
        if Keep(opts, value) {
          res := res + [value];
        }
        done := done + [value];
        i := i + 1;
      }
      assert done + [] == done;
    }

    /** The `reduce` over an object's keys (src/index.ts:183-197): each
        value is simplified one level down and stored under its key when it
        is truthy or `includeFalseValues` holds. */
    method ReduceFields(c: Container, cur: nat, path: Path) returns (res: seq<(string, Out)>)
      requires Wf(heap) && ContainerIn(heap, c) && c.Obj? && Fits(opts, cur)
      modifies this
      ensures var run := Run(opts, heap, c, 0, cur, path, old(references));
        res == KeepFields(opts, Pair(c.fields, run.0)) && references == run.1
      decreases Unregistered(opts, heap, references), DepthLeft(opts, cur), 2
    {
      ghost var t0 := references;
      ghost var whole := Run(opts, heap, c, 0, cur, path, t0);
      ghost var done: seq<Out> := [];
      res := [];
      var i := 0;
      assert done + whole.0 == whole.0;
      while i < |c.fields|
        invariant 0 <= i <= |c.fields| && |done| == i
        invariant t0 <= references
        invariant res == KeepFields(opts, Pair(c.fields[..i], done))
        invariant whole == (done + Run(opts, heap, c, i, cur, path, references).0, Run(opts, heap, c, i, cur, path, references).1)
      {
        UnregisteredMono(opts, heap, t0, references);
        RunAdvance(opts, heap, c, i, cur, path, references, done, whole);
        var key := c.fields[i].0;
        var value := SimplifyLevel(c.Child(i), cur, path + [SegAt(c, i)]);
        KeepFieldsStep(opts, c.fields, done, i, value);
        if Keep(opts, value) {
          res := res + [(key, value)];
        }
        done := done + [value];
        i := i + 1;
      }
      assert c.fields[..i] == c.fields && done + [] == done;
    }
  }

  /** `simplifyConfig` (src/index.ts:70-82) run on a fresh table. */
  method SimplifyConfig(o: Options, h: Heap, config: Value) returns (r: Out)
    requires Wf(h) && InHeap(h, config)
    ensures r == Simplified(o, h, config)
  {
    var traversal := new Traversal(o, h);
    r := traversal.SimplifyLevel(config, 0, []);
  }
}
