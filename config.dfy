/** The plugin's options as the constructor resolves them (src/index.ts:42-52)
    and the arguments `dumpConfig` passes to the simplifier (src/index.ts:94-100). */
module Config {
  import opened Wrappers
  import opened Values
  import Simplify
  import SimplifyProps

  /** `PluginOptions`: every option may be omitted. */
  datatype PluginOptions = PluginOptions(
    outputPath: Option<string>,
    name: Option<string>,
    depth: Option<int>,
    keepCircularReferences: Option<bool>,
    showFunctionNames: Option<bool>,
    includeFalseValues: Option<bool>)

  /** The readonly fields of a constructed plugin. */
  datatype Plugin = Plugin(
    outputPath: string,
    name: string,
    depth: int,
    keepCircularReferences: bool,
    showFunctionNames: bool,
    includeFalseValues: bool)

  const DefaultDepth := 4
  const DepthError := "[wcd] The \"depth\" option should be a positive number"

  /** `x ? x : fallback` on an optional string. */
  function OrString(x: Option<string>, fallback: string): string
  {
    if x.Some? && x.value != "" then x.value else fallback
  }

  /** `x || false` on an optional flag. */
  function OrFalse(x: Option<bool>): bool
  {
    x.Some? && x.value
  }

  /** The constructor: an omitted or zero depth becomes 4, a negative depth
      throws, and a positive depth is kept. */
  function NewPlugin(options: PluginOptions): (r: Result<Plugin, string>)
    ensures r.Failure? <==> options.depth.Some? && options.depth.value < 0
    ensures r.Failure? ==> r.error == DepthError
    ensures r.Success? ==> r.value.depth > 0
    ensures r.Success? && (options.depth.None? || options.depth.value == 0) ==> r.value.depth == DefaultDepth
    ensures r.Success? && options.depth.Some? && options.depth.value > 0 ==> r.value.depth == options.depth.value
    ensures r.Success? ==> r.value.outputPath != "" && r.value.name != ""
    ensures r.Success? && options.outputPath.Some? && options.outputPath.value != "" ==> r.value.outputPath == options.outputPath.value
    ensures r.Success? && (options.outputPath.None? || options.outputPath.value == "") ==> r.value.outputPath == "./"
    ensures r.Success? && options.name.Some? && options.name.value != "" ==> r.value.name == options.name.value
    ensures r.Success? && (options.name.None? || options.name.value == "") ==> r.value.name == "webpack.config.dump"
    ensures r.Success? ==> (r.value.keepCircularReferences <==> options.keepCircularReferences == Some(true))
    ensures r.Success? ==> (r.value.showFunctionNames <==> options.showFunctionNames == Some(true))
    ensures r.Success? ==> (r.value.includeFalseValues <==> options.includeFalseValues == Some(true))
  {
    var depth := if options.depth.Some? && options.depth.value != 0 then options.depth.value else DefaultDepth;
    if depth < 0 then Failure(DepthError)
    else
      Success(Plugin(
        OrString(options.outputPath, "./"),
        OrString(options.name, "webpack.config.dump"),
        depth,
        OrFalse(options.keepCircularReferences),
        OrFalse(options.showFunctionNames),
        OrFalse(options.includeFalseValues)))
  }

  /** `this.keepCircularReferences ? null : this.depth` (src/index.ts:94). */
  function DumpDepth(p: Plugin): (d: Option<nat>)
    requires p.depth >= 0
    ensures d.None? <==> p.keepCircularReferences
    ensures d.Some? ==> d.value == p.depth
  {
    if p.keepCircularReferences then None else Some(p.depth)
  }

  /** The depth `dumpConfig` passes for the options a plugin was built
      from: no bound exactly when `keepCircularReferences: true` was given,
      otherwise the positive depth the constructor settled on. */
  lemma OptionsDumpDepth(options: PluginOptions)
    requires NewPlugin(options).Success?
    ensures var d := DumpDepth(NewPlugin(options).value);
      && (d.None? <==> options.keepCircularReferences == Some(true))
      && (d.Some? ==> d.value > 0)
      && (d.Some? && options.depth.Some? && options.depth.value > 0 ==> d.value == options.depth.value)
  {
    var p := NewPlugin(options).value;
    assert p.depth > 0;
  }

  /** The snapshot `dumpConfig` hands to the renderer (src/index.ts:94-100):
      unless circular references are kept, it is no deeper than the
      plugin's depth. */
  function DumpSnapshot(p: Plugin, h: Heap, config: Value): (r: Out)
    requires p.depth >= 0 && Wf(h) && InHeap(h, config)
    ensures !p.keepCircularReferences ==> HeightAtMost(r, p.depth)
  {
    var o := Simplify.Options(DumpDepth(p), p.includeFalseValues, p.showFunctionNames);
    SimplifyProps.WholeRun(o, h, config);
    Simplify.Simplified(o, h, config)
  }
}
