/** The Webpack loader body (gemstone-loader-html.js, lines 21-91): merge the
    options, declare the result cacheable, run the markup through PostHTML and
    asset inlining, trim it, validate it, compile it (falling back to a
    renderer that throws at run time when compilation reports errors) and
    serialise the renderer into module text. Any thrown error ends in the
    catch path: one error report, then `done(err)`.

    The libraries the loader calls are parameters (`Collaborators`); each
    returns `Failure(e)` where the library would throw `e`. `LoaderContext`
    is the host's `this`: the hooks `cacheable`, `emitWarning`, `emitError`
    and the `done` callback record what they are given. */
module Loader {
  import opened Wrappers
  import opened MarkupTrim
  import opened ModuleSerializer

  // ---------------------------------------------------------------------
  // Options (lines 25-27)
  // ---------------------------------------------------------------------

  /** An option value as the query parsers produce it. */
  datatype OptionValue = Text(text: string) | Flag(flag: bool)

  type Options = map<string, OptionValue>

  /** `{ scope: "none" }` */
  function DefaultOptions(): Options
  {
    map["scope" := Text("none")]
  }

  /** `Object.assign({}, { scope: "none" }, loaderOptions, queryOptions)`:
      later sources override earlier ones key by key. */
  function MergeOptions(loaderOptions: Options, queryOptions: Options): (m: Options)
    ensures m.Keys == DefaultOptions().Keys + loaderOptions.Keys + queryOptions.Keys
    ensures "scope" in m
    ensures forall key :: key in m ==>
      m[key] == if key in queryOptions then queryOptions[key]
                else if key in loaderOptions then loaderOptions[key]
                else DefaultOptions()[key]
  {
    DefaultOptions() + loaderOptions + queryOptions
  }

  /** The parts of the host context the loader reads: the resource's path
      and query, the `minimize` flag, and what `getOptions(this)` yields for
      this context (an absent option object is the empty map, which
      `Object.assign` treats alike). */
  datatype Env = Env(resourcePath: string, resourceQuery: string, minimize: bool,
                     loaderOptions: Result<Options, string>)

  /** The libraries the loader delegates to, each as a function that returns
      its result or the error it throws. */
  datatype Collaborators = Collaborators(
    parseQuery: string -> Result<Options, string>,
    // PostHTML with the block, style-scope (rootScope), markdown and lorem plugins
    postHtml: (string, OptionValue) -> Result<string, string>,
    // inline-assets: resource path, markup, minimize flag
    inlineAssets: (string, string, bool) -> Result<string, string>,
    validate: string -> Result<seq<string>, string>,
    compile: string -> Result<CompiledRenderer, string>,
    beautify: Beautifier)

  /** Lines 25-27: `getOptions` is evaluated first; the resource query is
      parsed only when it is non-empty (an empty query is falsy). */
  function ResolveOptions(env: Env, c: Collaborators): (r: Result<Options, string>)
    ensures r.Success? ==> "scope" in r.value
    ensures r.Success? <==> env.loaderOptions.Success? && (env.resourceQuery == [] || c.parseQuery(env.resourceQuery).Success?)
  {
    match env.loaderOptions
    case Failure(e) => Failure(e)
    case Success(loaderOptions) =>
      if env.resourceQuery == [] then Success(MergeOptions(loaderOptions, map[]))
      else match c.parseQuery(env.resourceQuery)
        case Failure(e) => Failure(e)
        case Success(queryOptions) => Success(MergeOptions(loaderOptions, queryOptions))
  }

  /** The scope handed to the style-scope plugin is the query's, else the
      loader options', else "none". */
  lemma {:induction false} ScopePrecedence(env: Env, c: Collaborators)
    requires ResolveOptions(env, c).Success?
    ensures ResolveOptions(env, c).value["scope"] ==
      if env.resourceQuery != [] && "scope" in c.parseQuery(env.resourceQuery).value
      then c.parseQuery(env.resourceQuery).value["scope"]
      else if "scope" in env.loaderOptions.value then env.loaderOptions.value["scope"]
      else Text("none")
  {
  }

  // ---------------------------------------------------------------------
  // Markup (lines 33-57)
  // ---------------------------------------------------------------------

  /** PostHTML, then asset inlining, then the two trims, in that order. */
  function PrepareMarkup(content: string, env: Env, c: Collaborators, options: Options): Result<string, string>
    requires "scope" in options
  {
    match c.postHtml(content, options["scope"])
    case Failure(e) => Failure(e)
    case Success(html) =>
      match c.inlineAssets(env.resourcePath, html, env.minimize)
      case Failure(e) => Failure(e)
      case Success(inlined) => Success(TrimTrailing(StripLeading(inlined)))
  }

  /** The markup that the validator and the compiler receive, or the error
      thrown before it exists. */
  function Markup(content: string, env: Env, c: Collaborators): Result<string, string>
  {
    match ResolveOptions(env, c)
    case Failure(e) => Failure(e)
    case Success(options) => PrepareMarkup(content, env, c, options)
  }

  /** The markup handed to Vue is the inlined markup after both trims: a
      piece of it that is empty or ends at `>`, and that neither trim would
      change again. */
  lemma {:induction false} MarkupHandedToVue(content: string, env: Env, c: Collaborators, inlined: string)
    requires ResolveOptions(env, c).Success?
    requires c.postHtml(content, ResolveOptions(env, c).value["scope"]).Success?
    requires c.inlineAssets(env.resourcePath, c.postHtml(content, ResolveOptions(env, c).value["scope"]).value, env.minimize) == Success(inlined)
    ensures Markup(content, env, c) == Success(TrimTrailing(StripLeading(inlined)))
    ensures var m := TrimTrailing(StripLeading(inlined));
      var cut := |inlined| - |StripLeading(inlined)|;
      && (m == [] || m[|m| - 1] == '>')
      && cut + |m| <= |inlined| && m == inlined[cut..cut + |m|]
      && StripLeading(m) == m
      && TrimTrailing(m) == m
  {
    TrimsReachFixedPoint(inlined);
  }

  // ---------------------------------------------------------------------
  // Diagnostics (lines 59-74, 87-90)
  // ---------------------------------------------------------------------

  /** What the host hooks receive: `emitWarning(msg)` and `emitError(msg)`. */
  datatype Diagnostic = Warning(message: string) | Error(message: string)

  /** What `done` receives: `done(null, module)` or `done(err)`. */
  datatype Completion = Succeeded(moduleText: string) | Failed(error: string)

  const WarningPrefix: string := "gemstone-loader-html: Vue [template-validator]: WARNING:\n"
  const CompilerPrefix: string := "gemstone-loader-html: Vue [template-compiler]: ERROR: "
  const CaughtPrefix: string := "gemstone-loader-html: ERROR: "

  /** Lines 62-63: the validator's warnings, one per line, in one report. */
  function ValidatorMessage(warnings: seq<string>): string
  {
    WarningPrefix + Join(warnings, "\n")
  }

  /** Lines 68-69: the compiler's errors, one per line, in one report. */
  function CompilerMessage(errors: seq<string>): string
  {
    CompilerPrefix + Join(errors, "\n")
  }

  /** Line 88: `"gemstone-loader-html: ERROR: " + err`. */
  function CaughtMessage(error: string): string
  {
    CaughtPrefix + error
  }

  /** Lines 61-63: a warning is reported only for a non-empty list. */
  function ValidationReports(warnings: seq<string>): (ds: seq<Diagnostic>)
    ensures |ds| <= 1
    ensures ds != [] <==> warnings != []
    ensures forall d :: d in ds ==> d == Warning(ValidatorMessage(warnings))
  {
    if |warnings| > 0 then [Warning(ValidatorMessage(warnings))] else []
  }

  /** Line 71: the render body of the fallback renderer. */
  const FallbackRender: string := "throw new Error(\"Vue template compilation already failed under build-time\")"

  /** Lines 70-73: no static render functions, a render body that throws. */
  const FallbackRenderer: CompiledRenderer := CompiledRenderer(FallbackRender, [], [])

  /** Lines 67-74: the renderer that gets serialised, and the reports made
      on the way. */
  function CheckCompiled(compiled: CompiledRenderer): (CompiledRenderer, seq<Diagnostic>)
  {
    if |compiled.errors| > 0 then (FallbackRenderer, [Error(CompilerMessage(compiled.errors))])
    else (compiled, [])
  }

  // ---------------------------------------------------------------------
  // The whole run (lines 21-91)
  // ---------------------------------------------------------------------

  /** The reports made by a stretch of the run, and what `done` receives
      at its end. */
  datatype Outcome = Outcome(reports: seq<Diagnostic>, completion: Completion)

  /** The catch path (lines 87-90) after the reports made so far. */
  function Abort(reported: seq<Diagnostic>, error: string): (o: Outcome)
  {
    Outcome(reported + [Error(CaughtMessage(error))], Failed(error))
  }

  /** Lines 76-86: serialise the renderer and hand the module to `done`. */
  function Finish(reported: seq<Diagnostic>, renderer: CompiledRenderer, beautify: Beautifier): Outcome
  {
    match Serialize(beautify, renderer)
    case Failure(e) => Abort(reported, e)
    case Success(text) => Outcome(reported, Succeeded(text))
  }

  /** Lines 59-86, from the trimmed markup on. Validation is advisory: its
      warnings never stop the compiler. */
  function AfterMarkup(markup: string, c: Collaborators): Outcome
  {
    match c.validate(markup)
    case Failure(e) => Abort([], e)
    case Success(warnings) =>
      match c.compile(markup)
      case Failure(e) => Abort(ValidationReports(warnings), e)
      case Success(compiled) =>
        var (renderer, compileReports) := CheckCompiled(compiled);
        Finish(ValidationReports(warnings) + compileReports, renderer, c.beautify)
  }

  /** What one invocation leaves behind: whether `cacheable(true)` was
      called, the reports in emission order, and what `done` received. */
  datatype Report = Report(cacheable: bool, diagnostics: seq<Diagnostic>, completion: Completion)

  /** One invocation of the loader on `content` (lines 21-91). */
  function Run(content: string, env: Env, c: Collaborators): Report
  {
    match ResolveOptions(env, c)
    case Failure(e) =>
      var o := Abort([], e);
      Report(false, o.reports, o.completion)
    case Success(options) =>
      var o := match PrepareMarkup(content, env, c, options)
               case Failure(e) => Abort([], e)
               case Success(markup) => AfterMarkup(markup, c);
      Report(true, o.reports, o.completion)
  }

  /** The run in two parts: up to the trimmed markup, and from it on. */
  lemma {:induction false} RunThroughMarkup(content: string, env: Env, c: Collaborators)
    ensures Run(content, env, c).cacheable <==> ResolveOptions(env, c).Success?
    ensures Markup(content, env, c).Failure? ==>
      && Run(content, env, c).diagnostics == [Error(CaughtMessage(Markup(content, env, c).error))]
      && Run(content, env, c).completion == Failed(Markup(content, env, c).error)
    ensures Markup(content, env, c).Success? ==>
      && Run(content, env, c).diagnostics == AfterMarkup(Markup(content, env, c).value, c).reports
      && Run(content, env, c).completion == AfterMarkup(Markup(content, env, c).value, c).completion
  {
  }

  /** The messages of the warning reports, in order. */
  function Warnings(ds: seq<Diagnostic>): seq<string>
  {
    if ds == [] then []
    else (if ds[0].Warning? then [ds[0].message] else []) + Warnings(ds[1..])
  }

  /** The messages of the error reports, in order. */
  function Errors(ds: seq<Diagnostic>): seq<string>
  {
    if ds == [] then []
    else (if ds[0].Error? then [ds[0].message] else []) + Errors(ds[1..])
  }

  lemma {:induction false} ReportsAppend(a: seq<Diagnostic>, b: seq<Diagnostic>)
    ensures Warnings(a + b) == Warnings(a) + Warnings(b)
    ensures Errors(a + b) == Errors(a) + Errors(b)
  {
    if a != [] {
      assert a + b != [] && (a + b)[0] == a[0];
      assert (a + b)[1..] == a[1..] + b;
      ReportsAppend(a[1..], b);
      var w := if a[0].Warning? then [a[0].message] else [];
      var e := if a[0].Error? then [a[0].message] else [];
      assert Warnings(a + b) == w + (Warnings(a[1..]) + Warnings(b));
      assert Errors(a + b) == e + (Errors(a[1..]) + Errors(b));
    } else {
      assert a + b == b;
    }
  }

  /** Reporting one warning or one error. */
  lemma {:induction false} ReportsOne(d: Diagnostic)
    ensures Warnings([d]) == if d.Warning? then [d.message] else []
    ensures Errors([d]) == if d.Error? then [d.message] else []
  {
    assert [d][1..] == [];
  }

  /** From the markup on: a warning report exactly when the validator
      returned warnings; one compiler report when the compiler returned
      errors; one catch-path report, last, when the run fails. */
  lemma {:induction false} AfterMarkupReports(markup: string, c: Collaborators)
    ensures var o := AfterMarkup(markup, c);
      && Warnings(o.reports) ==
           (if c.validate(markup).Success? && c.validate(markup).value != []
            then [ValidatorMessage(c.validate(markup).value)] else [])
      && Errors(o.reports) ==
           (if c.validate(markup).Success? && c.compile(markup).Success? && c.compile(markup).value.errors != []
            then [CompilerMessage(c.compile(markup).value.errors)] else [])
           + (if o.completion.Failed? then [CaughtMessage(o.completion.error)] else [])
  {
    match c.validate(markup)
    case Failure(e) =>
      ReportsOne(Error(CaughtMessage(e)));
    case Success(warnings) =>
      var warned := ValidationReports(warnings);
      if warnings != [] {
        ReportsOne(Warning(ValidatorMessage(warnings)));
      }
      match c.compile(markup)
      case Failure(e) =>
        assert AfterMarkup(markup, c) == Abort(warned, e);
        ReportsAppend(warned, [Error(CaughtMessage(e))]);
        ReportsOne(Error(CaughtMessage(e)));
      case Success(compiled) =>
        var (renderer, compileReports) := CheckCompiled(compiled);
        assert AfterMarkup(markup, c) == Finish(warned + compileReports, renderer, c.beautify);
        if compiled.errors != [] {
          ReportsOne(Error(CompilerMessage(compiled.errors)));
        }
        ReportsAppend(warned, compileReports);
        match Serialize(c.beautify, renderer)
        case Failure(e) =>
          ReportsAppend(warned + compileReports, [Error(CaughtMessage(e))]);
          ReportsOne(Error(CaughtMessage(e)));
        case Success(text) =>
  }

  /** The run reached the validator and it returned a non-empty list. */
  predicate ValidatorWarned(content: string, env: Env, c: Collaborators)
  {
    && Markup(content, env, c).Success?
    && c.validate(Markup(content, env, c).value).Success?
    && c.validate(Markup(content, env, c).value).value != []
  }

  /** The run reached the compiler and it returned errors. */
  predicate CompilerRejected(content: string, env: Env, c: Collaborators)
  {
    && Markup(content, env, c).Success?
    && c.validate(Markup(content, env, c).value).Success?
    && c.compile(Markup(content, env, c).value).Success?
    && c.compile(Markup(content, env, c).value).value.errors != []
  }

  /** A warning is reported if and only if the validator returned warnings,
      and then exactly once, with all of them joined by newlines. */
  lemma {:induction false} WarningIffValidatorWarns(content: string, env: Env, c: Collaborators)
    ensures Warnings(Run(content, env, c).diagnostics) ==
      if ValidatorWarned(content, env, c)
      then [ValidatorMessage(c.validate(Markup(content, env, c).value).value)]
      else []
  {
    RunThroughMarkup(content, env, c);
    if Markup(content, env, c).Success? {
      AfterMarkupReports(Markup(content, env, c).value, c);
    } else {
      ReportsOne(Error(CaughtMessage(Markup(content, env, c).error)));
    }
  }

  /** Errors are reported once per cause: one compiler report when the
      compiler returned errors, then one catch-path report when the run
      failed, carrying the error that `done` receives. Nothing else is
      reported as an error. */
  lemma {:induction false} ErrorsReportedOnce(content: string, env: Env, c: Collaborators)
    ensures var rep := Run(content, env, c);
      Errors(rep.diagnostics) ==
        (if CompilerRejected(content, env, c)
         then [CompilerMessage(c.compile(Markup(content, env, c).value).value.errors)] else [])
        + (if rep.completion.Failed? then [CaughtMessage(rep.completion.error)] else [])
  {
    RunThroughMarkup(content, env, c);
    if Markup(content, env, c).Success? {
      AfterMarkupReports(Markup(content, env, c).value, c);
    } else {
      ReportsOne(Error(CaughtMessage(Markup(content, env, c).error)));
    }
  }

  /** A failed run ends with its catch-path report, and `done` receives the
      same error that was reported. */
  lemma {:induction false} FailureReportedLast(content: string, env: Env, c: Collaborators)
    ensures var rep := Run(content, env, c);
      rep.completion.Failed? ==>
        && rep.diagnostics != []
        && rep.diagnostics[|rep.diagnostics| - 1] == Error(CaughtMessage(rep.completion.error))
  {
    RunThroughMarkup(content, env, c);
    if Markup(content, env, c).Success? {
      AfterMarkupFailsLast(Markup(content, env, c).value, c);
    }
  }

  lemma {:induction false} AfterMarkupFailsLast(markup: string, c: Collaborators)
    ensures var o := AfterMarkup(markup, c);
      o.completion.Failed? ==> o.reports != [] && o.reports[|o.reports| - 1] == Error(CaughtMessage(o.completion.error))
  {
    if c.validate(markup).Success? && c.compile(markup).Success? {
      var (renderer, compileReports) := CheckCompiled(c.compile(markup).value);
      assert AfterMarkup(markup, c) == Finish(ValidationReports(c.validate(markup).value) + compileReports, renderer, c.beautify);
    }
  }

  /** Lines 66-74, with the compiler reporting errors: exactly one error is
      reported for them, and the module (if it serialises) is the fallback
      whose render throws, with no static render functions. */
  lemma {:induction false} CompileErrorsFallBack(content: string, env: Env, c: Collaborators)
    requires CompilerRejected(content, env, c)
    ensures var rep := Run(content, env, c);
      var fallback := c.beautify(FallbackRender);
      && Errors(rep.diagnostics) ==
           [CompilerMessage(c.compile(Markup(content, env, c).value).value.errors)]
           + (if fallback.Success? then [] else [CaughtMessage(fallback.error)])
      && rep.completion == if fallback.Success?
                           then Succeeded(ModuleText(FunctionHead + fallback.value + FunctionTail, []))
                           else Failed(fallback.error)
  {
    ErrorsReportedOnce(content, env, c);
    RunThroughMarkup(content, env, c);
    SerializeSucceedsIff(c.beautify, FallbackRenderer);
  }

  /** With no compiler errors, the compiled renderer is serialised as it is:
      one wrapper for `render` and one per static render function, in order;
      no error is reported unless serialisation throws. */
  lemma {:induction false} CleanCompileKeepsRenderer(content: string, env: Env, c: Collaborators)
    requires Markup(content, env, c).Success?
    requires c.validate(Markup(content, env, c).value).Success?
    requires c.compile(Markup(content, env, c).value).Success?
    requires c.compile(Markup(content, env, c).value).value.errors == []
    ensures var rep := Run(content, env, c);
      var compiled := c.compile(Markup(content, env, c).value).value;
      && (rep.completion.Succeeded? <==> Serialize(c.beautify, compiled).Success?)
      && (rep.completion.Succeeded? ==>
            && Errors(rep.diagnostics) == []
            && rep.completion.moduleText == ModuleText(ToFunction(c.beautify, compiled.render).value,
                                                       MapToFunction(c.beautify, compiled.staticRenderFns).value)
            && |MapToFunction(c.beautify, compiled.staticRenderFns).value| == |compiled.staticRenderFns|)
  {
    ErrorsReportedOnce(content, env, c);
    RunThroughMarkup(content, env, c);
    SerializeSucceedsIff(c.beautify, c.compile(Markup(content, env, c).value).value);
  }

  /** A throw before the compiler returns (options, PostHTML, inlining,
      validation, compilation) ends the run with exactly one error report
      and no module. */
  lemma {:induction false} EarlyThrowReportedOnce(content: string, env: Env, c: Collaborators)
    requires || Markup(content, env, c).Failure?
             || c.validate(Markup(content, env, c).value).Failure?
             || c.compile(Markup(content, env, c).value).Failure?
    ensures var rep := Run(content, env, c);
      && rep.completion.Failed?
      && Errors(rep.diagnostics) == [CaughtMessage(rep.completion.error)]
  {
    ErrorsReportedOnce(content, env, c);
    RunThroughMarkup(content, env, c);
  }

  // ---------------------------------------------------------------------
  // The host context and the loader as it runs (lines 21-91)
  // ---------------------------------------------------------------------

  /** The loader's `this`: the host hooks record what they receive. */
  class LoaderContext {
    const env: Env
    var cacheable: bool
    var diagnostics: seq<Diagnostic>
    var completions: seq<Completion>

    constructor (env: Env)
      ensures this.env == env && !cacheable && diagnostics == [] && completions == []
    {
      this.env := env;
      cacheable := false;
      diagnostics := [];
      completions := [];
    }

    /** `this.cacheable(flag)` */
    method Cacheable(flag: bool)
      modifies this
      ensures cacheable == flag
      ensures diagnostics == old(diagnostics) && completions == old(completions)
    {
      cacheable := flag;
    }

    /** `this.emitWarning(message)` */
    method EmitWarning(message: string)
      modifies this
      ensures diagnostics == old(diagnostics) + [Warning(message)]
      ensures cacheable == old(cacheable) && completions == old(completions)
    {
      diagnostics := diagnostics + [Warning(message)];
    }

    /** `this.emitError(message)` */
    method EmitError(message: string)
      modifies this
      ensures diagnostics == old(diagnostics) + [Error(message)]
      ensures cacheable == old(cacheable) && completions == old(completions)
    {
      diagnostics := diagnostics + [Error(message)];
    }

    /** The `done` callback obtained from `this.async()`. */
    method Done(completion: Completion)
      modifies this
      ensures completions == old(completions) + [completion]
      ensures cacheable == old(cacheable) && diagnostics == old(diagnostics)
    {
      completions := completions + [completion];
    }
  }

  /** The catch handler of lines 87-90. */
  method Catch(ctx: LoaderContext, error: string)
    modifies ctx
    ensures ctx.diagnostics == old(ctx.diagnostics) + [Error(CaughtMessage(error))]
    ensures ctx.completions == old(ctx.completions) + [Failed(error)]
    ensures ctx.cacheable == old(ctx.cacheable)
  {
    ctx.EmitError(CaughtMessage(error));
    ctx.Done(Failed(error));
  }

  /** The loader function: runs the stages one after the other, reporting
      through the context's hooks, and calls `done` exactly once. What it
      leaves behind is `Run`. */
  method Load(ctx: LoaderContext, content: string, c: Collaborators)
    modifies ctx
    ensures var rep := Run(content, ctx.env, c);
      && ctx.diagnostics == old(ctx.diagnostics) + rep.diagnostics
      && ctx.completions == old(ctx.completions) + [rep.completion]
      && ctx.cacheable == (rep.cacheable || old(ctx.cacheable))
  {
    RunThroughMarkup(content, ctx.env, c);

    // lines 25-31: options, then the cacheable declaration
    var resolved := ResolveOptions(ctx.env, c);
    if resolved.Failure? {
      Catch(ctx, resolved.error);
      return;
    }
    var options := resolved.value;
    ctx.Cacheable(true);

    // lines 34-57: PostHTML, asset inlining, trims
    var response := c.postHtml(content, options["scope"]);
    if response.Failure? {
      Catch(ctx, response.error);
      return;
    }
    var result := response.value;
    var inlined := c.inlineAssets(ctx.env.resourcePath, result, ctx.env.minimize);
    if inlined.Failure? {
      Catch(ctx, inlined.error);
      return;
    }
    result := inlined.value;
    result := TrimTrailing(StripLeading(result));
    assert Markup(content, ctx.env, c) == Success(result);

    // lines 59-86
    CompileMarkup(ctx, result, c);
  }

  /** Lines 59-86 on the trimmed markup: validate (a warning only for a
      non-empty list), compile (on errors, one error report and the fallback
      renderer), serialise, and hand the module to `done`. */
  method CompileMarkup(ctx: LoaderContext, markup: string, c: Collaborators)
    modifies ctx
    ensures ctx.diagnostics == old(ctx.diagnostics) + AfterMarkup(markup, c).reports
    ensures ctx.completions == old(ctx.completions) + [AfterMarkup(markup, c).completion]
    ensures ctx.cacheable == old(ctx.cacheable)
  {
    var warnings := c.validate(markup);
    if warnings.Failure? {
      Catch(ctx, warnings.error);
      return;
    }
    if |warnings.value| > 0 {
      ctx.EmitWarning(ValidatorMessage(warnings.value));
    }
    ghost var warned := ValidationReports(warnings.value);
    assert ctx.diagnostics == old(ctx.diagnostics) + warned;

    var renderer := c.compile(markup);
    if renderer.Failure? {
      assert AfterMarkup(markup, c) == Abort(warned, renderer.error);
      Catch(ctx, renderer.error);
      return;
    }
    var compiled := renderer.value;
    var effective := compiled;
    if |compiled.errors| > 0 {
      ctx.EmitError(CompilerMessage(compiled.errors));
      effective := FallbackRenderer;
    }
    ghost var reported := warned + CheckCompiled(compiled).1;
    assert ctx.diagnostics == old(ctx.diagnostics) + reported;
    assert effective == CheckCompiled(compiled).0;
    assert AfterMarkup(markup, c) == Finish(reported, effective, c.beautify);

    var text := Serialize(c.beautify, effective);
    if text.Failure? {
      Catch(ctx, text.error);
      return;
    }
    ctx.Done(Succeeded(text.value));
  }
}
