# gemstone-loader-html, modelled in Dafny

`gemstone-loader-html` is a Webpack loader that turns an HTML template file
into a precompiled Vue renderer module. It merges its options, declares its
result cacheable, runs the markup through PostHTML (block, style-scope,
markdown and lorem plugins) and asset inlining, trims the markup down to a
single top-level element with two regular-expression replacements, validates
it, compiles it with the Vue template compiler (falling back to a renderer
that throws at run time when the compiler reports errors), and serialises the
renderer as `module.exports = { render: ..., staticRenderFns: [...] }`. Any
thrown error is reported once through `emitError` and passed to `done`.

The project has four modules:

- `Wrappers` (`wrappers.dfy`): `Option` and `Result`. A `Failure(e)` stands
  for an error thrown by a library, in the string form that the catch path
  prints.
- `MarkupTrim` (`markup_trim.dfy`): the two replacements of lines 55-57.
  Each one is written the way a backtracking regex engine runs that one
  pattern. `LazyOpenerSearch` is the lazy `(?:.|\n)*?` anchored at position
  0. `GreedyRunEnd` and `TrailingMatchStart` are the greedy `(?:[^>]|\n)*`
  tried at successive start positions. Lemmas then state what each
  replacement does.
- `ModuleSerializer` (`serializer.dfy`): `toFunction`, the `map`/`join` of
  the static render functions, and the module template literal of lines
  77-84.
- `Loader` (`loader.dfy`): the option merge, the stages and their error
  handling. `Run` is the pure specification of one invocation: whether
  `cacheable(true)` was called, the warnings and errors in emission order,
  and what `done` received. `LoaderContext` is the host's `this`; its
  methods record what the hooks receive. `Load` is the imperative loader
  body and is proved to leave exactly what `Run` says.

The libraries are fields of `Collaborators`: `parseQuery`, PostHTML with its
plugins, `inline-assets`, the validator, the compiler and `js-beautify`.
What `getOptions(this)` yields is a field of `Env`.

The leading strip is the single regex `/^(?:.|\n)*?(<[a-zA-Z_])/`, which
knows nothing about comments. Two consequences follow:

- `StripLeadingInsideCommentExample`: a tag inside a leading comment is
  where the strip cuts.
- `StripLeadingCarriageReturnExample`: a `\r` before the first tag (CRLF
  line endings) stops the strip, so nothing is removed. JavaScript's `.`
  does not match `\r`, U+2028 or U+2029.

Two errors can be reported in one run: when the compiler returns errors
(one report) and pretty-printing the fallback renderer then throws (the
catch report). `ErrorsReportedOnce` and `CompileErrorsFallBack` state this
case exactly.

## Model

| member | source | states |
|---|---|---|
| MarkupTrim.LazyOpenerSearch | gemstone-loader-html.js:56 | the lazy anchored search finds the first `<` followed by an ASCII letter or `_` with no `\r`, U+2028 or U+2029 before it; when it fails, every opener has such a character before it |
| MarkupTrim.StripLeading | gemstone-loader-html.js:55-56 | the leading strip always returns a suffix of its input |
| MarkupTrim.StripLeadingCutsAtFirstOpener | gemstone-loader-html.js:56 | when the strip changes the markup, it cuts at the first `<[A-Za-z_]`, nothing before that point blocks the match, and the two-character opener is kept at the head of the result |
| MarkupTrim.StripLeadingAtOpener | gemstone-loader-html.js:56 | conversely, a first opener with nothing blocking before it is exactly where the strip cuts |
| MarkupTrim.StripLeadingUnchanged | gemstone-loader-html.js:56 | with no opener, or with a `\r`/U+2028/U+2029 before the first opener, the markup is returned unchanged |
| MarkupTrim.StripLeadingIdempotent | gemstone-loader-html.js:56 | stripping twice gives the same result as stripping once |
| MarkupTrim.StripLeadingAfterCommentExample | gemstone-loader-html.js:53-56 | a template behind a leading comment keeps its `<div` once, at the head |
| MarkupTrim.StripLeadingInsideCommentExample | gemstone-loader-html.js:56 | the strip is not comment-aware: a tag inside a leading comment is where it cuts |
| MarkupTrim.StripLeadingCarriageReturnExample | gemstone-loader-html.js:56 | a carriage return before the first tag stops the strip |
| MarkupTrim.GreedyRunEnd | gemstone-loader-html.js:57 | the greedy run of non-`>` characters stops at the first `>` or at the end |
| MarkupTrim.TrailingMatchStart | gemstone-loader-html.js:57 | the leftmost start where the trailing pattern matches has no `>` after it and comes right after a `>` (unless it is the first position tried) |
| MarkupTrim.TrimTrailing | gemstone-loader-html.js:57 | the trailing trim returns a prefix of its input, never longer, with no `>` after it, and empty or ending in `>` |
| MarkupTrim.TrimTrailingUnique | gemstone-loader-html.js:57 | that prefix is the only one that ends at a `>` (or is empty) and leaves no `>` behind |
| MarkupTrim.TrimTrailingEmptyIff | gemstone-loader-html.js:57 | the trimmed markup is empty exactly when the input has no `>` |
| MarkupTrim.TrimTrailingIdempotent | gemstone-loader-html.js:57 | trimming an already trimmed string changes nothing |
| MarkupTrim.LastIndexOf | gemstone-loader-html.js:57 | reference definition: the last occurrence of a character, found by scanning from the end |
| MarkupTrim.TrimTrailingEndsAtLastClose | gemstone-loader-html.js:57 | the trim keeps exactly the prefix up to and including the last `>`, or nothing if there is none |
| MarkupTrim.TrimsReachFixedPoint | gemstone-loader-html.js:55-57 | strip-then-trim keeps one contiguous piece of the markup, and neither replacement changes that piece again |
| MarkupTrim.TrimKeepsOpener | gemstone-loader-html.js:55-57 | markup that starts with an opener is still a fixed point of the strip after the trailing trim |
| MarkupTrim.SearchFailsOnPrefix | gemstone-loader-html.js:56 | if the leading match fails on a string, it fails on every prefix of it |
| MarkupTrim.TrimKeepsUnmatched | gemstone-loader-html.js:55-57 | markup on which the leading match fails still fails it after the trailing trim |
| ModuleSerializer.Join | gemstone-loader-html.js:82 | `xs.join(sep)`, also used for the reports of lines 63 and 69; no contract of its own: see `JoinAt` and `JoinOffsetStep` |
| ModuleSerializer.JoinOffsetStep | gemstone-loader-html.js:82 | element `k + 1` of a join starts right after element `k` and one separator, so the join keeps the list's order |
| ModuleSerializer.JoinAt | gemstone-loader-html.js:82 | `join` keeps every element in order, each at its offset, with the separator between consecutive elements |
| ModuleSerializer.ToFunction | gemstone-loader-html.js:77-78 | `toFunction` throws exactly when the pretty-printer throws; otherwise the beautified code can be read back from between the fixed `function () { ` and ` }` |
| ModuleSerializer.MapToFunction | gemstone-loader-html.js:82 | mapping gives one wrapper per static render body, in the same order, or the error of the first body that fails |
| ModuleSerializer.ModuleText | gemstone-loader-html.js:79-84 | the module template literal; no contract of its own: see `ModuleTextLayout`, `ModuleTextRenderAt`, `ModuleTextStaticAt` |
| ModuleSerializer.Serialize | gemstone-loader-html.js:77-84 | wrap the render body and each static body, then fill the template; no contract of its own: see `SerializeSucceedsIff` |
| ModuleSerializer.ModuleTextLayout | gemstone-loader-html.js:79-84 | the module text holds the render wrapper right after `render: ` and each static wrapper at its offset in the list, in order |
| ModuleSerializer.ModuleTextRenderAt | gemstone-loader-html.js:80 | the render wrapper follows `render: ` directly |
| ModuleSerializer.ModuleTextStaticAt | gemstone-loader-html.js:81-83 | static wrapper `k` sits at its join offset inside `staticRenderFns: [ ... ]` |
| ModuleSerializer.SerializeSucceedsIff | gemstone-loader-html.js:77-84 | serialisation succeeds exactly when the render body and every static body pretty-print; it then gives one wrapper per static body |
| Loader.MergeOptions | gemstone-loader-html.js:25-27 | merged keys are the union of the three sources; per key, the resource query overrides the loader options, which override the `scope: "none"` default |
| Loader.ResolveOptions | gemstone-loader-html.js:25-27 | options resolve exactly when `getOptions` and (for a non-empty resource query) `parseQuery` do not throw; `scope` is then always present |
| Loader.ScopePrecedence | gemstone-loader-html.js:25-27 | `scope` is the query's, else the loader options', else "none" |
| Loader.PrepareMarkup | gemstone-loader-html.js:33-57 | PostHTML, then inlining, then both trims; no contract of its own: see `MarkupHandedToVue` |
| Loader.Markup | gemstone-loader-html.js:25-57 | the markup the validator and compiler receive, or the error thrown before it exists; no contract of its own: see `MarkupHandedToVue`, `RunThroughMarkup` |
| Loader.MarkupHandedToVue | gemstone-loader-html.js:34-57 | the trims come after PostHTML and inlining; the markup handed to Vue is a contiguous piece of the inlined markup, empty or ending in `>`, and a fixed point of both trims |
| Loader.ValidatorMessage | gemstone-loader-html.js:62-63 | the warning prefix and the validator's warnings joined by newlines; no contract of its own: see `ValidationReports`, `WarningIffValidatorWarns` |
| Loader.CompilerMessage | gemstone-loader-html.js:68-69 | the compiler prefix and the compiler's errors joined by newlines; no contract of its own: see `ErrorsReportedOnce`, `CompileErrorsFallBack` |
| Loader.CaughtMessage | gemstone-loader-html.js:88 | the catch prefix followed by the error; no contract of its own: see `FailureReportedLast`, `EarlyThrowReportedOnce` |
| Loader.CheckCompiled | gemstone-loader-html.js:66-74 | the renderer to serialise (the compiled one, or the fallback on errors) and the compiler report; no contract of its own: see `CompileErrorsFallBack`, `CleanCompileKeepsRenderer` |
| Loader.Abort | gemstone-loader-html.js:87-90 | the catch path after the reports made so far; no contract of its own: see `FailureReportedLast`, `AfterMarkupFailsLast`, `EarlyThrowReportedOnce` |
| Loader.Finish | gemstone-loader-html.js:76-86 | serialise and hand the module to `done`, or take the catch path; no contract of its own: see `CleanCompileKeepsRenderer`, `CompileErrorsFallBack` |
| Loader.AfterMarkup | gemstone-loader-html.js:59-90 | validation, compilation with fallback, serialisation and `done`, from the trimmed markup on; no contract of its own: see `AfterMarkupReports`, `AfterMarkupFailsLast`, `CompileMarkup` |
| Loader.Run | gemstone-loader-html.js:21-91 | one invocation: the cacheable flag, the reports in order and what `done` receives; no contract of its own: see `Load`, `RunThroughMarkup`, `WarningIffValidatorWarns`, `ErrorsReportedOnce`, `FailureReportedLast` |
| Loader.ValidationReports | gemstone-loader-html.js:60-63 | a validator report is made exactly when the list is non-empty, at most once, with the fixed prefix and the warnings joined by newlines |
| Loader.RunThroughMarkup | gemstone-loader-html.js:21-57 | `cacheable(true)` is called exactly when the options resolve, before any stage runs; a throw before the markup exists is reported once and ends the run |
| Loader.AfterMarkupReports | gemstone-loader-html.js:59-90 | from the trimmed markup on: a warning report exactly when the validator warns; one compiler report when the compiler returns errors; one catch report when the run fails |
| Loader.WarningIffValidatorWarns | gemstone-loader-html.js:60-63 | over the whole run, a warning is reported if and only if the validator returned a non-empty list, and then exactly once |
| Loader.ErrorsReportedOnce | gemstone-loader-html.js:66-90 | over the whole run, the error reports are one compiler report (when it returned errors) followed by one catch report (when the run failed); nothing else is reported as an error |
| Loader.FailureReportedLast | gemstone-loader-html.js:87-90 | a failed run ends with its catch report, and `done` receives the same error |
| Loader.AfterMarkupFailsLast | gemstone-loader-html.js:87-90 | the same, from the trimmed markup on |
| Loader.CompileErrorsFallBack | gemstone-loader-html.js:66-74 | on compiler errors, exactly one compiler error report; the module uses the fallback renderer whose render throws "Vue template compilation already failed under build-time" and whose `staticRenderFns` is empty |
| Loader.CleanCompileKeepsRenderer | gemstone-loader-html.js:66-84 | with no compiler errors, the compiled renderer is serialised unchanged, with one wrapper per static render function, and no error is reported unless serialisation throws |
| Loader.EarlyThrowReportedOnce | gemstone-loader-html.js:87-90 | a throw from the options, PostHTML, inlining, the validator or the compiler ends the run with exactly one error report and `done(err)` |
| Loader.LoaderContext.Cacheable | gemstone-loader-html.js:31 | records the cacheable flag and nothing else |
| Loader.LoaderContext.EmitWarning | gemstone-loader-html.js:62-63 | appends one warning report |
| Loader.LoaderContext.EmitError | gemstone-loader-html.js:68-69 | appends one error report |
| Loader.LoaderContext.Done | gemstone-loader-html.js:86 | appends one completion |
| Loader.Catch | gemstone-loader-html.js:87-90 | the catch path: one `emitError` with the `gemstone-loader-html: ERROR: ` prefix, then `done(err)` |
| Loader.Load | gemstone-loader-html.js:21-91 | the loader body adds exactly the reports of `Run`, calls `done` exactly once with `Run`'s completion, and sets cacheable as `Run` says |
| Loader.CompileMarkup | gemstone-loader-html.js:59-86 | validation, compilation with fallback, serialisation and `done`, leaving what `AfterMarkup` says |

## Left out

- The PostHTML pipeline and its plugins (block, style-scope, markdown, lorem), `inline-assets`, `vue-template-validator`, `vue-template-compiler`, `js-beautify` and `loader-utils` are external libraries. They are uninterpreted parameters that return a value or a thrown error. Their own behaviour (including inline-assets reading files, and the constant options passed to it and to PostHTML) is not modelled.
- `co`, generators, promises and `this.async()`: the asynchronous plumbing is modelled as one sequential run. A throw from the host's own `done` callback, which the promise's catch would also handle, is not modelled.
- Option values are strings or booleans (`OptionValue`). A `getOptions` result of `null` is the empty map, which `Object.assign` treats the same way. An absent resource query is the empty string, since both are falsy.
- Thrown errors are their string form. `done(err)` receives that same string rather than the error object.
- The compiler result's `errors` field is a sequence. An absent `errors` field is the empty sequence; the `renderer.errors &&` guard treats both the same way.
- Strings are sequences of Unicode scalar values. JavaScript uses UTF-16 code units. The two patterns only test ASCII characters and U+2028/U+2029, so this does not change any result.
- Run time is not modelled. The trailing pattern, tried at each start position, does quadratic work in the worst case; the model describes only its result.
- Determinism and cacheability are given by construction: `Run` is a function of the source text, the context and the collaborators.
