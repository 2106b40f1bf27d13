/** Serialisation of a compiled Vue renderer into the module text the loader
    hands back to Webpack (gemstone-loader-html.js, lines 77-84). The code
    pretty-printer (js-beautify) is a parameter: it maps code to code, or
    throws. */
module ModuleSerializer {
  import opened Wrappers

  /** What the template compiler returns: the render body, the bodies of the
      static render functions in order, and the compiler's error messages. */
  datatype CompiledRenderer = CompiledRenderer(render: string, staticRenderFns: seq<string>, errors: seq<string>)

  /** The pretty-printer, called with `{ indent_size: 4 }`. */
  type Beautifier = string -> Result<string, string>

  /** `xs.join(sep)` */
  function Join(xs: seq<string>, sep: string): string
  {
    if |xs| == 0 then ""
    else if |xs| == 1 then xs[0]
    else xs[0] + sep + Join(xs[1..], sep)
  }

  /** Where the `k`-th element starts inside `Join(xs, sep)`. */
  function JoinOffset(xs: seq<string>, sep: string, k: nat): nat
    requires k <= |xs|
  {
    if k == 0 then 0 else |xs[0]| + |sep| + JoinOffset(xs[1..], sep, k - 1)
  }

  /** Consecutive elements are laid out in order: element `k + 1` starts
      right after element `k` and one separator. */
  lemma {:induction false} JoinOffsetStep(xs: seq<string>, sep: string, k: nat)
    requires k < |xs|
    ensures JoinOffset(xs, sep, k + 1) == JoinOffset(xs, sep, k) + |xs[k]| + |sep|
  {
    if k > 0 {
      JoinOffsetStep(xs[1..], sep, k - 1);
      assert xs[1..][k - 1] == xs[k];
    }
  }

  /** `part` occurs in `text` starting at index `at`. */
  predicate OccursAt(text: string, part: string, at: int)
  {
    0 <= at && at + |part| <= |text| && text[at..at + |part|] == part
  }

  lemma {:induction false} OccursInSuffix(a: string, b: string, part: string, at: int)
    requires OccursAt(b, part, at)
    ensures OccursAt(a + b, part, |a| + at)
  {
    assert (a + b)[|a| + at..|a| + at + |part|] == b[at..at + |part|];
  }

  lemma {:induction false} OccursInPrefix(a: string, b: string, part: string, at: int)
    requires OccursAt(a, part, at)
    ensures OccursAt(a + b, part, at)
  {
    assert (a + b)[at..at + |part|] == a[at..at + |part|];
  }

  /** Joining keeps every element, in order: element `k` sits at
      `JoinOffset(xs, sep, k)`, and the separator follows each element but
      the last. */
  lemma {:induction false} JoinAt(xs: seq<string>, sep: string, k: nat)
    requires k < |xs|
    ensures OccursAt(Join(xs, sep), xs[k], JoinOffset(xs, sep, k))
    ensures k + 1 < |xs| ==> OccursAt(Join(xs, sep), sep, JoinOffset(xs, sep, k) + |xs[k]|)
  {
    if |xs| == 1 {
      assert Join(xs, sep) == xs[0];
      assert xs[0][0..|xs[0]|] == xs[0];
    } else if k == 0 {
      var rest := Join(xs[1..], sep);
      assert Join(xs, sep) == xs[0] + (sep + rest);
      assert xs[0][0..|xs[0]|] == xs[0];
      OccursInPrefix(xs[0], sep + rest, xs[0], 0);
      assert sep[0..|sep|] == sep;
      OccursInPrefix(sep, rest, sep, 0);
      OccursInSuffix(xs[0], sep + rest, sep, 0);
    } else {
      var rest := Join(xs[1..], sep);
      assert Join(xs, sep) == (xs[0] + sep) + rest;
      JoinAt(xs[1..], sep, k - 1);
      var o := JoinOffset(xs[1..], sep, k - 1);
      OccursInSuffix(xs[0] + sep, rest, xs[k], o);
      if k + 1 < |xs| {
        OccursInSuffix(xs[0] + sep, rest, sep, o + |xs[k]|);
      }
    }
  }

  const FunctionHead: string := "function () { "
  const FunctionTail: string := " }"

  /** `toFunction(code)`: the beautified code as the body of a zero-argument
      function literal. Throws when the pretty-printer throws. */
  function ToFunction(beautify: Beautifier, code: string): (w: Result<string, string>)
    ensures w.Success? <==> beautify(code).Success?
    ensures w.Failure? ==> w.error == beautify(code).error
    ensures w.Success? ==>
      && |w.value| == |FunctionHead| + |beautify(code).value| + |FunctionTail|
      && w.value[..|FunctionHead|] == FunctionHead
      && w.value[|FunctionHead|..|w.value| - |FunctionTail|] == beautify(code).value
      && w.value[|w.value| - |FunctionTail|..] == FunctionTail
  {
    match beautify(code)
    case Failure(e) => Failure(e)
    case Success(body) => Success(FunctionHead + body + FunctionTail)
  }

  /** `codes.map(toFunction)`: one wrapper per code, in the same order; the
      first code whose pretty-printing throws aborts the map with that
      error. */
  function MapToFunction(beautify: Beautifier, codes: seq<string>): (ws: Result<seq<string>, string>)
    ensures ws.Success? ==> |ws.value| == |codes|
    ensures ws.Success? ==> forall k :: 0 <= k < |codes| ==> ToFunction(beautify, codes[k]) == Success(ws.value[k])
    ensures ws.Failure? ==> exists k :: 0 <= k < |codes| && FirstFailure(beautify, codes, k) && ToFunction(beautify, codes[k]) == Failure(ws.error)
  {
    if codes == [] then Success([])
    else match ToFunction(beautify, codes[0])
      case Failure(e) =>
        assert FirstFailure(beautify, codes, 0);
        Failure(e)
      case Success(w) =>
        match MapToFunction(beautify, codes[1..])
        case Failure(e) =>
          ghost var k :| 0 <= k < |codes[1..]| && FirstFailure(beautify, codes[1..], k) && ToFunction(beautify, codes[1..][k]) == Failure(e);
          assert FirstFailure(beautify, codes, k + 1);
          Failure(e)
        case Success(rest) => Success([w] + rest)
  }

  /** `codes[k]` is the first code whose wrapping fails. */
  ghost predicate FirstFailure(beautify: Beautifier, codes: seq<string>, k: nat)
    requires k < |codes|
  {
    ToFunction(beautify, codes[k]).Failure? &&
    forall j :: 0 <= j < k ==> ToFunction(beautify, codes[j]).Success?
  }

  const ModuleOpen: string := "module.exports = {\n            render: "
  const StaticsOpen: string := ",\n            staticRenderFns: [\n                "
  const StaticSeparator: string := ",\n"
  const ModuleClose: string := "\n            ]\n        }"

  /** The template literal of lines 79-84, with its indentation. */
  function ModuleText(renderFn: string, staticFns: seq<string>): string
  {
    ModuleOpen + renderFn + StaticsOpen + Join(staticFns, StaticSeparator) + ModuleClose
  }

  /** Lines 77-84: wrap the render body and every static render body, then
      fill the module template. */
  function Serialize(beautify: Beautifier, renderer: CompiledRenderer): Result<string, string>
  {
    match ToFunction(beautify, renderer.render)
    case Failure(e) => Failure(e)
    case Success(renderFn) =>
      match MapToFunction(beautify, renderer.staticRenderFns)
      case Failure(e) => Failure(e)
      case Success(staticFns) => Success(ModuleText(renderFn, staticFns))
  }

  /** Where the static render function list starts in a module text. */
  function StaticsStart(renderFn: string): nat
  {
    |ModuleOpen| + |renderFn| + |StaticsOpen|
  }

  /** The module text holds the render function right after `render: `
      and, inside the list, every static render function in order, one
      separator apart. */
  lemma {:induction false} ModuleTextLayout(renderFn: string, staticFns: seq<string>)
    ensures OccursAt(ModuleText(renderFn, staticFns), renderFn, |ModuleOpen|)
    ensures forall k :: 0 <= k < |staticFns| ==>
      OccursAt(ModuleText(renderFn, staticFns), staticFns[k], StaticsStart(renderFn) + JoinOffset(staticFns, StaticSeparator, k))
  {
    ModuleTextRenderAt(renderFn, staticFns);
    forall k | 0 <= k < |staticFns|
      ensures OccursAt(ModuleText(renderFn, staticFns), staticFns[k], StaticsStart(renderFn) + JoinOffset(staticFns, StaticSeparator, k))
    {
      ModuleTextStaticAt(renderFn, staticFns, k);
    }
  }

  /** The render function follows `render: ` directly. */
  lemma {:induction false} ModuleTextRenderAt(renderFn: string, staticFns: seq<string>)
    ensures OccursAt(ModuleText(renderFn, staticFns), renderFn, |ModuleOpen|)
  {
    var joined := Join(staticFns, StaticSeparator);
    var before := ModuleOpen + renderFn + StaticsOpen;
    assert renderFn[0..|renderFn|] == renderFn;
    OccursInSuffix(ModuleOpen, renderFn, renderFn, 0);
    OccursInPrefix(ModuleOpen + renderFn, StaticsOpen, renderFn, |ModuleOpen|);
    OccursInPrefix(before, joined, renderFn, |ModuleOpen|);
    OccursInPrefix(before + joined, ModuleClose, renderFn, |ModuleOpen|);
  }

  /** Static render function `k` sits at its join offset inside the list. */
  lemma {:induction false} ModuleTextStaticAt(renderFn: string, staticFns: seq<string>, k: nat)
    requires k < |staticFns|
    ensures OccursAt(ModuleText(renderFn, staticFns), staticFns[k], StaticsStart(renderFn) + JoinOffset(staticFns, StaticSeparator, k))
  {
    var joined := Join(staticFns, StaticSeparator);
    var before := ModuleOpen + renderFn + StaticsOpen;
    var o := JoinOffset(staticFns, StaticSeparator, k);
    assert StaticsStart(renderFn) == |before|;
    JoinAt(staticFns, StaticSeparator, k);
    OccursInSuffix(before, joined, staticFns[k], o);
    OccursInPrefix(before + joined, ModuleClose, staticFns[k], |before| + o);
  }

  /** Serialisation succeeds exactly when the render body and every static
      render body pretty-print; the static wrappers then correspond one to
      one, in order, to the renderer's static render bodies. */
  lemma {:induction false} SerializeSucceedsIff(beautify: Beautifier, renderer: CompiledRenderer)
    ensures Serialize(beautify, renderer).Success? <==>
      && beautify(renderer.render).Success?
      && forall k :: 0 <= k < |renderer.staticRenderFns| ==> beautify(renderer.staticRenderFns[k]).Success?
    ensures Serialize(beautify, renderer).Success? ==>
      && Serialize(beautify, renderer).value == ModuleText(ToFunction(beautify, renderer.render).value,
                                                         MapToFunction(beautify, renderer.staticRenderFns).value)
      && |MapToFunction(beautify, renderer.staticRenderFns).value| == |renderer.staticRenderFns|
  {
    var statics := renderer.staticRenderFns;
    var all := MapToFunction(beautify, statics);
    if all.Failure? && beautify(renderer.render).Success? {
      var k :| 0 <= k < |statics| && FirstFailure(beautify, statics, k) && ToFunction(beautify, statics[k]) == Failure(all.error);
      assert !beautify(statics[k]).Success?;
    }
  }
}
