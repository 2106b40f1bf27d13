/** The two regular-expression replacements that cut the loader's markup down
    to what Vue expects (gemstone-loader-html.js, lines 55-57):

      result.replace(/^(?:.|\n)*?(<[a-zA-Z_])/, "$1")   -- StripLeading
            .replace(/(?:[^>]|\n)*$/, "")               -- TrimTrailing

    Each replacement is modelled the way a backtracking regular-expression
    engine evaluates that one pattern (which start positions it tries, what a
    lazy or greedy repetition consumes), and its effect is then characterised
    by contracts and lemmas. Strings are sequences of `char`. */
module MarkupTrim {
  import opened Wrappers

  /** The characters that `(?:.|\n)` cannot consume: JavaScript's `.` (without
      the `s` flag) refuses every line terminator, and `|\n` gives `\n` back,
      leaving carriage return, LINE SEPARATOR and PARAGRAPH SEPARATOR. */
  predicate IsBlocking(ch: char) {
    ch == '\r' || ch == '\U{2028}' || ch == '\U{2029}'
  }

  /** The class `[a-zA-Z_]` (no `i` flag, so ASCII letters only). */
  predicate IsNameStart(ch: char) {
    ('a' <= ch <= 'z') || ('A' <= ch <= 'Z') || ch == '_'
  }

  /** The group `(<[a-zA-Z_])` matches at position `i` of `s`. */
  predicate IsOpenerAt(s: string, i: int) {
    0 <= i && i + 1 < |s| && s[i] == '<' && IsNameStart(s[i + 1])
  }

  /** Some character in `s[lo..hi]` cannot be consumed by `(?:.|\n)`. */
  predicate BlockedBetween(s: string, lo: int, hi: int) {
    exists b :: lo <= b < hi && 0 <= b < |s| && IsBlocking(s[b])
  }

  // ---------------------------------------------------------------------
  // Leading strip: /^(?:.|\n)*?(<[a-zA-Z_])/ -> "$1"
  // ---------------------------------------------------------------------

  /** The lazy repetition `(?:.|\n)*?` followed by `(<[a-zA-Z_])`, having
      consumed `s[..i]`: first try the group at `i`; only if that fails,
      let the repetition consume one more character, which it cannot do at
      the end of the input or on a blocking character. Returns where the
      group matched, or None if the whole match fails. */
  function LazyOpenerSearch(s: string, i: nat): (k: Option<nat>)
    requires i <= |s|
    ensures k.Some? ==> i <= k.value && IsOpenerAt(s, k.value)
    ensures k.Some? ==> forall j :: i <= j < k.value ==> !IsOpenerAt(s, j) && !IsBlocking(s[j])
    ensures k.None? ==> forall j :: i <= j < |s| && IsOpenerAt(s, j) ==> BlockedBetween(s, i, j)
    decreases |s| - i
  {
    if IsOpenerAt(s, i) then Some(i)
    else if i < |s| && !IsBlocking(s[i]) then LazyOpenerSearch(s, i + 1)
    else None
  }

  /** `s.replace(/^(?:.|\n)*?(<[a-zA-Z_])/, "$1")`. The pattern is anchored
      (no `m` flag), so only the attempt at position 0 can succeed; on success
      the matched text `s[..k + 2]` is replaced by the captured opener
      `s[k..k + 2]`. The result is always a suffix of the input. */
  function StripLeading(s: string): (r: string)
    ensures |r| <= |s| && r == s[|s| - |r|..]
  {
    match LazyOpenerSearch(s, 0)
    case None => s
    case Some(k) => s[..0] + s[k..k + 2] + s[k + 2..]
  }

  /** When the strip cuts, it cuts at the first `<` followed by a letter or
      `_`, nothing before that point blocks the match, and the opener itself
      is kept at the head of the result. */
  lemma {:induction false} StripLeadingCutsAtFirstOpener(s: string)
    ensures var k := |s| - |StripLeading(s)|;
      StripLeading(s) != s ==>
        && 0 < k
        && IsOpenerAt(s, k)
        && IsOpenerAt(StripLeading(s), 0)
        && (forall j :: 0 <= j < k ==> !IsOpenerAt(s, j) && !IsBlocking(s[j]))
  {
    match LazyOpenerSearch(s, 0)
    case None =>
    case Some(k) =>
      assert StripLeading(s) == s[k..];
  }

  /** Conversely: a first opener at `k` with nothing blocking before it is
      exactly where the strip cuts. */
  lemma {:induction false} StripLeadingAtOpener(s: string, k: nat)
    requires IsOpenerAt(s, k)
    requires forall j :: 0 <= j < k ==> !IsOpenerAt(s, j) && !IsBlocking(s[j])
    ensures StripLeading(s) == s[k..]
  {
    var found := LazyOpenerSearch(s, 0);
    assert !BlockedBetween(s, 0, k);
    if found.None? {
      assert false;
    }
  }

  /** Without any opener, or with a blocking character before the first
      opener, the strip leaves the markup untouched. */
  lemma {:induction false} StripLeadingUnchanged(s: string)
    requires (forall j :: 0 <= j < |s| ==> !IsOpenerAt(s, j))
          || (exists b :: 0 <= b < |s| && IsBlocking(s[b]) && forall j :: 0 <= j <= b ==> !IsOpenerAt(s, j))
    ensures StripLeading(s) == s
  {
    if StripLeading(s) != s {
      StripLeadingCutsAtFirstOpener(s);
    }
  }

  /** The strip is idempotent: its result is a fixed point. */
  lemma {:induction false} StripLeadingIdempotent(s: string)
    ensures StripLeading(StripLeading(s)) == StripLeading(s)
  {
    var r := StripLeading(s);
    if r != s {
      StripLeadingCutsAtFirstOpener(s);
      StripLeadingAtOpener(r, 0);
    }
  }

  /** A template behind a leading comment: the cut lands on `<div`, and the
      opener appears once, at the head of the result. */
  lemma {:induction false} StripLeadingAfterCommentExample()
    ensures StripLeading("<!-- c -->\n<div>{{x}}</div>") == "<div>{{x}}</div>"
  {
    var s := "<!-- c -->\n<div>{{x}}</div>";
    StripLeadingAtOpener(s, 11);
  }

  /** The strip is not comment-aware: a tag inside a leading comment is
      where it cuts. */
  lemma {:induction false} StripLeadingInsideCommentExample()
    ensures StripLeading("<!-- <b>x</b> -->\n<p></p>") == "<b>x</b> -->\n<p></p>"
  {
    var s := "<!-- <b>x</b> -->\n<p></p>";
    StripLeadingAtOpener(s, 5);
  }

  /** A carriage return before the first opener (a file with CRLF line
      endings) makes the anchored match fail, so nothing is stripped. */
  lemma {:induction false} StripLeadingCarriageReturnExample()
    ensures StripLeading("<!-- c -->\r\n<div></div>") == "<!-- c -->\r\n<div></div>"
  {
    var s := "<!-- c -->\r\n<div></div>";
    assert IsBlocking(s[10]);
    StripLeadingUnchanged(s);
  }

  // ---------------------------------------------------------------------
  // Trailing trim: /(?:[^>]|\n)*$/ -> ""
  // ---------------------------------------------------------------------

  /** No `>` occurs in `s[q..]`. */
  predicate NoCloseFrom(s: string, q: int) {
    forall j :: q <= j < |s| && 0 <= j ==> s[j] != '>'
  }

  /** Where the greedy repetition `(?:[^>]|\n)*` started at `p` stops: at the
      first `>` at or after `p`, or at the end of the input. */
  function GreedyRunEnd(s: string, p: nat): (e: nat)
    requires p <= |s|
    ensures p <= e <= |s|
    ensures forall j :: p <= j < e ==> s[j] != '>'
    ensures e < |s| ==> s[e] == '>'
    decreases |s| - p
  {
    if p == |s| || s[p] == '>' then p else GreedyRunEnd(s, p + 1)
  }

  /** The leftmost start position, trying `p`, `p + 1`, ... as an unanchored
      search does, at which `(?:[^>]|\n)*$` matches. A match at `p` needs the
      greedy run to reach the end of the input: giving characters back only
      moves away from `$`. The attempt at `|s|` (the empty match) always
      succeeds, so the search cannot fail. */
  function TrailingMatchStart(s: string, p: nat): (q: nat)
    requires p <= |s|
    ensures p <= q <= |s|
    ensures NoCloseFrom(s, q)
    ensures q > p ==> s[q - 1] == '>'
    decreases |s| - p
  {
    if GreedyRunEnd(s, p) == |s| then p else TrailingMatchStart(s, p + 1)
  }

  /** `s.replace(/(?:[^>]|\n)*$/, "")`: the first match (the pattern is not
      global) is deleted. The result is the prefix of the input that ends at
      its last `>`, or empty when there is none. */
  function TrimTrailing(s: string): (r: string)
    ensures |r| <= |s| && r == s[..|r|]
    ensures NoCloseFrom(s, |r|)
    ensures r == [] || r[|r| - 1] == '>'
  {
    var q := TrailingMatchStart(s, 0);
    s[..q] + "" + s[|s|..]
  }

  /** The prefix that the trim keeps is the only one that ends at a `>` (or
      is empty) and leaves no `>` behind it. */
  lemma {:induction false} TrimTrailingUnique(s: string, n: nat)
    requires n <= |s|
    requires NoCloseFrom(s, n)
    requires n == 0 || s[n - 1] == '>'
    ensures TrimTrailing(s) == s[..n]
  {
  }

  /** The trim is empty exactly when the input has no `>`. */
  lemma {:induction false} TrimTrailingEmptyIff(s: string)
    ensures TrimTrailing(s) == [] <==> '>' !in s
  {
    var r := TrimTrailing(s);
    if r != [] {
      assert s[|r| - 1] == '>';
    }
  }

  /** Trimming an already trimmed string changes nothing. */
  lemma {:induction false} TrimTrailingIdempotent(s: string)
    ensures TrimTrailing(TrimTrailing(s)) == TrimTrailing(s)
  {
    var r := TrimTrailing(s);
    TrimTrailingUnique(r, |r|);
  }

  /** An independent reference: the index of the last occurrence of `c`,
      found by scanning from the end. */
  function LastIndexOf(s: string, c: char): (k: Option<nat>)
    ensures k.Some? ==> k.value < |s| && s[k.value] == c
    ensures k.Some? ==> forall j :: k.value < j < |s| ==> s[j] != c
    ensures k.None? ==> c !in s
  {
    if s == [] then None
    else if s[|s| - 1] == c then Some(|s| - 1)
    else LastIndexOf(s[..|s| - 1], c)
  }

  /** The trim keeps exactly the prefix up to and including the last `>`. */
  lemma {:induction false} TrimTrailingEndsAtLastClose(s: string)
    ensures TrimTrailing(s) == match LastIndexOf(s, '>')
                               case None => []
                               case Some(k) => s[..k + 1]
  {
    match LastIndexOf(s, '>')
    case None =>
      TrimTrailingUnique(s, 0);
    case Some(k) =>
      TrimTrailingUnique(s, k + 1);
  }

  // ---------------------------------------------------------------------
  // Both trims, in the loader's order
  // ---------------------------------------------------------------------

  /** Stripping then trimming keeps one contiguous piece of the markup, and
      yields markup that neither replacement would change again. */
  lemma {:induction false} TrimsReachFixedPoint(s: string)
    ensures var m := TrimTrailing(StripLeading(s));
      var cut := |s| - |StripLeading(s)|;
      && cut + |m| <= |s| && m == s[cut..cut + |m|]
      && StripLeading(m) == m && TrimTrailing(m) == m
  {
    var x := StripLeading(s);
    var m := TrimTrailing(x);
    assert m == x[..|m|] && x == s[|s| - |x|..];
    TrimTrailingIdempotent(x);
    if LazyOpenerSearch(s, 0).Some? {
      StripLeadingCutsAtFirstOpener(s);
      if x != s {
        TrimKeepsOpener(x);
      } else {
        TrimKeepsOpener(s);
      }
    } else {
      TrimKeepsUnmatched(s);
    }
  }

  /** Markup that starts with an opener keeps it through the trailing trim,
      unless the trim leaves nothing. */
  lemma {:induction false} TrimKeepsOpener(x: string)
    requires IsOpenerAt(x, 0)
    ensures StripLeading(TrimTrailing(x)) == TrimTrailing(x)
  {
    var m := TrimTrailing(x);
    assert m == x[..|m|];
    if |m| >= 2 {
      StripLeadingAtOpener(m, 0);
    }
  }

  /** If the lazy search fails on `s` from `i`, it fails on every prefix of
      `s` that still contains `i`. */
  lemma {:induction false} SearchFailsOnPrefix(s: string, n: nat, i: nat)
    requires i <= n <= |s|
    requires LazyOpenerSearch(s, i).None?
    ensures LazyOpenerSearch(s[..n], i).None?
    decreases n - i
  {
    assert !IsOpenerAt(s, i);
    if i < n && !IsBlocking(s[i]) {
      SearchFailsOnPrefix(s, n, i + 1);
    }
  }

  /** Markup on which the leading match fails still fails it after the
      trailing trim. */
  lemma {:induction false} TrimKeepsUnmatched(s: string)
    requires LazyOpenerSearch(s, 0).None?
    ensures StripLeading(TrimTrailing(s)) == TrimTrailing(s)
  {
    var m := TrimTrailing(s);
    assert m == s[..|m|];
    SearchFailsOnPrefix(s, |m|, 0);
  }
}
