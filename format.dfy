/**
 * `TAS::formatPrint(str, args...)`: prints `str` with its `{}` placeholders
 * replaced, left to right, by the printed arguments. Printing is modelled
 * as the text emitted so far; each argument is given as the text `print`
 * emits for it. A template without a placeholder for the current argument
 * throws `runtime_error("Bad String")` after whatever was printed before.
 */
module Formatting {
  import opened SizeT
  import opened Errors
  import opened StringSpec

  const Placeholder: seq<char> := "{}"

  /** What a call prints, and whether it returns or throws. */
  datatype Printed = Printed(text: seq<char>, outcome: Outcome)

  /**
   * `recursiveFormatPrint(str, val, args...)`: prints `str.span(0, p)` and
   * `val`, where `p` is the first `{}`; with no arguments left it prints
   * `str.span(p + 2)`, otherwise it recurses on that rest.
   */
  function FormatPrint(template: seq<char>, args: seq<seq<char>>): (r: Printed)
    requires 1 <= |args| && |template| < NPos
    decreases |args|
    ensures r.outcome.Fail? ==> r.outcome.error == BadString
  {
    var p := FirstMatch(template, Placeholder);
    if p == NPos then Printed([], Fail(BadString))
    else
      var head := SpanOf(template, 0, p);
      var rest := SpanOf(template, p + 2, NPos);
      if |args| == 1 then Printed(head + args[0] + rest, Pass)
      else
        var tail := FormatPrint(rest, args[1..]);
        Printed(head + args[0] + tail.text, tail.outcome)
  }

  /** `formatPrint(str, args...)` */
  function FormatPrintAll(template: seq<char>, args: seq<seq<char>>): (r: Printed)
    requires 1 <= |args| && |template| < NPos
    ensures r.outcome.Fail? ==> r.outcome.error == BadString
    ensures r.outcome.Pass? <==> |args| <= Holes(template)
  {
    FormatSucceedsIff(template, args);
    FormatPrint(template, args)
  }

  /** The number of placeholders a left-to-right scan finds, each search resuming after the last `{}`. */
  function Holes(s: seq<char>): (n: nat)
    requires |s| < NPos
    ensures n <= |s| / 2
    decreases |s|
  {
    var p := FirstMatch(s, Placeholder);
    if p == NPos then 0 else 1 + Holes(s[p + 2..])
  }

  /** A call returns exactly when the template has a placeholder for every argument. */
  lemma {:induction false} FormatSucceedsIff(template: seq<char>, args: seq<seq<char>>)
    requires 1 <= |args| && |template| < NPos
    ensures FormatPrint(template, args).outcome.Pass? <==> |args| <= Holes(template)
    decreases |args|
  {
    var p := FirstMatch(template, Placeholder);
    if p != NPos {
      SpanToEnd(template, p + 2);
      if 1 < |args| {
        FormatSucceedsIff(template[p + 2..], args[1..]);
      }
    }
  }

  /** A template without `{}` throws before printing anything. */
  lemma NoPlaceholderPrintsNothing(template: seq<char>, args: seq<seq<char>>)
    requires 1 <= |args| && |template| < NPos
    requires forall j: nat :: !MatchAt(template, Placeholder, j)
    ensures FormatPrint(template, args) == Printed([], Fail(BadString))
  {
  }

  /**
   * The first `{}` of `prefix + "{}" + suffix`, when `prefix` has none, is
   * the one after `prefix`: the argument replaces it and the rest of the
   * template is formatted with the remaining arguments, or printed as it is
   * once there are none.
   */
  lemma SubstitutesFirstPlaceholder(prefix: seq<char>, suffix: seq<char>, val: seq<char>, more: seq<seq<char>>)
    requires |prefix| + 2 + |suffix| < NPos
    requires forall j: nat :: !MatchAt(prefix, Placeholder, j)
    ensures |more| == 0 ==> FormatPrint(prefix + Placeholder + suffix, [val]) == Printed(prefix + val + suffix, Pass)
    ensures 0 < |more| ==>
              FormatPrint(prefix + Placeholder + suffix, [val] + more).text == prefix + val + FormatPrint(suffix, more).text
    ensures 0 < |more| ==>
              FormatPrint(prefix + Placeholder + suffix, [val] + more).outcome == FormatPrint(suffix, more).outcome
  {
    var t := prefix + Placeholder + suffix;
    var k := |prefix|;
    assert t[k..k + 2] == Placeholder;
    assert MatchAt(t, Placeholder, k);
    forall j: nat | j < k
      ensures !MatchAt(t, Placeholder, j)
    {
      if j + 1 < k {
        assert t[j..j + 2] == prefix[j..j + 2];
        assert !MatchAt(prefix, Placeholder, j);
      } else {
        assert t[j + 1] == '{';
      }
    }
    assert FirstMatch(t, Placeholder) == k;
    assert SpanOf(t, 0, k) == prefix;
    SpanToEnd(t, k + 2);
    assert t[k + 2..] == suffix;
    if 0 < |more| {
      assert ([val] + more)[1..] == more;
    }
  }
}
