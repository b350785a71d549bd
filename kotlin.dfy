/** The pieces of the Kotlin language and standard library that the navigation
    code relies on: nullable values, thrown exceptions, `String.substringBefore`
    and `List.lastOrNull { predicate }`. */
module Kotlin {

  /** A nullable value: `None` stands for Kotlin's `null`. */
  datatype Option<+T> = None | Some(value: T)

  /** The exceptions the modelled code can raise. */
  datatype Throwable =
    | NullPointerException      // a `!!` applied to null
    | IllegalStateException     // the navigation host's "should never happen" trap
    | IllegalArgumentException  // `Enum.valueOf` on a name that is no constant

  /** The outcome of an expression that either yields a value or throws. */
  datatype Result<+T> = Ok(value: T) | Thrown(exception: Throwable)

  /** `s.substringBefore(delimiter)`: the part of `s` before the first
      occurrence of `delimiter`, or all of `s` when it does not occur. */
  function SubstringBefore(s: string, delimiter: char): (r: string)
    ensures r <= s
    ensures delimiter !in r
    ensures |r| < |s| ==> s[|r|] == delimiter
  {
    if s == [] || s[0] == delimiter then []
    else [s[0]] + SubstringBefore(s[1..], delimiter)
  }

  /** Without the delimiter, `substringBefore` returns the whole string. */
  lemma SubstringBeforeAbsent(s: string, delimiter: char)
    requires delimiter !in s
    ensures SubstringBefore(s, delimiter) == s
  {
  }

  /** Cutting `prefix + [delimiter] + rest` at the delimiter gives back the
      prefix, whatever the rest holds (more delimiters included). */
  lemma {:induction false} SubstringBeforeCut(prefix: string, delimiter: char, rest: string)
    requires delimiter !in prefix
    ensures SubstringBefore(prefix + [delimiter] + rest, delimiter) == prefix
  {
    var s := prefix + [delimiter] + rest;
    if prefix != [] {
      assert s[0] == prefix[0] && s[1..] == prefix[1..] + [delimiter] + rest;
      SubstringBeforeCut(prefix[1..], delimiter, rest);
    }
  }

  /** `s.lastOrNull(p)`: the last element of `s` that satisfies `p`, or null. */
  function LastOrNull<T>(s: seq<T>, p: T -> bool): (r: Option<T>)
    ensures r.None? <==> forall j :: 0 <= j < |s| ==> !p(s[j])
    ensures r.Some? ==>
      exists i :: 0 <= i < |s| && s[i] == r.value && p(s[i]) &&
        forall j :: i < j < |s| ==> !p(s[j])
  {
    if s == [] then None
    else if p(s[|s| - 1]) then Some(s[|s| - 1])
    else LastOrNull(s[..|s| - 1], p)
  }
}
