/**
 String helpers shared by the model: Go's `strings.HasSuffix`, searches for
 the first and last occurrence of a character, and ASCII whitespace.
 */
module Text {
  import opened Errors

  /** The ASCII whitespace characters: space, tab, newline, carriage
      return, vertical tab and form feed. */
  predicate IsSpace(ch: char)
  {
    ch == ' ' || ch == '\t' || ch == '\n' || ch == '\r' || ch == '\U{000B}' || ch == '\U{000C}'
  }

  /** `strings.HasSuffix(s, suffix)`. */
  predicate EndsWith(s: string, suffix: string)
  {
    |suffix| <= |s| && s[|s| - |suffix|..] == suffix
  }

  /** The index of the first occurrence of `ch` in `s`. */
  function FirstIndex(s: string, ch: char): (r: Option<nat>)
    ensures r.None? <==> ch !in s
    ensures r.Some? ==> r.value < |s| && s[r.value] == ch && ch !in s[..r.value]
  {
    if |s| == 0 then None
    else if s[0] == ch then Some(0)
    else match FirstIndex(s[1..], ch)
      case None => None
      case Some(i) =>
        assert s[..i + 1] == [s[0]] + s[1..][..i];
        Some(i + 1)
  }

  /** The index of the last occurrence of `ch` in `s`. */
  function LastIndex(s: string, ch: char): (r: Option<nat>)
    ensures r.None? <==> ch !in s
    ensures r.Some? ==> r.value < |s| && s[r.value] == ch && ch !in s[r.value + 1..]
  {
    if |s| == 0 then None
    else if s[|s| - 1] == ch then Some(|s| - 1)
    else
      var r := LastIndex(s[..|s| - 1], ch);
      assert r.Some? ==> s[r.value + 1..] == s[..|s| - 1][r.value + 1..] + [s[|s| - 1]];
      assert s == s[..|s| - 1] + [s[|s| - 1]];
      r
  }

  /** The separator placed between `a` and `b` is the first occurrence
      when `a` does not contain it. */
  lemma FirstIndexAt(a: string, ch: char, b: string)
    requires ch !in a
    ensures FirstIndex(a + [ch] + b, ch) == Some(|a|)
  {
    var s := a + [ch] + b;
    assert s[|a|] == ch;
    assert s[..|a|] == a;
  }

  /** The separator placed between `a` and `b` is the last occurrence
      when `b` does not contain it. */
  lemma LastIndexAt(a: string, ch: char, b: string)
    requires ch !in b
    ensures LastIndex(a + [ch] + b, ch) == Some(|a|)
  {
    var s := a + [ch] + b;
    assert s[|a|] == ch;
    assert s[|a| + 1..] == b;
  }
}
