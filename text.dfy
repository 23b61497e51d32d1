/** The Python string operations the backend relies on: `str.strip()`,
    `str.startswith` and `str.replace(old, new, 1)`. Strings are sequences of
    Unicode scalar values, as Python's `str` is. */
module Text {
  import opened Common

  /** The characters for which Python's `str.isspace()` holds; `str.strip()`
      with no argument removes exactly these from both ends. */
  predicate IsSpace(c: char) {
    || ('\t' <= c <= '\r')
    || ('\U{1C}' <= c <= ' ')
    || c == '\U{85}' || c == '\U{A0}' || c == '\U{1680}'
    || ('\U{2000}' <= c <= '\U{200A}')
    || c == '\U{2028}' || c == '\U{2029}' || c == '\U{202F}' || c == '\U{205F}'
    || c == '\U{3000}'
  }

  /** Neither end of `s` is whitespace. */
  predicate Trimmed(s: string) {
    s == [] || (!IsSpace(s[0]) && !IsSpace(s[|s| - 1]))
  }

  /** `s.lstrip()`: the suffix left after removing leading whitespace. */
  function LStrip(s: string): (r: string)
    ensures |r| <= |s| && r == s[|s| - |r|..]
    ensures r == [] || !IsSpace(r[0])
    ensures forall k :: 0 <= k < |s| - |r| ==> IsSpace(s[k])
  {
    if s != [] && IsSpace(s[0]) then LStrip(s[1..]) else s
  }

  /** `s.rstrip()`: the prefix left after removing trailing whitespace. */
  function RStrip(s: string): (r: string)
    ensures |r| <= |s| && r == s[..|r|]
    ensures r == [] || !IsSpace(r[|r| - 1])
    ensures forall k :: |r| <= k < |s| ==> IsSpace(s[k])
  {
    if s != [] && IsSpace(s[|s| - 1]) then RStrip(s[..|s| - 1]) else s
  }

  /** `r` is `s` with some whitespace cut from its start and its end, and
      nothing else changed. */
  predicate CutsOnlySpace(s: string, r: string) {
    exists i, j ::
      && 0 <= i <= j <= |s| && r == s[i..j]
      && (forall k :: 0 <= k < i ==> IsSpace(s[k]))
      && (forall k :: j <= k < |s| ==> IsSpace(s[k]))
  }

  /** `s.strip()`: the result is trimmed, and it is `s` itself exactly when
      `s` was already trimmed; StripCutsOnlySpace says what is removed. */
  function Strip(s: string): (r: string)
    ensures |r| <= |s|
    ensures Trimmed(r)
    ensures r == s <==> Trimmed(s)
  {
    var l := LStrip(s);
    var r := RStrip(l);
    assert r != [] ==> r[0] == l[0];
    assert Trimmed(s) ==> l == s && r == s;
    r
  }

  /** Stripping cuts only whitespace, and only from the two ends. */
  lemma StripCutsOnlySpace(s: string)
    ensures CutsOnlySpace(s, Strip(s))
  {
    var l := LStrip(s);
    var r := RStrip(l);
    var i := |s| - |l|;
    PrefixOfSuffix(s, i, l, r);
    assert Strip(s) == r;
    assert 0 <= i <= i + |r| <= |s| && r == s[i..i + |r|];
  }

  /** A prefix `r` of the suffix `l == s[i..]` is the slice of `s` from `i`,
      and what `l` has after `r` is what `s` has after that slice. */
  lemma PrefixOfSuffix(s: string, i: nat, l: string, r: string)
    requires i <= |s| && l == s[i..] && |r| <= |l| && r == l[..|r|]
    requires forall k :: |r| <= k < |l| ==> IsSpace(l[k])
    ensures r == s[i..i + |r|]
    ensures forall k :: i + |r| <= k < |s| ==> IsSpace(s[k])
  {
    forall k | i + |r| <= k < |s|
      ensures IsSpace(s[k])
    {
      assert s[k] == l[k - i];
    }
  }

  /** Stripping twice is stripping once. */
  lemma StripIdempotent(s: string)
    ensures Strip(Strip(s)) == Strip(s)
  {
  }

  /** Stripping a string made only of whitespace gives the empty string. */
  lemma {:induction false} StripAllSpace(s: string)
    requires forall k :: 0 <= k < |s| ==> IsSpace(s[k])
    ensures Strip(s) == ""
  {
    assert LStrip(s) == "";
  }

  /** `s.startswith(prefix)`. */
  predicate StartsWith(s: string, prefix: string) {
    |prefix| <= |s| && s[..|prefix|] == prefix
  }

  /** The first position at or after `from` where `pat` occurs in `s`. */
  function FindFrom(s: string, pat: string, from: nat): (k: Option<nat>)
    requires from <= |s|
    ensures k.Some? ==> from <= k.value && k.value + |pat| <= |s| && s[k.value..k.value + |pat|] == pat
    ensures k.Some? ==> forall j :: from <= j < k.value ==> !StartsWith(s[j..], pat)
    decreases |s| - from
  {
    if StartsWith(s[from..], pat) then Some(from)
    else if from == |s| then None
    else FindFrom(s, pat, from + 1)
  }

  /** `s.replace(pat, repl, 1)`: the first occurrence of `pat` is replaced by
      `repl`; without an occurrence `s` is returned unchanged. */
  function ReplaceOnce(s: string, pat: string, repl: string): string {
    match FindFrom(s, pat, 0)
    case None => s
    case Some(k) => s[..k] + repl + s[k + |pat|..]
  }

  /** When `s` starts with `pat`, replacing its first occurrence swaps the
      prefix. */
  lemma ReplaceOnceAtPrefix(s: string, pat: string, repl: string)
    requires StartsWith(s, pat)
    ensures ReplaceOnce(s, pat, repl) == repl + s[|pat|..]
  {
    assert s[0..] == s;
    assert FindFrom(s, pat, 0) == Some(0);
  }
}
