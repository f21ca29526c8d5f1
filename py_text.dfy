/**
 * The Python string built-ins the bot relies on, over strings of Unicode
 * scalar values: `str.isspace`, `str.strip()`, `s.split(sep)[0]` and
 * `sep.join(parts)`.
 */
module PyText {

  /** `c.isspace()`: the characters Python's `str.strip()` removes. */
  predicate IsSpace(c: char) {
    || ('\t' <= c <= '\r')
    || ('\U{1C}' <= c <= ' ')
    || c == '\U{85}' || c == '\U{A0}' || c == '\U{1680}'
    || ('\U{2000}' <= c <= '\U{200A}')
    || c == '\U{2028}' || c == '\U{2029}' || c == '\U{202F}'
    || c == '\U{205F}' || c == '\U{3000}'
  }

  /** The index of the first non-whitespace character of `s` at or after `i`, or `|s|` when there is none. */
  function SkipSpace(s: string, i: nat): (k: nat)
    requires i <= |s|
    ensures i <= k <= |s|
    ensures forall j :: i <= j < k ==> IsSpace(s[j])
    ensures k < |s| ==> !IsSpace(s[k])
    decreases |s| - i
  {
    if i < |s| && IsSpace(s[i]) then SkipSpace(s, i + 1) else i
  }

  /** The index just past the last non-whitespace character of `s` before `n`, or 0 when there is none. */
  function SkipSpaceBack(s: string, n: nat): (k: nat)
    requires n <= |s|
    ensures k <= n
    ensures forall j :: k <= j < n ==> IsSpace(s[j])
    ensures k > 0 ==> !IsSpace(s[k - 1])
  {
    if n > 0 && IsSpace(s[n - 1]) then SkipSpaceBack(s, n - 1) else n
  }

  /** How many leading characters `Strip` removes. */
  function StripOffset(s: string): nat {
    SkipSpace(s, 0)
  }

  /**
   * `s.strip()`: the run of `s` that starts at `StripOffset(s)`; only
   * whitespace is removed on either side, and what is left neither starts
   * nor ends with whitespace.
   */
  function Strip(s: string): (r: string)
    ensures StripOffset(s) + |r| <= |s|
    ensures forall i :: 0 <= i < |r| ==> r[i] == s[StripOffset(s) + i]
    ensures r == [] || (!IsSpace(r[0]) && !IsSpace(r[|r| - 1]))
    ensures forall i :: 0 <= i < StripOffset(s) ==> IsSpace(s[i])
    ensures forall i :: StripOffset(s) + |r| <= i < |s| ==> IsSpace(s[i])
  {
    var a := SkipSpace(s, 0);
    if a == |s| then []
    else
      var b := SkipSpaceBack(s, |s|);
      s[a..b]
  }

  /** A string without surrounding whitespace is its own `strip()`. */
  lemma StripFixed(s: string)
    requires s == [] || (!IsSpace(s[0]) && !IsSpace(s[|s| - 1]))
    ensures Strip(s) == s
  {
    if s != [] {
      var a, b := SkipSpace(s, 0), SkipSpaceBack(s, |s|);
      assert a == 0 && b == |s|;
      assert s[0..|s|] == s;
    }
  }

  /** Stripping twice is stripping once. */
  lemma StripIdempotent(s: string)
    ensures Strip(Strip(s)) == Strip(s)
  {
    StripFixed(Strip(s));
  }

  /** Stripping never introduces a character the input did not have. */
  lemma StripKeepsOut(s: string, c: char)
    requires c !in s
    ensures c !in Strip(s)
  {
    var r, a := Strip(s), StripOffset(s);
    forall i | 0 <= i < |r| ensures r[i] != c {
      assert r[i] == s[a + i];
    }
  }

  /** The index of the first `sep` in `s` at or after `i`, or `|s|` when there is none. */
  function SepIndex(s: string, sep: char, i: nat): (k: nat)
    requires i <= |s|
    ensures i <= k <= |s|
    ensures forall j :: i <= j < k ==> s[j] != sep
    ensures k < |s| ==> s[k] == sep
    decreases |s| - i
  {
    if i < |s| && s[i] != sep then SepIndex(s, sep, i + 1) else i
  }

  /** `s.split(sep)[0]`: the text before the first `sep`, or all of `s` when it has none. */
  function FirstPiece(s: string, sep: char): (r: string)
    ensures |r| <= |s|
    ensures forall i :: 0 <= i < |r| ==> r[i] == s[i] && r[i] != sep
    ensures |r| < |s| ==> s[|r|] == sep
  {
    s[..SepIndex(s, sep, 0)]
  }

  /** The first piece is exactly the text ahead of the first separator. */
  lemma FirstPieceBefore(first: string, sep: char, rest: string)
    requires sep !in first
    ensures FirstPiece(first + [sep] + rest, sep) == first
    ensures FirstPiece(first, sep) == first
  {
    var s := first + [sep] + rest;
    var r, r' := FirstPiece(s, sep), FirstPiece(first, sep);
    assert s[|first|] == sep;
  }

  /** `sep.join(parts)`. */
  function Join(sep: string, parts: seq<string>): string {
    if parts == [] then ""
    else if |parts| == 1 then parts[0]
    else parts[0] + sep + Join(sep, parts[1..])
  }

  /** A joined text starts with its first part. */
  lemma JoinStartsWithFirst(sep: string, parts: seq<string>)
    requires parts != []
    ensures parts[0] <= Join(sep, parts)
  {
  }

  /** Joining one more part puts the separator and that part after the join of the others. */
  lemma {:induction false} JoinAppend(sep: string, parts: seq<string>, x: string)
    requires parts != []
    ensures Join(sep, parts + [x]) == Join(sep, parts) + sep + x
    decreases |parts|
  {
    var all := parts + [x];
    assert all[1..] == parts[1..] + [x];
    if |parts| > 1 {
      JoinAppend(sep, parts[1..], x);
    }
  }
}
