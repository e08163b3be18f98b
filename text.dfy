/**
 * The Python string operations the script applies to downloaded text and to
 * column names: `str.strip()`, `str.split(sep)`, `str.replace` and
 * the filtering of empty strings. Strings are sequences of characters.
 */
module Text {
  import opened Wrappers

  /** No string occurs twice in `xs`. */
  predicate NoDuplicates(xs: seq<string>) {
    forall i, j :: 0 <= i < j < |xs| ==> xs[i] != xs[j]
  }

  /** Python's `str.isspace()` for one character: the characters `str.strip()` removes. */
  predicate IsWhitespace(c: char) {
    || c == ' '
    || ('\t' <= c <= '\r')
    || ('\U{1c}' <= c <= '\U{1f}')
    || c == '\U{85}' || c == '\U{a0}' || c == '\U{1680}'
    || ('\U{2000}' <= c <= '\U{200a}')
    || c == '\U{2028}' || c == '\U{2029}' || c == '\U{202f}' || c == '\U{205f}' || c == '\U{3000}'
  }

  predicate AllWhitespace(s: string) {
    forall i :: 0 <= i < |s| ==> IsWhitespace(s[i])
  }

  /** Neither end of `s` is whitespace: the shape of every result of `str.strip()`. */
  predicate Bare(s: string) {
    s == [] || (!IsWhitespace(s[0]) && !IsWhitespace(s[|s| - 1]))
  }

  /** Python's `str.lstrip()`: the longest whitespace prefix is dropped. */
  function StripStart(s: string): (r: string)
    ensures |r| <= |s| && r == s[|s| - |r|..]
    ensures AllWhitespace(s[..|s| - |r|])
    ensures r == [] || !IsWhitespace(r[0])
  {
    if s != [] && IsWhitespace(s[0]) then
      var r := StripStart(s[1..]);
      assert s[..|s| - |r|] == [s[0]] + s[1..][..|s| - 1 - |r|];
      r
    else s
  }

  /** Python's `str.rstrip()`: the longest whitespace suffix is dropped. */
  function StripEnd(s: string): (r: string)
    ensures |r| <= |s| && r == s[..|r|]
    ensures AllWhitespace(s[|r|..])
    ensures r == [] || !IsWhitespace(r[|r| - 1])
  {
    if s != [] && IsWhitespace(s[|s| - 1]) then
      var r := StripEnd(s[..|s| - 1]);
      assert s[|r|..] == s[..|s| - 1][|r|..] + [s[|s| - 1]];
      r
    else s
  }

  /** `r` is `s` with a whitespace prefix of length `i` and a whitespace suffix cut off. */
  ghost predicate StrippedAt(s: string, r: string, i: int) {
    0 <= i <= |s| - |r| && r == s[i..i + |r|] && AllWhitespace(s[..i]) && AllWhitespace(s[i + |r|..])
  }

  /** Python's `str.strip()` with no argument. */
  function Strip(s: string): (r: string)
    ensures Bare(r)
    ensures exists i :: StrippedAt(s, r, i)
  {
    var t := StripStart(s);
    var r := StripEnd(t);
    assert StrippedAt(s, r, |s| - |t|) by {
      assert s[|s| - |t| + |r|..] == t[|r|..];
    }
    r
  }

  /** Stripping a string with no whitespace at either end changes nothing. */
  lemma StripBare(s: string)
    requires Bare(s)
    ensures Strip(s) == s
  {
  }

  /** `str.strip()` is idempotent. */
  lemma StripIdempotent(s: string)
    ensures Strip(Strip(s)) == Strip(s)
  {
    StripBare(Strip(s));
  }

  /** `sep` occurs in `s` at index `i`. */
  ghost predicate OccursAt(s: string, sep: string, i: int) {
    0 <= i && i + |sep| <= |s| && s[i..i + |sep|] == sep
  }

  /** `sep` occurs nowhere in `s`. */
  ghost predicate Free(s: string, sep: string) {
    forall i :: !OccursAt(s, sep, i)
  }

  /** Python's `str.find(sep, from)`: the leftmost occurrence of `sep` at or after `from`. */
  function Find(s: string, sep: string, from: nat): (r: Option<nat>)
    requires from <= |s|
    decreases |s| - from
    ensures r.Some? ==> from <= r.value && OccursAt(s, sep, r.value)
    ensures forall j :: from <= j && (r.None? || j < r.value) ==> !OccursAt(s, sep, j)
  {
    if from + |sep| > |s| then None
    else if s[from..from + |sep|] == sep then Some(from)
    else Find(s, sep, from + 1)
  }

  /** Python's `sep.join(parts)`. */
  function Join(parts: seq<string>, sep: string): string
    decreases |parts|
  {
    if parts == [] then []
    else if |parts| == 1 then parts[0]
    else parts[0] + sep + Join(parts[1..], sep)
  }

  /** Python's `str.split(sep)` for a non-empty separator (an empty one raises `ValueError`). */
  function Split(s: string, sep: string): (r: seq<string>)
    requires sep != []
    decreases |s|
    ensures r != []
    ensures Join(r, sep) == s
    ensures forall k :: 0 <= k < |r| ==> Free(r[k], sep)
  {
    match Find(s, sep, 0)
    case None => [s]
    case Some(i) =>
      var rest := Split(s[i + |sep|..], sep);
      var head := s[..i];
      assert Free(head, sep) by {
        forall j | OccursAt(head, sep, j) ensures false {
          assert s[j..j + |sep|] == head[j..j + |sep|];
          assert OccursAt(s, sep, j);
        }
      }
      assert Join([head] + rest, sep) == s by {
        assert ([head] + rest)[1..] == rest;
        assert s == s[..i] + sep + s[i + |sep|..];
      }
      [head] + rest
  }

  /** Every character of a part is a character of the joined string. */
  lemma {:induction false} JoinKeepsChars(parts: seq<string>, sep: string, k: int, c: char)
    requires 0 <= k < |parts| && c in parts[k]
    ensures c in Join(parts, sep)
    decreases |parts|
  {
    if |parts| > 1 {
      if k > 0 {
        JoinKeepsChars(parts[1..], sep, k - 1, c);
      }
    }
  }

  /** Every character of a split part is a character of the split string. */
  lemma SplitKeepsChars(s: string, sep: string, k: int, c: char)
    requires sep != [] && 0 <= k < |Split(s, sep)| && c in Split(s, sep)[k]
    ensures c in s
  {
    JoinKeepsChars(Split(s, sep), sep, k, c);
  }

  /** Every character `str.strip()` leaves was in the input. */
  lemma StripKeepsChars(s: string, c: char)
    requires c in Strip(s)
    ensures c in s
  {
    var t := StripStart(s);
    StripEndKeepsChars(t, c);
    StripStartKeepsChars(s, c);
  }

  lemma StripStartKeepsChars(s: string, c: char)
    requires c in StripStart(s)
    ensures c in s
  {
    var t := StripStart(s);
    var k :| 0 <= k < |t| && t[k] == c;
    assert s[|s| - |t| + k] == c;
  }

  lemma StripEndKeepsChars(s: string, c: char)
    requires c in StripEnd(s)
    ensures c in s
  {
    var t := StripEnd(s);
    var k :| 0 <= k < |t| && t[k] == c;
    assert s[k] == c;
  }

  /** `[x for x in xs if x]`: the non-empty strings of `xs`, in their order. */
  function NonEmpty(xs: seq<string>): (r: seq<string>)
    ensures |r| <= |xs|
    ensures forall k :: 0 <= k < |r| ==> r[k] != []
    ensures forall x :: x in r <==> x in xs && x != []
  {
    if xs == [] then []
    else (if xs[0] == [] then [] else [xs[0]]) + NonEmpty(xs[1..])
  }

  /** Filtering distributes over concatenation, so the kept strings stay in their original order. */
  lemma {:induction false} NonEmptyAppend(a: seq<string>, b: seq<string>)
    ensures NonEmpty(a + b) == NonEmpty(a) + NonEmpty(b)
    decreases |a|
  {
    if a != [] {
      assert (a + b)[1..] == a[1..] + b;
      NonEmptyAppend(a[1..], b);
    } else {
      assert a + b == b;
    }
  }

  /** Python's `s.replace(c, "")`: every occurrence of `c` deleted, nothing else touched. */
  function DeleteChar(s: string, c: char): (r: string)
    ensures c !in r
    ensures multiset(r) == multiset(s)[c := 0]
  {
    if s == [] then []
    else
      assert s == [s[0]] + s[1..];
      (if s[0] == c then [] else [s[0]]) + DeleteChar(s[1..], c)
  }

  /** Deleting distributes over concatenation, so the characters kept stay in their order. */
  lemma {:induction false} DeleteCharAppend(a: string, b: string, c: char)
    ensures DeleteChar(a + b, c) == DeleteChar(a, c) + DeleteChar(b, c)
    decreases |a|
  {
    if a == [] {
      assert a + b == b;
    } else {
      assert (a + b)[1..] == a[1..] + b;
      DeleteCharAppend(a[1..], b, c);
    }
  }

  /** Deleting a character that does not occur is the identity. */
  lemma {:induction false} DeleteCharAbsent(s: string, c: char)
    requires c !in s
    ensures DeleteChar(s, c) == s
  {
    if s != [] {
      DeleteCharAbsent(s[1..], c);
    }
  }

  /** Python's `s.replace(from, to)` for one-character `from` and `to`: position by position. */
  function ReplaceChar(s: string, from: char, to: char): (r: string)
    ensures |r| == |s|
    ensures forall i :: 0 <= i < |s| ==> r[i] == (if s[i] == from then to else s[i])
  {
    if s == [] then []
    else [if s[0] == from then to else s[0]] + ReplaceChar(s[1..], from, to)
  }

  /** Replacing a character by a different one leaves none of it. */
  lemma ReplaceCharRemoves(s: string, from: char, to: char)
    requires from != to
    ensures from !in ReplaceChar(s, from, to)
  {
  }

  /** Replacing a character that does not occur is the identity. */
  lemma ReplaceCharAbsent(s: string, from: char, to: char)
    requires from !in s
    ensures ReplaceChar(s, from, to) == s
  {
  }
}
